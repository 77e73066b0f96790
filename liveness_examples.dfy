/**
 * The liveness analysis on the compiled forms of the analysis's own three small functions: a
 * chain of four additions, an addition stored to a local, and a local written on both arms of a
 * branch and read after they join. Each context is the def/use of the mid-level code the compiler
 * emits for the function, with its basic blocks and the back edges of its control-flow graph.
 */
module LivenessExamples {
  import opened Wrappers
  import opened TypeIds
  import opened Ranges
  import opened BasicBlocks
  import opened ControlFlowGraphs
  import opened Liveness
  import Mir

  function R(n: nat): Register { Mir.VirtualRegister(n, Int32) }

  /** An instruction that writes `d` and reads nothing. */
  function Def(d: nat): DefUse { DefUse(Some(R(d)), []) }

  /**
   * The interval of a read register that is no reference-typed local is pinned by its marks: the
   * walks mark `lo` and `hi` and nothing outside them.
   */
  lemma ReadInterval(ctx: Context, refs: set<nat>, interval: LiveInterval, lo: nat, hi: nat)
    requires ctx.Valid() && IntervalOf(ctx, refs, interval) && interval.register.number !in refs
    requires UseMarked(ctx, interval.register, lo) && UseMarked(ctx, interval.register, hi)
    requires forall i: nat :: UseMarked(ctx, interval.register, i) ==> lo <= i <= hi
    ensures interval.start == lo && interval.end == hi
  {
    var reg := interval.register;
    var alive :| AliveSet(ctx, refs, reg, alive) && Summarises(alive, interval);
    var s :| UseSite(ctx, reg, s) && WalkMarks(ctx, reg, s.blockIndex, s.offset, lo);
    assert Used(ctx, reg);
    assert forall i: nat :: i in alive <==> UseMarked(ctx, reg, i);
    SummaryPinned(alive, interval, lo, hi);
  }

  /** A summary of a set holding `lo` and `hi` and nothing outside them runs from `lo` to `hi`. */
  lemma SummaryPinned(alive: set<nat>, interval: LiveInterval, lo: nat, hi: nat)
    requires Summarises(alive, interval) && lo in alive && hi in alive
    requires forall i :: i in alive ==> lo <= i <= hi
    ensures interval.start == lo && interval.end == hi
  {
  }

  /**
   * The interval of a register that is written and never read, and is no reference-typed local,
   * runs from its first write `lo` to its last `hi`.
   */
  lemma WrittenInterval(ctx: Context, refs: set<nat>, interval: LiveInterval, lo: nat, hi: nat)
    requires ctx.Valid() && IntervalOf(ctx, refs, interval) && interval.register.number !in refs
    requires !Used(ctx, interval.register)
    requires AssignedAt(ctx, interval.register, lo) && AssignedAt(ctx, interval.register, hi)
    requires forall i: nat :: AssignedAt(ctx, interval.register, i) ==> lo <= i <= hi
    ensures interval.start == lo && interval.end == hi
  {
    var alive :| AliveSet(ctx, refs, interval.register, alive) && Summarises(alive, interval);
    SummaryPinned(alive, interval, lo, hi);
  }

  /**
   * What pins the interval `expected` of its register: a read register's walks mark both its ends
   * and nothing outside them, a written-only register's writes do the same, and neither is a
   * reference-typed local.
   */
  ghost predicate Pins(ctx: Context, refs: set<nat>, expected: LiveInterval)
    requires ctx.Valid()
  {
    var reg, lo, hi := expected.register, expected.start, expected.end;
    && reg.number !in refs
    && (|| (UseMarked(ctx, reg, lo) && UseMarked(ctx, reg, hi) && forall i: nat :: UseMarked(ctx, reg, i) ==> lo <= i <= hi)
        || (!Used(ctx, reg) && AssignedAt(ctx, reg, lo) && AssignedAt(ctx, reg, hi) && forall i: nat :: AssignedAt(ctx, reg, i) ==> lo <= i <= hi))
  }

  /** Intervals of the registers of pinned intervals are those intervals. */
  lemma IntervalsPinned(ctx: Context, refs: set<nat>, intervals: seq<LiveInterval>, expected: seq<LiveInterval>)
    requires ctx.Valid() && |intervals| == |expected|
    requires forall k :: 0 <= k < |intervals| ==> intervals[k].register == expected[k].register
    requires forall k :: 0 <= k < |intervals| ==> IntervalOf(ctx, refs, intervals[k])
    requires forall k :: 0 <= k < |expected| ==> Pins(ctx, refs, expected[k])
    ensures intervals == expected
  {
    forall k | 0 <= k < |intervals| ensures intervals[k] == expected[k] {
      var x := expected[k];
      if UseMarked(ctx, x.register, x.start) && UseMarked(ctx, x.register, x.end) && forall i: nat :: UseMarked(ctx, x.register, i) ==> x.start <= i <= x.end {
        ReadInterval(ctx, refs, intervals[k], x.start, x.end);
      } else {
        WrittenInterval(ctx, refs, intervals[k], x.start, x.end);
      }
    }
  }

  /**
   * The code mentions exactly the Int32 registers numbered below `n`, and the interval of
   * register `k` is `expected[k]`, pinned by its marks or writes.
   */
  ghost predicate Pinned(ctx: Context, locals: seq<Register>, n: nat, expected: seq<LiveInterval>) {
    && ctx.Valid() && ctx.Contiguous() && |ctx.code| <= UsizeMax
    && (forall r :: Mentioned(ctx, r) <==> r.number < n && r == R(r.number))
    && |expected| == n && (forall k :: 0 <= k < n ==> expected[k].register == R(k))
    && (forall k :: 0 <= k < n ==> Pins(ctx, LocalsReferences(locals), expected[k]))
  }

  /** The registers numbered below `n`, in order. */
  function Numbered(n: nat): (rs: seq<Register>)
    ensures |rs| == n && forall i :: 0 <= i < n ==> rs[i] == R(i)
  {
    seq(n, i requires 0 <= i < n => R(i))
  }

  /** The members of `Numbered(n)` are the Int32 registers numbered below `n`. */
  lemma NumberedMembers(n: nat)
    ensures forall r :: r in Numbered(n) <==> r.number < n && r == R(r.number)
  {
    var regs := Numbered(n);
    forall r ensures r in regs <==> r.number < n && r == R(r.number) {
      if r in regs {
        var i :| 0 <= i < n && regs[i] == r;
      }
      if r.number < n && r == R(r.number) {
        assert regs[r.number] == r;
      }
    }
  }

  /**
   * `compute_liveness` on code that mentions the registers numbered below `n`, each pinned to
   * its interval in `expected`: the analysis returns exactly `expected`.
   */
  method PinnedLiveness(ctx: Context, locals: seq<Register>, n: nat, expected: seq<LiveInterval>)
    returns (intervals: seq<LiveInterval>)
    requires Pinned(ctx, locals, n, expected)
    ensures intervals == expected
  {
    intervals := ComputeLiveness(ctx, locals);
    ghost var regs := Numbered(n);
    NumberedMembers(n);
    RegistersInOrder(ctx, intervals, regs);
    IntervalsPinned(ctx, LocalsReferences(locals), intervals, expected);
  }

  /** Every index a walk for a read of `reg` marks is an instruction index. */
  lemma MarksInCode(ctx: Context, reg: Register)
    requires ctx.Valid() && ctx.Contiguous()
    ensures forall i: nat :: UseMarked(ctx, reg, i) ==> i < |ctx.code|
  {
    forall i: nat | UseMarked(ctx, reg, i) ensures i < |ctx.code| {
      UseMarkedInCode(ctx, reg, i);
    }
  }

  /** A read whose scan meets a write of the register, or whose block has no predecessor, reaches no other block. */
  lemma ReachesNothing(ctx: Context, reg: Register, b: nat, top: nat)
    requires ctx.Valid() && ctx.Entry(b, top)
    requires ctx.Preds(b) == {} || KillAt(ctx, reg, b, top).Some?
    ensures forall x :: !Reaches(ctx, reg, b, top, x)
  {
    forall path | KillFreePath(ctx, reg, path, top) ensures path[1] in ctx.Preds(path[0]) {
    }
  }

  /** A read right after a write of the register that reads nothing of it stops its scan there. */
  lemma KillRightBefore(ctx: Context, reg: Register, b: nat, top: nat)
    requires ctx.Valid() && ctx.Entry(b, top) && top >= 1
    requires reg in ctx.At(b, top).uses && Kills(ctx.At(b, top - 1), reg)
    ensures KillAt(ctx, reg, b, top) == Some(top - 1)
  {
  }

  /**
   * Registers listed once each in number order are the registers of a strictly increasing list
   * with the same members: `compute_liveness` orders its intervals this way.
   */
  lemma {:induction false} InOrder(rs: seq<Register>, regs: seq<Register>)
    requires forall r :: r in rs <==> r in regs
    requires forall i, j :: 0 <= i < j < |rs| ==> rs[i] != rs[j] && rs[i].number <= rs[j].number
    requires forall i, j :: 0 <= i < j < |regs| ==> regs[i].number < regs[j].number
    ensures rs == regs
    decreases |regs|
  {
    EmptyAlike(rs, regs);
    if |regs| != 0 {
      FirstInOrder(rs, regs);
      InOrder(rs[1..], regs[1..]);
      assert rs == [rs[0]] + rs[1..];
      assert regs == [regs[0]] + regs[1..];
    }
  }

  /** Two lists with the same members are empty together. */
  lemma EmptyAlike(rs: seq<Register>, regs: seq<Register>)
    requires forall r :: r in rs <==> r in regs
    ensures |rs| == 0 <==> |regs| == 0
  {
    if |rs| > 0 {
      assert rs[0] in regs;
    }
    if |regs| > 0 {
      assert regs[0] in rs;
    }
  }

  /** Both lists start with their least register, and their tails have the same members. */
  lemma FirstInOrder(rs: seq<Register>, regs: seq<Register>)
    requires |regs| > 0
    requires forall r :: r in rs <==> r in regs
    requires forall i, j :: 0 <= i < j < |rs| ==> rs[i] != rs[j] && rs[i].number <= rs[j].number
    requires forall i, j :: 0 <= i < j < |regs| ==> regs[i].number < regs[j].number
    ensures |rs| > 0 && rs[0] == regs[0]
    ensures forall r :: r in rs[1..] <==> r in regs[1..]
  {
    assert regs[0] in rs;
    var j :| 0 <= j < |rs| && rs[j] == regs[0];
    assert rs[0] in regs;
    var m :| 0 <= m < |regs| && regs[m] == rs[0];
    assert rs[0].number <= rs[j].number;
    assert m == 0;
    forall r ensures r in rs[1..] <==> r in regs[1..] {
      if r in rs[1..] {
        var p :| 1 <= p < |rs| && rs[p] == r;
        assert r != rs[0] && r in regs;
        var q :| 0 <= q < |regs| && regs[q] == r;
        assert q != 0 && regs[1..][q - 1] == r;
      }
      if r in regs[1..] {
        var p :| 1 <= p < |regs| && regs[p] == r;
        assert r != regs[0] && r in rs;
        var q :| 0 <= q < |rs| && rs[q] == r;
        assert q != 0 && rs[1..][q - 1] == r;
      }
    }
  }

  /**
   * The intervals `compute_liveness` returns carry, in order, the registers the code mentions
   * listed by increasing number.
   */
  lemma RegistersInOrder(ctx: Context, intervals: seq<LiveInterval>, regs: seq<Register>)
    requires ctx.Valid()
    requires forall r :: (exists k :: 0 <= k < |intervals| && intervals[k].register == r) <==> Mentioned(ctx, r)
    requires forall i, j :: 0 <= i < j < |intervals| ==>
      intervals[i].register != intervals[j].register && intervals[i].register.number <= intervals[j].register.number
    requires forall r :: Mentioned(ctx, r) <==> r in regs
    requires forall i, j :: 0 <= i < j < |regs| ==> regs[i].number < regs[j].number
    ensures |intervals| == |regs| && forall k :: 0 <= k < |regs| ==> intervals[k].register == regs[k]
  {
    var rs := Registers(intervals);
    forall r ensures r in rs <==> r in regs {
      if r in rs {
        var k :| 0 <= k < |intervals| && rs[k] == r;
        assert intervals[k].register == r;
      }
      if r in regs {
        var k :| 0 <= k < |intervals| && intervals[k].register == r;
        assert rs[k] == r;
      }
    }
    InOrder(rs, regs);
  }

  /** The registers of a list of intervals, in order. */
  function Registers(intervals: seq<LiveInterval>): (rs: seq<Register>)
    ensures |rs| == |intervals| && forall k :: 0 <= k < |rs| ==> rs[k] == intervals[k].register
  {
    seq(|intervals|, k requires 0 <= k < |intervals| => intervals[k].register)
  }

  // ---- test_liveness1: ldc 1; ldc 2; add; ldc 3; add; ldc 4; add; ldc 5; add; ret ----

  /**
   * Register 0 accumulates and register 1 holds each new operand:
   * `r0 = 1; r1 = 2; r0 = r0 + r1; r1 = 3; r0 = r0 + r1; r1 = 4; r0 = r0 + r1; r1 = 5; r0 = r0 + r1; return r0`,
   * one basic block and no edges.
   */
  function Chain(): Context {
    var add := DefUse(Some(R(0)), [R(0), R(1)]);
    Context(
      [Def(0), Def(1), add, Def(1), add, Def(1), add, Def(1), add, DefUse(None, [R(0)])],
      [BasicBlock(0, [0, 1, 2, 3, 4, 5, 6, 7, 8, 9])],
      [0],
      map[])
  }

  lemma ChainValid()
    ensures Chain().Valid() && Chain().Contiguous()
  {
  }

  lemma ChainMentioned()
    ensures Chain().Valid()
    ensures forall r :: Mentioned(Chain(), r) <==> r == R(0) || r == R(1)
  {
    var ctx := Chain();
    ChainValid();
    assert AssignSite(ctx, R(0), UsageSite(0, 0)) && AssignSite(ctx, R(1), UsageSite(0, 1));
    forall r | Mentioned(ctx, r) ensures r == R(0) || r == R(1) {
      var s :| UseSite(ctx, r, s) || AssignSite(ctx, r, s);
      ChainSiteRegister(r, s);
    }
  }

  /** Every instruction of the chain reads or writes register 0 or 1 only. */
  lemma ChainSiteRegister(r: Register, s: UsageSite)
    requires UseSite(Chain(), r, s) || AssignSite(Chain(), r, s)
    ensures r == R(0) || r == R(1)
  {
    var ctx, o := Chain(), s.offset;
    assert ctx.At(0, o) == ctx.code[o];
  }

  /** The accumulator's walks mark the first load and the return, and the code holds every mark. */
  lemma ChainAccumulatorMarks()
    ensures Chain().Valid()
    ensures UseMarked(Chain(), R(0), 0) && UseMarked(Chain(), R(0), 9)
    ensures forall i: nat :: UseMarked(Chain(), R(0), i) ==> i <= 9
  {
    ChainAccumulatorFirst();
    ChainAccumulatorLast();
    ChainValid();
    MarksInCode(Chain(), R(0));
  }

  /** The walk from the first addition marks the first load. */
  lemma ChainAccumulatorFirst()
    ensures Chain().Valid() && UseMarked(Chain(), R(0), 0)
  {
    var ctx, reg := Chain(), R(0);
    ChainValid();
    assert UseSite(ctx, reg, UsageSite(0, 2));
    assert KillAt(ctx, reg, 0, 1) == KillAt(ctx, reg, 0, 0) == Some(0);
    assert 0 in ScanAlive(ctx, reg, 0, 2);
  }

  /** The walk from the return marks the return itself. */
  lemma ChainAccumulatorLast()
    ensures Chain().Valid() && UseMarked(Chain(), R(0), 9)
  {
    var ctx, reg := Chain(), R(0);
    ChainValid();
    assert UseSite(ctx, reg, UsageSite(0, 9));
    ScanAliveBounds(ctx, reg, 0, 9);
  }

  /** The operand register's walks mark its first write and its last read, and nothing outside them. */
  lemma ChainOperandMarks()
    ensures Chain().Valid()
    ensures UseMarked(Chain(), R(1), 1) && UseMarked(Chain(), R(1), 8)
    ensures forall i: nat :: UseMarked(Chain(), R(1), i) ==> 1 <= i <= 8
  {
    ChainOperandFirst();
    ChainOperandLast();
    forall i | UseMarked(Chain(), R(1), i) ensures 1 <= i <= 8 {
      ChainOperandMark(i);
    }
  }

  /** The walk from the first addition marks the load before it. */
  lemma ChainOperandFirst()
    ensures Chain().Valid() && UseMarked(Chain(), R(1), 1)
  {
    var ctx, reg := Chain(), R(1);
    ChainValid();
    assert UseSite(ctx, reg, UsageSite(0, 2));
    KillRightBefore(ctx, reg, 0, 2);
    ScanAliveBounds(ctx, reg, 0, 2);
  }

  /** The walk from the last addition marks that addition. */
  lemma ChainOperandLast()
    ensures Chain().Valid() && UseMarked(Chain(), R(1), 8)
  {
    var ctx, reg := Chain(), R(1);
    ChainValid();
    assert UseSite(ctx, reg, UsageSite(0, 8));
    ScanAliveBounds(ctx, reg, 0, 8);
  }

  /** Each read of the operand register comes right after its write, so its walk marks the two of them only. */
  lemma ChainOperandMark(i: nat)
    requires Chain().Valid() && UseMarked(Chain(), R(1), i)
    ensures 1 <= i <= 8
  {
    var ctx, reg := Chain(), R(1);
    var s :| UseSite(ctx, reg, s) && WalkMarks(ctx, reg, s.blockIndex, s.offset, i);
    ChainOperandReads(s);
    KillRightBefore(ctx, reg, 0, s.offset);
    ReachesNothing(ctx, reg, 0, s.offset);
    ScanAliveBounds(ctx, reg, 0, s.offset);
  }

  /** The operand register is read by the four additions, each right after the load that writes it. */
  lemma ChainOperandReads(s: UsageSite)
    requires Chain().Valid() && UseSite(Chain(), R(1), s)
    ensures s.blockIndex == 0 && 2 <= s.offset <= 8 && Kills(Chain().At(0, s.offset - 1), R(1))
  {
    var ctx, o := Chain(), s.offset;
    assert ctx.At(0, o) == ctx.code[o];
    assert o == 2 || o == 4 || o == 6 || o == 8;
    assert ctx.At(0, o - 1) == ctx.code[o - 1];
  }

  function ChainIntervals(): seq<LiveInterval> {
    [LiveInterval(0, 9, R(0)), LiveInterval(1, 8, R(1))]
  }

  /** The `k`-th interval is pinned by the marks of its register. */
  lemma ChainPin(k: nat)
    requires k < |ChainIntervals()|
    ensures Chain().Valid() && Pins(Chain(), LocalsReferences([]), ChainIntervals()[k])
  {
    var refs := LocalsReferences([]);
    assert 0 !in refs && 1 !in refs;
    if k == 0 {
      ChainAccumulatorMarks();
    } else {
      ChainOperandMarks();
    }
  }

  /** `test_liveness1`: two intervals, 0..9 for the accumulator and 1..8 for the operand register. */
  method ChainLiveness() returns (intervals: seq<LiveInterval>)
    ensures intervals == ChainIntervals()
  {
    ChainPinned();
    intervals := PinnedLiveness(Chain(), [], 2, ChainIntervals());
  }

  /** The function's registers and the pins of their intervals. */
  lemma ChainPinned()
    ensures Pinned(Chain(), [], 2, ChainIntervals())
  {
    ChainValid();
    ChainRegisters();
    ChainPins();
  }

  /** The function mentions registers 0 and 1. */
  lemma ChainRegisters()
    ensures forall r :: Mentioned(Chain(), r) <==> r.number < 2 && r == R(r.number)
  {
    ChainMentioned();
  }

  /** Each interval is pinned by its register's marks. */
  lemma ChainPins()
    ensures Chain().Valid()
    ensures forall k :: 0 <= k < |ChainIntervals()| ==> Pins(Chain(), LocalsReferences([]), ChainIntervals()[k])
  {
    ChainValid();
    forall k | 0 <= k < |ChainIntervals()| ensures Pins(Chain(), LocalsReferences([]), ChainIntervals()[k]) {
      ChainPin(k);
    }
  }


  // ---- test_liveness2: ldc 1; ldc 2; add; stloc 0; ldc 3; ret, with one Int32 local ----

  /**
   * Register 0 is the local, written by the store and never read:
   * `r1 = 1; r2 = 2; r1 = r1 + r2; r0 = r1; r1 = 3; return r1`, one basic block and no edges.
   */
  function Stored(): Context {
    Context(
      [Def(1), Def(2), DefUse(Some(R(1)), [R(1), R(2)]), DefUse(Some(R(0)), [R(1)]), Def(1), DefUse(None, [R(1)])],
      [BasicBlock(0, [0, 1, 2, 3, 4, 5])],
      [0],
      map[])
  }

  lemma StoredValid()
    ensures Stored().Valid() && Stored().Contiguous()
  {
  }

  lemma StoredMentioned()
    ensures Stored().Valid()
    ensures forall r :: Mentioned(Stored(), r) <==> r == R(0) || r == R(1) || r == R(2)
  {
    var ctx := Stored();
    StoredValid();
    assert AssignSite(ctx, R(0), UsageSite(0, 3)) && AssignSite(ctx, R(1), UsageSite(0, 0)) && AssignSite(ctx, R(2), UsageSite(0, 1));
    forall r | Mentioned(ctx, r) ensures r == R(0) || r == R(1) || r == R(2) {
      var s :| UseSite(ctx, r, s) || AssignSite(ctx, r, s);
      StoredSiteRegister(r, s);
    }
  }

  /** Every instruction of the function reads or writes registers 0, 1 and 2 only. */
  lemma StoredSiteRegister(r: Register, s: UsageSite)
    requires UseSite(Stored(), r, s) || AssignSite(Stored(), r, s)
    ensures r == R(0) || r == R(1) || r == R(2)
  {
    var ctx, o := Stored(), s.offset;
    assert ctx.At(0, o) == ctx.code[o];
  }

  /** The local is written once, by the store, and read nowhere. */
  lemma StoredLocalWrites()
    ensures Stored().Valid()
    ensures !Used(Stored(), R(0)) && AssignedAt(Stored(), R(0), 3)
    ensures forall i: nat :: AssignedAt(Stored(), R(0), i) ==> i == 3
  {
    var ctx, reg := Stored(), R(0);
    StoredValid();
    forall s | Site(ctx, s) ensures reg !in ctx.At(s.blockIndex, s.offset).uses {
      StoredLocalSite(s);
    }
    assert AssignSite(ctx, reg, UsageSite(0, 3));
    forall i | AssignedAt(ctx, reg, i) ensures i == 3 {
      var s :| AssignSite(ctx, reg, s) && Position(ctx, s) == i;
      StoredLocalSite(s);
    }
  }

  /** Only the store at offset 3 mentions the local, and it writes it. */
  lemma StoredLocalSite(s: UsageSite)
    requires Stored().Valid() && Site(Stored(), s)
    ensures R(0) !in Stored().At(s.blockIndex, s.offset).uses
    ensures Stored().At(s.blockIndex, s.offset).assign == Some(R(0)) ==> s.offset == 3 && Position(Stored(), s) == 3
  {
    var ctx := Stored();
    assert ctx.At(0, s.offset) == ctx.code[s.offset];
  }

  /** The sum's register is marked from the first load to the return, and the code holds every mark. */
  lemma StoredSumMarks()
    ensures Stored().Valid()
    ensures UseMarked(Stored(), R(1), 0) && UseMarked(Stored(), R(1), 5)
    ensures forall i: nat :: UseMarked(Stored(), R(1), i) ==> i <= 5
  {
    StoredSumFirst();
    StoredSumLast();
    StoredValid();
    MarksInCode(Stored(), R(1));
  }

  /** The walk from the addition marks the first load. */
  lemma StoredSumFirst()
    ensures Stored().Valid() && UseMarked(Stored(), R(1), 0)
  {
    var ctx, reg := Stored(), R(1);
    StoredValid();
    assert UseSite(ctx, reg, UsageSite(0, 2));
    assert KillAt(ctx, reg, 0, 1) == KillAt(ctx, reg, 0, 0) == Some(0);
    assert 0 in ScanAlive(ctx, reg, 0, 2);
  }

  /** The walk from the return marks the return itself. */
  lemma StoredSumLast()
    ensures Stored().Valid() && UseMarked(Stored(), R(1), 5)
  {
    var ctx, reg := Stored(), R(1);
    StoredValid();
    assert UseSite(ctx, reg, UsageSite(0, 5));
    ScanAliveBounds(ctx, reg, 0, 5);
  }

  /** The second operand is read once, by the addition right after its load. */
  lemma StoredOperandMarks()
    ensures Stored().Valid()
    ensures UseMarked(Stored(), R(2), 1) && UseMarked(Stored(), R(2), 2)
    ensures forall i: nat :: UseMarked(Stored(), R(2), i) ==> 1 <= i <= 2
  {
    var ctx, reg := Stored(), R(2);
    StoredValid();
    assert UseSite(ctx, reg, UsageSite(0, 2));
    KillRightBefore(ctx, reg, 0, 2);
    ScanAliveBounds(ctx, reg, 0, 2);
    ReachesNothing(ctx, reg, 0, 2);
    forall i | UseMarked(ctx, reg, i) ensures 1 <= i <= 2 {
      StoredOperandMark(i);
    }
  }

  lemma StoredOperandMark(i: nat)
    requires Stored().Valid() && UseMarked(Stored(), R(2), i)
    requires forall x :: !Reaches(Stored(), R(2), 0, 2, x)
    requires forall x :: x in ScanAlive(Stored(), R(2), 0, 2) ==> 1 <= x <= 2
    ensures 1 <= i <= 2
  {
    var ctx, reg := Stored(), R(2);
    var s :| UseSite(ctx, reg, s) && WalkMarks(ctx, reg, s.blockIndex, s.offset, i);
    StoredReads(reg, s);
  }

  /** The reads of the code: the addition reads registers 1 and 2, the store and the return register 1. */
  lemma StoredReads(r: Register, s: UsageSite)
    requires Stored().Valid() && UseSite(Stored(), r, s)
    ensures || (r == R(1) && s in {UsageSite(0, 2), UsageSite(0, 3), UsageSite(0, 5)})
            || (r == R(2) && s == UsageSite(0, 2))
  {
    var ctx, o := Stored(), s.offset;
    assert ctx.At(0, o) == ctx.code[o];
  }

  function StoredIntervals(): seq<LiveInterval> {
    [LiveInterval(3, 3, R(0)), LiveInterval(0, 5, R(1)), LiveInterval(1, 2, R(2))]
  }

  /** The `k`-th interval is pinned by the marks of its register. */
  lemma StoredPin(k: nat)
    requires k < |StoredIntervals()|
    ensures Stored().Valid() && Pins(Stored(), LocalsReferences([R(0)]), StoredIntervals()[k])
  {
    var refs := LocalsReferences([R(0)]);
    assert 0 !in refs && 1 !in refs && 2 !in refs;
    if k == 0 {
      StoredLocalWrites();
    } else if k == 1 {
      StoredSumMarks();
    } else {
      StoredOperandMarks();
    }
  }

  /** `test_liveness2`: three intervals, 3..3 for the local, 0..5 and 1..2 for the stack registers. */
  method StoredLiveness() returns (intervals: seq<LiveInterval>)
    ensures intervals == StoredIntervals()
  {
    StoredPinned();
    intervals := PinnedLiveness(Stored(), [R(0)], 3, StoredIntervals());
  }

  /** The function's registers and the pins of their intervals. */
  lemma StoredPinned()
    ensures Pinned(Stored(), [R(0)], 3, StoredIntervals())
  {
    StoredValid();
    StoredRegisters();
    StoredPins();
  }

  /** The function mentions registers 0, 1 and 2. */
  lemma StoredRegisters()
    ensures forall r :: Mentioned(Stored(), r) <==> r.number < 3 && r == R(r.number)
  {
    StoredMentioned();
  }

  /** Each interval is pinned by its register's marks. */
  lemma StoredPins()
    ensures Stored().Valid()
    ensures forall k :: 0 <= k < |StoredIntervals()| ==> Pins(Stored(), LocalsReferences([R(0)]), StoredIntervals()[k])
  {
    StoredValid();
    forall k | 0 <= k < |StoredIntervals()| ensures Pins(Stored(), LocalsReferences([R(0)]), StoredIntervals()[k]) {
      StoredPin(k);
    }
  }


  // ---- test_liveness3: a local stored on both arms of a branch and loaded where they join ----

  /**
   * `r1 = 1; r2 = 2; if r1 != r2 goto L6;` then `r1 = 1337; r0 = r1; goto L8;`, then
   * `L6: r1 = 4711; r0 = r1;`, then `L8: r1 = r0; return r1`, with one Int32 local in register 0.
   * Four blocks: the first enters the second and the third, and both enter the fourth.
   */
  function Branches(): Context {
    var none := DefUse(None, []);
    Context(
      [Def(1), Def(2), DefUse(None, [R(1), R(2)]),
       Def(1), DefUse(Some(R(0)), [R(1)]), none,
       none, Def(1), DefUse(Some(R(0)), [R(1)]),
       none, DefUse(Some(R(1)), [R(0)]), DefUse(None, [R(1)])],
      [BasicBlock(0, [0, 1, 2]), BasicBlock(3, [3, 4, 5]), BasicBlock(6, [6, 7, 8]), BasicBlock(9, [9, 10, 11])],
      [0, 1, 2, 3],
      map[1 := {Edge(1, 0)}, 2 := {Edge(2, 0)}, 3 := {Edge(3, 1), Edge(3, 2)}])
  }

  lemma BranchesValid()
    ensures Branches().Valid() && Branches().Contiguous()
  {
  }

  /** The reads of the code: the branch reads registers 1 and 2, the stores register 1, the join's load the local, the return register 1. */
  lemma BranchesReads(r: Register, s: UsageSite)
    requires Branches().Valid() && UseSite(Branches(), r, s)
    ensures || (r == R(0) && s == UsageSite(3, 1))
            || (r == R(1) && s in {UsageSite(0, 2), UsageSite(1, 1), UsageSite(2, 2), UsageSite(3, 2)})
            || (r == R(2) && s == UsageSite(0, 2))
  {
    var ctx, b, o := Branches(), s.blockIndex, s.offset;
    if b == 0 {
      assert ctx.At(b, o) == ctx.code[o];
    } else if b == 1 {
      assert ctx.At(b, o) == ctx.code[3 + o];
    } else if b == 2 {
      assert ctx.At(b, o) == ctx.code[6 + o];
    } else {
      assert ctx.At(b, o) == ctx.code[9 + o];
    }
  }

  /** The writes of the code: the loads write registers 1 and 2, the stores the local, the join's load register 1. */
  lemma BranchesWrites(r: Register, s: UsageSite)
    requires Branches().Valid() && AssignSite(Branches(), r, s)
    ensures r == R(0) || r == R(1) || r == R(2)
  {
    var ctx, b, o := Branches(), s.blockIndex, s.offset;
    if b == 0 {
      assert ctx.At(b, o) == ctx.code[o];
    } else if b == 1 {
      assert ctx.At(b, o) == ctx.code[3 + o];
    } else if b == 2 {
      assert ctx.At(b, o) == ctx.code[6 + o];
    } else {
      assert ctx.At(b, o) == ctx.code[9 + o];
    }
  }

  lemma BranchesMentioned()
    ensures Branches().Valid()
    ensures forall r :: Mentioned(Branches(), r) <==> r == R(0) || r == R(1) || r == R(2)
  {
    var ctx := Branches();
    BranchesValid();
    assert AssignSite(ctx, R(0), UsageSite(1, 1)) && AssignSite(ctx, R(1), UsageSite(0, 0)) && AssignSite(ctx, R(2), UsageSite(0, 1));
    forall r | Mentioned(ctx, r) ensures r == R(0) || r == R(1) || r == R(2) {
      var s :| UseSite(ctx, r, s) || AssignSite(ctx, r, s);
      if UseSite(ctx, r, s) {
        BranchesReads(r, s);
      } else {
        BranchesWrites(r, s);
      }
    }
  }

  /**
   * The local's only read, at the join, is reached backwards from both arms, and each arm's store
   * stops the walk there: the walk marks the first arm from its store on and the join's load.
   */
  lemma BranchesLocalMarks()
    ensures Branches().Valid()
    ensures UseMarked(Branches(), R(0), 4) && UseMarked(Branches(), R(0), 10)
    ensures forall i: nat :: UseMarked(Branches(), R(0), i) ==> 4 <= i <= 10
  {
    var ctx, reg := Branches(), R(0);
    BranchesValid();
    var read := UsageSite(3, 1);
    assert UseSite(ctx, reg, read);
    BranchesLocalPath();
    BranchesLocalScan();
    ScanAliveBounds(ctx, reg, 3, 1);
    forall i | UseMarked(ctx, reg, i) ensures 4 <= i <= 10 {
      BranchesLocalMark(i);
    }
  }

  /** The read after the join reaches the first arm, past the join's block that does not write the local. */
  lemma BranchesLocalPath()
    ensures Branches().Valid() && Reaches(Branches(), R(0), 3, 1, 1)
  {
    var ctx, reg := Branches(), R(0);
    BranchesValid();
    assert KillAt(ctx, reg, 3, 0) == None;
    assert KillAt(ctx, reg, 3, 1) == None;
    assert KillFreePath(ctx, reg, [3, 1], 1);
  }

  /** The scan of the first arm from its end stops at the arm's store, offset 4. */
  lemma BranchesLocalScan()
    ensures Branches().Valid() && 4 in ScanAlive(Branches(), R(0), 1, Branches().LastOffset(1))
  {
    var ctx, reg := Branches(), R(0);
    BranchesValid();
    assert KillAt(ctx, reg, 1, 2) == Some(1);
  }

  /** Every index the walk from the local's read marks lies between the first arm's store and the join's load. */
  lemma BranchesLocalMark(i: nat)
    requires Branches().Valid() && UseMarked(Branches(), R(0), i)
    ensures 4 <= i <= 10
  {
    var ctx, reg := Branches(), R(0);
    var s :| UseSite(ctx, reg, s) && WalkMarks(ctx, reg, s.blockIndex, s.offset, i);
    BranchesReads(reg, s);
    BranchesLocalWalk(i);
  }

  /** The walk from the read after the join marks the join's block and the arms' stores only. */
  lemma BranchesLocalWalk(i: nat)
    requires Branches().Valid() && Branches().Entry(3, 1) && WalkMarks(Branches(), R(0), 3, 1, i)
    ensures 4 <= i <= 10
  {
    var ctx, reg := Branches(), R(0);
    if i in ScanAlive(ctx, reg, 3, 1) {
      ScanAliveBounds(ctx, reg, 3, 1);
    } else {
      var x: nat :| x < |ctx.blocks| && Reaches(ctx, reg, 3, 1, x) && i in ScanAlive(ctx, reg, x, ctx.LastOffset(x));
      BranchesArmsStop();
      if x == 1 {
        assert i in ScanAlive(ctx, reg, 1, 2);
      } else {
        assert i in ScanAlive(ctx, reg, 2, 2);
      }
    }
  }

  /** Both arms store the local, so a walk from the join enters one arm and stops there. */
  lemma BranchesArmsStop()
    ensures Branches().Valid()
    ensures forall x :: Reaches(Branches(), R(0), 3, 1, x) ==> x == 1 || x == 2
    ensures Branches().LastOffset(1) == 2 && Branches().LastOffset(2) == 2
    ensures forall i :: i in ScanAlive(Branches(), R(0), 1, 2) ==> 4 <= i <= 5
    ensures forall i :: i in ScanAlive(Branches(), R(0), 2, 2) ==> i == 8
  {
    var ctx, reg := Branches(), R(0);
    BranchesValid();
    assert KillAt(ctx, reg, 1, 2) == Some(1);
    assert KillAt(ctx, reg, 2, 2) == Some(2);
    forall path | KillFreePath(ctx, reg, path, 1) && path[0] == 3 ensures path[|path| - 1] in {1, 2} {
      assert path[1] in ctx.Preds(3);
    }
  }

  /** Register 1 is marked from the first load to the return, and the code holds every mark. */
  lemma BranchesStackMarks()
    ensures Branches().Valid()
    ensures UseMarked(Branches(), R(1), 0) && UseMarked(Branches(), R(1), 11)
    ensures forall i: nat :: UseMarked(Branches(), R(1), i) ==> i <= 11
  {
    BranchesStackFirst();
    BranchesStackLast();
    BranchesValid();
    MarksInCode(Branches(), R(1));
  }

  /** The walk from the return marks the return itself. */
  lemma BranchesStackLast()
    ensures Branches().Valid() && UseMarked(Branches(), R(1), 11)
  {
    var ctx, reg := Branches(), R(1);
    BranchesValid();
    assert UseSite(ctx, reg, UsageSite(3, 2));
    ScanAliveBounds(ctx, reg, 3, 2);
  }

  /** The walk from the comparison marks the first load of the stack register. */
  lemma BranchesStackFirst()
    ensures Branches().Valid() && UseMarked(Branches(), R(1), 0)
  {
    var ctx, reg := Branches(), R(1);
    BranchesValid();
    assert UseSite(ctx, reg, UsageSite(0, 2));
    assert KillAt(ctx, reg, 0, 1) == KillAt(ctx, reg, 0, 0) == Some(0);
    assert 0 in ScanAlive(ctx, reg, 0, 2);
  }

  /** The compared second operand is read once, by the branch right after its load. */
  lemma BranchesOperandMarks()
    ensures Branches().Valid()
    ensures UseMarked(Branches(), R(2), 1) && UseMarked(Branches(), R(2), 2)
    ensures forall i: nat :: UseMarked(Branches(), R(2), i) ==> 1 <= i <= 2
  {
    var ctx, reg := Branches(), R(2);
    BranchesValid();
    assert UseSite(ctx, reg, UsageSite(0, 2));
    KillRightBefore(ctx, reg, 0, 2);
    ScanAliveBounds(ctx, reg, 0, 2);
    ReachesNothing(ctx, reg, 0, 2);
    forall i | UseMarked(ctx, reg, i) ensures 1 <= i <= 2 {
      var s :| UseSite(ctx, reg, s) && WalkMarks(ctx, reg, s.blockIndex, s.offset, i);
      BranchesReads(reg, s);
    }
  }

  function BranchesIntervals(): seq<LiveInterval> {
    [LiveInterval(4, 10, R(0)), LiveInterval(0, 11, R(1)), LiveInterval(1, 2, R(2))]
  }

  /** The `k`-th interval is pinned by the marks of its register. */
  lemma BranchesPin(k: nat)
    requires k < |BranchesIntervals()|
    ensures Branches().Valid() && Pins(Branches(), LocalsReferences([R(0)]), BranchesIntervals()[k])
  {
    var refs := LocalsReferences([R(0)]);
    assert 0 !in refs && 1 !in refs && 2 !in refs;
    if k == 0 {
      BranchesLocalMarks();
    } else if k == 1 {
      BranchesStackMarks();
    } else {
      BranchesOperandMarks();
    }
  }

  /** `test_liveness3`: three intervals, 4..10 for the local, 0..11 and 1..2 for the stack registers. */
  method BranchesLiveness() returns (intervals: seq<LiveInterval>)
    ensures intervals == BranchesIntervals()
  {
    BranchesPinned();
    intervals := PinnedLiveness(Branches(), [R(0)], 3, BranchesIntervals());
  }

  /** The function's registers and the pins of their intervals. */
  lemma BranchesPinned()
    ensures Pinned(Branches(), [R(0)], 3, BranchesIntervals())
  {
    BranchesValid();
    BranchesRegisters();
    BranchesPins();
  }

  /** The function mentions registers 0, 1 and 2. */
  lemma BranchesRegisters()
    ensures forall r :: Mentioned(Branches(), r) <==> r.number < 3 && r == R(r.number)
  {
    BranchesMentioned();
  }

  /** Each interval is pinned by its register's marks. */
  lemma BranchesPins()
    ensures Branches().Valid()
    ensures forall k :: 0 <= k < |BranchesIntervals()| ==> Pins(Branches(), LocalsReferences([R(0)]), BranchesIntervals()[k])
  {
    BranchesValid();
    forall k | 0 <= k < |BranchesIntervals()| ensures Pins(Branches(), LocalsReferences([R(0)]), BranchesIntervals()[k]) {
      BranchesPin(k);
    }
  }

}
