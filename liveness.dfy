/**
 * Liveness of the MIR's virtual registers: for every register, the instruction indices at which its
 * value may still be needed, found by walking backwards from each read through the basic blocks
 * and the control-flow graph's back edges, and summarised as one interval per register.
 */
module Liveness {
  import opened Wrappers
  import opened Ranges
  import opened BasicBlocks
  import opened ControlFlowGraphs
  import Mir

  type Register = Mir.VirtualRegister

  /** What the analysis reads of an instruction: the register it writes and the registers it reads. */
  datatype DefUse = DefUse(assign: Option<Register>, uses: seq<Register>)

  function MirDefUse(i: Mir.InstructionMir): DefUse {
    DefUse(i.data.AssignVirtualRegister(), i.data.UseVirtualRegisters())
  }

  /** The first and last instruction index at which a register is alive. */
  datatype LiveInterval = LiveInterval(start: nat, end: nat, register: Register)

  /** `usize::max_value()` on a 64-bit target: the start of the interval of a register alive nowhere. */
  const UsizeMax: nat := 0xFFFF_FFFF_FFFF_FFFF

  /** A block and an offset inside it. */
  datatype UsageSite = UsageSite(blockIndex: nat, offset: nat)

  /**
   * What the analysis works on: the def/use of every instruction, the basic blocks, the graph's
   * vertices and its back edges (an edge kept under block `b` whose `to` is a predecessor of `b`).
   */
  datatype Context = Context(code: seq<DefUse>, blocks: seq<BasicBlock>, vertices: seq<nat>, backEdges: map<nat, set<Edge>>)
  {
    /** The indexing the source does without checks stays in bounds, and every block has an instruction. */
    ghost predicate Valid() {
      && (forall b :: 0 <= b < |blocks| ==> |blocks[b].instructions| > 0)
      && (forall b, i :: 0 <= b < |blocks| && 0 <= i < |blocks[b].instructions| ==> blocks[b].instructions[i] < |code|)
      && (forall x, e :: x in backEdges && e in backEdges[x] ==> e.to < |blocks|)
      && (forall v :: 0 <= v < |vertices| ==> vertices[v] < |blocks|)
    }

    /** Every block's indices `startOffset + i` name instructions of the function. */
    ghost predicate Contiguous() {
      forall b :: 0 <= b < |blocks| ==> blocks[b].startOffset + |blocks[b].instructions| <= |code|
    }

    ghost predicate Entry(b: nat, top: nat) {
      b < |blocks| && top < |blocks[b].instructions|
    }

    function At(b: nat, i: nat): DefUse
      requires Valid() && Entry(b, i)
    {
      code[blocks[b].instructions[i]]
    }

    /** The blocks reached by following the back edges of `b`. */
    function Preds(b: nat): set<nat> {
      if b in backEdges then set e | e in backEdges[b] :: e.to else {}
    }

    function LastOffset(x: nat): nat
      requires Valid() && x < |blocks|
    {
      |blocks[x].instructions| - 1
    }

    /** The offset at which a backwards walk that enters `x` starts: `top` in the block of the use, the last instruction elsewhere. */
    function TopOf(b: nat, top: nat, x: nat): nat
      requires Valid() && x < |blocks|
    {
      if x == b then top else |blocks[x].instructions| - 1
    }
  }

  /** The instruction writes the register without reading it: the value before it is dead. */
  predicate Kills(d: DefUse, reg: Register) {
    d.assign == Some(reg) && reg !in d.uses
  }

  /** The highest offset at or below `top` in block `b` whose instruction kills the register, if any. */
  function KillAt(ctx: Context, reg: Register, b: nat, top: nat): Option<nat>
    requires ctx.Valid() && ctx.Entry(b, top)
  {
    if Kills(ctx.At(b, top), reg) then Some(top)
    else if top == 0 then None
    else KillAt(ctx, reg, b, top - 1)
  }

  /** The indices a backwards scan of block `b` from `top` marks alive: down to the kill, or to the block start. */
  function ScanAlive(ctx: Context, reg: Register, b: nat, top: nat): set<nat>
    requires ctx.Valid() && ctx.Entry(b, top)
  {
    var start := ctx.blocks[b].startOffset;
    var low := if KillAt(ctx, reg, b, top).Some? then KillAt(ctx, reg, b, top).value else 0;
    Span(start + low, start + top + 1)
  }

  /** The kill found is the highest one at or below `top`, and no kill means none at all down to offset 0. */
  lemma {:induction false} KillAtMeaning(ctx: Context, reg: Register, b: nat, top: nat)
    requires ctx.Valid() && ctx.Entry(b, top)
    ensures KillAt(ctx, reg, b, top).Some? ==>
      var p := KillAt(ctx, reg, b, top).value;
      && p <= top
      && Kills(ctx.At(b, p), reg)
      && forall q :: p < q <= top ==> !Kills(ctx.At(b, q), reg)
    ensures KillAt(ctx, reg, b, top).None? ==> forall q :: 0 <= q <= top ==> !Kills(ctx.At(b, q), reg)
  {
    if !Kills(ctx.At(b, top), reg) && top > 0 {
      KillAtMeaning(ctx, reg, b, top - 1);
    }
  }

  /** With no kill above `q`, the scan from `top` finds the kill the scan from `q` finds. */
  lemma {:induction false} KillAtBelow(ctx: Context, reg: Register, b: nat, q: nat, top: nat)
    requires ctx.Valid() && ctx.Entry(b, top) && q <= top
    requires forall p :: q < p <= top ==> !Kills(ctx.At(b, p), reg)
    ensures KillAt(ctx, reg, b, top) == KillAt(ctx, reg, b, q)
    decreases top - q
  {
    if q < top {
      KillAtBelow(ctx, reg, b, q, top - 1);
    }
  }

  /** The scan always marks the starting instruction, and nothing outside the block's index range. */
  lemma ScanAliveBounds(ctx: Context, reg: Register, b: nat, top: nat)
    requires ctx.Valid() && ctx.Entry(b, top)
    ensures ctx.blocks[b].startOffset + top in ScanAlive(ctx, reg, b, top)
    ensures forall x :: x in ScanAlive(ctx, reg, b, top) ==> ctx.blocks[b].startOffset <= x <= ctx.blocks[b].startOffset + top
  {
    KillAtMeaning(ctx, reg, b, top);
  }

  /** The loop over `(0..start_offset + 1).rev()`: marks offsets downwards and stops at the first kill. */
  method ScanBlock(ctx: Context, reg: Register, b: nat, top: nat, alive: set<nat>) returns (alive': set<nat>, terminated: bool)
    requires ctx.Valid() && ctx.Entry(b, top)
    ensures alive' == alive + ScanAlive(ctx, reg, b, top)
    ensures terminated <==> KillAt(ctx, reg, b, top).Some?
  {
    var start := ctx.blocks[b].startOffset;
    alive' := alive;
    terminated := false;
    var j := top + 1;
    while j > 0
      invariant 0 <= j <= top + 1
      invariant forall p :: j <= p <= top ==> !Kills(ctx.At(b, p), reg)
      invariant alive' == alive + Span(start + j, start + top + 1)
    {
      var p := j - 1;
      var instruction := ctx.code[ctx.blocks[b].instructions[p]];
      if instruction.assign.Some? && instruction.assign.value == reg && reg !in instruction.uses {
        alive' := alive' + {start + p};
        terminated := true;
        KillAtBelow(ctx, reg, b, p, top);
        assert alive' == alive + Span(start + p, start + top + 1);
        return;
      }
      alive' := alive' + {p + start};
      j := p;
    }
    KillAtBelow(ctx, reg, b, 0, top);
    KillAtMeaning(ctx, reg, b, 0);
  }

  /** Block `x`, entered at offset `t`, has its scan in `alive` and, unless the scan hit a kill, its predecessors in `visited`. */
  ghost predicate ClosedBlock(ctx: Context, reg: Register, x: nat, t: nat, visited: set<nat>, alive: set<nat>)
    requires ctx.Valid() && ctx.Entry(x, t)
  {
    && ScanAlive(ctx, reg, x, t) <= alive
    && (KillAt(ctx, reg, x, t).None? ==> ctx.Preds(x) <= visited)
  }

  ghost predicate InBlocks(ctx: Context, visited: set<nat>) {
    forall x :: x in visited ==> x < |ctx.blocks|
  }

  /** Every block the walk from `b` (at `top`) newly visited is closed. */
  ghost predicate Closed(ctx: Context, reg: Register, b: nat, top: nat, visited0: set<nat>, visited: set<nat>, alive: set<nat>)
    requires ctx.Valid() && ctx.Entry(b, top)
  {
    forall x :: x in visited && x !in visited0 && x < |ctx.blocks| ==> ClosedBlock(ctx, reg, x, ctx.TopOf(b, top, x), visited, alive)
  }

  /** Every index the walk newly marked alive lies in the scan of a block it newly visited. */
  ghost predicate Covered(ctx: Context, reg: Register, b: nat, top: nat, visited0: set<nat>, visited: set<nat>, alive0: set<nat>, alive: set<nat>)
    requires ctx.Valid() && ctx.Entry(b, top)
  {
    forall i :: i in alive && i !in alive0 ==>
      exists x :: x in visited && x !in visited0 && x < |ctx.blocks| && i in ScanAlive(ctx, reg, x, ctx.TopOf(b, top, x))
  }

  /** Block `x` lies at the end of a kill-free backward path from the read at `top` of block `b`. */
  ghost predicate Reaches(ctx: Context, reg: Register, b: nat, top: nat, x: nat)
    requires ctx.Valid()
  {
    exists path: seq<nat> :: KillFreePath(ctx, reg, path, top) && path[0] == b && path[|path| - 1] == x
  }

  /** Every block the walk from `b` (at `top`) newly visited, other than `b`, is reached from `b` by a kill-free path. */
  ghost predicate Traced(ctx: Context, reg: Register, b: nat, top: nat, visited0: set<nat>, visited: set<nat>)
    requires ctx.Valid()
  {
    forall x :: x in visited && x !in visited0 && x != b ==> Reaches(ctx, reg, b, top, x)
  }

  function AllBlocks(ctx: Context): set<nat> {
    Span(0, |ctx.blocks|)
  }

  /**
   * `compute_liveness_for_register_in_block`: scans block `b` backwards from `top` and, when no kill
   * stops the scan, walks into every predecessor from its last instruction; a visited block is
   * never scanned twice.
   */
  method WalkBlock(ctx: Context, reg: Register, b: nat, top: nat, visited: set<nat>, alive: set<nat>)
    returns (visited': set<nat>, alive': set<nat>)
    requires ctx.Valid() && ctx.Entry(b, top) && InBlocks(ctx, visited)
    ensures visited <= visited' && alive <= alive' && b in visited' && InBlocks(ctx, visited')
    ensures b in visited ==> visited' == visited && alive' == alive
    ensures Closed(ctx, reg, b, top, visited, visited', alive')
    ensures Covered(ctx, reg, b, top, visited, visited', alive, alive')
    ensures Traced(ctx, reg, b, top, visited, visited')
    decreases AllBlocks(ctx) - visited
  {
    if b in visited {
      return visited, alive;
    }
    visited' := visited + {b};
    var terminated;
    alive', terminated := ScanBlock(ctx, reg, b, top, alive);
    if !terminated && b in ctx.backEdges {
      var remaining := ctx.backEdges[b];
      ghost var done: set<Edge> := {};
      while remaining != {}
        invariant remaining + done == ctx.backEdges[b]
        invariant visited + {b} <= visited' && InBlocks(ctx, visited')
        invariant alive + ScanAlive(ctx, reg, b, top) <= alive'
        invariant forall e :: e in done ==> e.to in visited'
        invariant forall x :: x in visited' && x !in visited && x != b ==>
          ClosedBlock(ctx, reg, x, ctx.TopOf(b, top, x), visited', alive')
        invariant Covered(ctx, reg, b, top, visited, visited', alive, alive')
        invariant Traced(ctx, reg, b, top, visited, visited')
        decreases remaining
      {
        var edge :| edge in remaining;
        remaining := remaining - {edge};
        done := done + {edge};
        ghost var visitedBefore, aliveBefore := visited', alive';
        var to := edge.to;
        visited', alive' := WalkBlock(ctx, reg, to, |ctx.blocks[to].instructions| - 1, visited', alive');
        assert to in ctx.Preds(b);
        WalkStepClosed(ctx, reg, b, top, to, visited, visitedBefore, visited', aliveBefore, alive');
        WalkStepCovered(ctx, reg, b, top, to, visited, visitedBefore, visited', alive, aliveBefore, alive');
        WalkStepTraced(ctx, reg, b, top, to, visited, visitedBefore, visited');
      }
      assert ctx.Preds(b) <= visited' by {
        forall p | p in ctx.Preds(b) ensures p in visited' {
          var e :| e in ctx.backEdges[b] && e.to == p;
        }
      }
    }
  }

  /** One recursive call inside the edge loop keeps every block other than `b` closed. */
  lemma WalkStepClosed(ctx: Context, reg: Register, b: nat, top: nat, to: nat,
                       visited0: set<nat>, visited1: set<nat>, visited2: set<nat>, alive1: set<nat>, alive2: set<nat>)
    requires ctx.Valid() && ctx.Entry(b, top) && to < |ctx.blocks| && InBlocks(ctx, visited2)
    requires visited0 + {b} <= visited1 <= visited2 && alive1 <= alive2
    requires forall x :: x in visited1 && x !in visited0 && x != b ==>
      ClosedBlock(ctx, reg, x, ctx.TopOf(b, top, x), visited1, alive1)
    requires Closed(ctx, reg, to, |ctx.blocks[to].instructions| - 1, visited1, visited2, alive2)
    ensures forall x :: x in visited2 && x !in visited0 && x != b ==>
      ClosedBlock(ctx, reg, x, ctx.TopOf(b, top, x), visited2, alive2)
  {
    var last := |ctx.blocks[to].instructions| - 1;
    forall x | x in visited2 && x !in visited0 && x != b
      ensures ClosedBlock(ctx, reg, x, ctx.TopOf(b, top, x), visited2, alive2)
    {
      if x !in visited1 {
        assert ctx.TopOf(to, last, x) == ctx.TopOf(b, top, x);
      }
    }
  }

  /** One recursive call inside the edge loop keeps every new alive index inside a newly visited block's scan. */
  lemma WalkStepCovered(ctx: Context, reg: Register, b: nat, top: nat, to: nat,
                        visited0: set<nat>, visited1: set<nat>, visited2: set<nat>,
                        alive0: set<nat>, alive1: set<nat>, alive2: set<nat>)
    requires ctx.Valid() && ctx.Entry(b, top) && to < |ctx.blocks|
    requires visited0 + {b} <= visited1 <= visited2
    requires Covered(ctx, reg, b, top, visited0, visited1, alive0, alive1)
    requires Covered(ctx, reg, to, |ctx.blocks[to].instructions| - 1, visited1, visited2, alive1, alive2)
    ensures Covered(ctx, reg, b, top, visited0, visited2, alive0, alive2)
  {
    var last := |ctx.blocks[to].instructions| - 1;
    forall i | i in alive2 && i !in alive0
      ensures exists x :: x in visited2 && x !in visited0 && x < |ctx.blocks| && i in ScanAlive(ctx, reg, x, ctx.TopOf(b, top, x))
    {
      if i !in alive1 {
        var x :| x in visited2 && x !in visited1 && x < |ctx.blocks| && i in ScanAlive(ctx, reg, x, ctx.TopOf(to, last, x));
        assert ctx.TopOf(to, last, x) == ctx.TopOf(b, top, x);
      }
    }
  }

  /** A kill-free scan of `b` from `top` extends into a predecessor, and through it to whatever that predecessor reaches. */
  lemma PathPrepend(ctx: Context, reg: Register, b: nat, top: nat, to: nat, x: nat)
    requires ctx.Valid() && ctx.Entry(b, top) && KillAt(ctx, reg, b, top).None?
    requires to < |ctx.blocks| && to in ctx.Preds(b)
    requires x == to || Reaches(ctx, reg, to, ctx.LastOffset(to), x)
    ensures Reaches(ctx, reg, b, top, x)
  {
    if x == to {
      var path := [b, to];
      assert KillFreePath(ctx, reg, path, top);
    } else {
      var q :| KillFreePath(ctx, reg, q, ctx.LastOffset(to)) && q[0] == to && q[|q| - 1] == x;
      var path := [b] + q;
      assert forall i :: 1 <= i < |path| ==> path[i] == q[i - 1];
      assert KillFreePath(ctx, reg, path, top);
    }
  }

  /** One recursive call inside the edge loop keeps every newly visited block reached from `b`. */
  lemma WalkStepTraced(ctx: Context, reg: Register, b: nat, top: nat, to: nat,
                       visited0: set<nat>, visited1: set<nat>, visited2: set<nat>)
    requires ctx.Valid() && ctx.Entry(b, top) && to < |ctx.blocks|
    requires visited0 + {b} <= visited1 <= visited2
    requires KillAt(ctx, reg, b, top).None? && to in ctx.Preds(b)
    requires Traced(ctx, reg, b, top, visited0, visited1)
    requires Traced(ctx, reg, to, ctx.LastOffset(to), visited1, visited2)
    ensures Traced(ctx, reg, b, top, visited0, visited2)
  {
    forall x | x in visited2 && x !in visited0 && x != b
      ensures Reaches(ctx, reg, b, top, x)
    {
      if x !in visited1 {
        PathPrepend(ctx, reg, b, top, to, x);
      }
    }
  }

  /**
   * A region of blocks containing `roots` in which every block, scanned from its last instruction,
   * has its scan in `alive` and, unless the scan hit a kill, has its predecessors in the region too.
   */
  ghost predicate PredRegion(ctx: Context, reg: Register, roots: set<nat>, visited: set<nat>, alive: set<nat>)
    requires ctx.Valid()
  {
    && roots <= visited
    && InBlocks(ctx, visited)
    && forall x :: x in visited ==> ClosedBlock(ctx, reg, x, ctx.LastOffset(x), visited, alive)
  }

  /**
   * What liveness must mark for a read at offset `top` of block `b`: the scan of `b` from `top` and,
   * unless that scan hit a kill, a region closed under predecessors holding every predecessor of `b`.
   */
  ghost predicate LiveFromUse(ctx: Context, reg: Register, b: nat, top: nat, alive: set<nat>)
    requires ctx.Valid() && ctx.Entry(b, top)
  {
    && ScanAlive(ctx, reg, b, top) <= alive
    && (KillAt(ctx, reg, b, top).None? ==> exists visited: set<nat> :: PredRegion(ctx, reg, ctx.Preds(b), visited, alive))
  }

  /** Index `i` lies in the scan of some block from some offset. */
  ghost predicate Scanned(ctx: Context, reg: Register, i: nat)
    requires ctx.Valid()
  {
    exists s: UsageSite :: ctx.Entry(s.blockIndex, s.offset) && i in ScanAlive(ctx, reg, s.blockIndex, s.offset)
  }

  lemma ScanScanned(ctx: Context, reg: Register, b: nat, top: nat)
    requires ctx.Valid() && ctx.Entry(b, top)
    ensures forall i :: i in ScanAlive(ctx, reg, b, top) ==> Scanned(ctx, reg, i)
  {
    var s := UsageSite(b, top);
    assert ctx.Entry(s.blockIndex, s.offset);
  }

  /**
   * The walk for one read with the starting block's partial scan kept out of the visited set, so
   * that a loop leading back into the block scans it again from its last instruction. The original
   * walk marks the block visited before its partial scan; `SelfLoopAsWritten` shows what that misses.
   */
  method WalkUse(ctx: Context, reg: Register, b: nat, top: nat, alive: set<nat>) returns (alive': set<nat>)
    requires ctx.Valid() && ctx.Entry(b, top)
    ensures alive <= alive'
    ensures LiveFromUse(ctx, reg, b, top, alive')
    ensures forall i :: i in alive' && i !in alive ==> Scanned(ctx, reg, i)
    ensures forall i :: i in alive' <==> i in alive || WalkMarks(ctx, reg, b, top, i)
  {
    var terminated;
    alive', terminated := ScanBlock(ctx, reg, b, top, alive);
    ScanScanned(ctx, reg, b, top);
    var visited: set<nat> := {};
    if !terminated && b in ctx.backEdges {
      var remaining := ctx.backEdges[b];
      ghost var done: set<Edge> := {};
      while remaining != {}
        invariant remaining + done == ctx.backEdges[b]
        invariant alive + ScanAlive(ctx, reg, b, top) <= alive'
        invariant forall e :: e in done ==> e.to in visited
        invariant PredRegion(ctx, reg, {}, visited, alive')
        invariant forall i :: i in alive' && i !in alive ==> Scanned(ctx, reg, i)
        invariant forall x :: x in visited ==> Reaches(ctx, reg, b, top, x)
        invariant forall i :: i in alive' && i !in alive ==> WalkMarks(ctx, reg, b, top, i)
        decreases remaining
      {
        var edge :| edge in remaining;
        remaining := remaining - {edge};
        done := done + {edge};
        var to := edge.to;
        assert to in ctx.Preds(b);
        ghost var visitedBefore, aliveBefore := visited, alive';
        visited, alive' := WalkBlock(ctx, reg, to, ctx.LastOffset(to), visited, alive');
        UseStep(ctx, reg, to, alive, visitedBefore, visited, aliveBefore, alive');
        UseStepMarks(ctx, reg, b, top, to, alive, visitedBefore, visited, aliveBefore, alive');
      }
      assert ctx.Preds(b) <= visited by {
        forall p | p in ctx.Preds(b) ensures p in visited {
          var e :| e in ctx.backEdges[b] && e.to == p;
        }
      }
      assert PredRegion(ctx, reg, ctx.Preds(b), visited, alive');
    } else if !terminated {
      assert PredRegion(ctx, reg, ctx.Preds(b), visited, alive');
    }
    MarksAlive(ctx, reg, b, top, alive');
  }

  /**
   * The indices the walk for a read at `top` of block `b` marks: the scan of `b` from `top`, and the
   * scan from its last instruction of every block a kill-free backward path from the read reaches.
   */
  ghost predicate WalkMarks(ctx: Context, reg: Register, b: nat, top: nat, i: nat)
    requires ctx.Valid() && ctx.Entry(b, top)
  {
    || i in ScanAlive(ctx, reg, b, top)
    || exists x: nat :: x < |ctx.blocks| && Reaches(ctx, reg, b, top, x) && i in ScanAlive(ctx, reg, x, ctx.LastOffset(x))
  }

  /** Whatever meets the liveness requirement for a read holds every index the walk for it marks. */
  lemma MarksAlive(ctx: Context, reg: Register, b: nat, top: nat, alive: set<nat>)
    requires ctx.Valid() && ctx.Entry(b, top) && LiveFromUse(ctx, reg, b, top, alive)
    ensures forall i :: WalkMarks(ctx, reg, b, top, i) ==> i in alive
  {
    forall i | WalkMarks(ctx, reg, b, top, i) && i !in ScanAlive(ctx, reg, b, top)
      ensures i in alive
    {
      var x: nat :| x < |ctx.blocks| && Reaches(ctx, reg, b, top, x) && i in ScanAlive(ctx, reg, x, ctx.LastOffset(x));
      var path :| KillFreePath(ctx, reg, path, top) && path[0] == b && path[|path| - 1] == x;
      KillFreePathAlive(ctx, reg, path, top, alive);
    }
  }

  /** One walk into a predecessor of the read's block only visits reached blocks and only marks what the walk marks. */
  lemma UseStepMarks(ctx: Context, reg: Register, b: nat, top: nat, to: nat, alive0: set<nat>,
                     visited1: set<nat>, visited2: set<nat>, alive1: set<nat>, alive2: set<nat>)
    requires ctx.Valid() && ctx.Entry(b, top) && KillAt(ctx, reg, b, top).None?
    requires to < |ctx.blocks| && to in ctx.Preds(b) && visited1 <= visited2
    requires forall x :: x in visited1 ==> Reaches(ctx, reg, b, top, x)
    requires forall i :: i in alive1 && i !in alive0 ==> WalkMarks(ctx, reg, b, top, i)
    requires Covered(ctx, reg, to, ctx.LastOffset(to), visited1, visited2, alive1, alive2)
    requires Traced(ctx, reg, to, ctx.LastOffset(to), visited1, visited2)
    ensures forall x :: x in visited2 ==> Reaches(ctx, reg, b, top, x)
    ensures forall i :: i in alive2 && i !in alive0 ==> WalkMarks(ctx, reg, b, top, i)
  {
    var last := ctx.LastOffset(to);
    forall x | x in visited2 && x !in visited1
      ensures Reaches(ctx, reg, b, top, x)
    {
      PathPrepend(ctx, reg, b, top, to, x);
    }
    forall i | i in alive2 && i !in alive1
      ensures WalkMarks(ctx, reg, b, top, i)
    {
      var x :| x in visited2 && x !in visited1 && x < |ctx.blocks| && i in ScanAlive(ctx, reg, x, ctx.TopOf(to, last, x));
      assert ctx.TopOf(to, last, x) == ctx.LastOffset(x);
      assert Reaches(ctx, reg, b, top, x);
    }
  }

  /** One walk into a predecessor keeps the predecessor region closed and its marks scanned. */
  lemma UseStep(ctx: Context, reg: Register, to: nat, alive0: set<nat>, visited1: set<nat>, visited2: set<nat>, alive1: set<nat>, alive2: set<nat>)
    requires ctx.Valid() && to < |ctx.blocks|
    requires PredRegion(ctx, reg, {}, visited1, alive1)
    requires forall i :: i in alive1 && i !in alive0 ==> Scanned(ctx, reg, i)
    requires visited1 <= visited2 && alive1 <= alive2 && InBlocks(ctx, visited2)
    requires Closed(ctx, reg, to, ctx.LastOffset(to), visited1, visited2, alive2)
    requires Covered(ctx, reg, to, ctx.LastOffset(to), visited1, visited2, alive1, alive2)
    ensures PredRegion(ctx, reg, {}, visited2, alive2)
    ensures forall i :: i in alive2 && i !in alive0 ==> Scanned(ctx, reg, i)
  {
    var last := ctx.LastOffset(to);
    forall x | x in visited2
      ensures ClosedBlock(ctx, reg, x, ctx.LastOffset(x), visited2, alive2)
    {
      if x !in visited1 {
        assert ctx.TopOf(to, last, x) == ctx.LastOffset(x);
      }
    }
    forall i | i in alive2 && i !in alive0
      ensures Scanned(ctx, reg, i)
    {
      if i !in alive1 {
        var x :| x in visited2 && x !in visited1 && x < |ctx.blocks| && i in ScanAlive(ctx, reg, x, ctx.TopOf(to, last, x));
        var s := UsageSite(x, ctx.TopOf(to, last, x));
        assert ctx.Entry(s.blockIndex, s.offset) && i in ScanAlive(ctx, reg, s.blockIndex, s.offset);
      }
    }
  }

  /** More alive indices keep every read's marks in place. */
  lemma LiveFromUseGrows(ctx: Context, reg: Register, sites: seq<UsageSite>, alive: set<nat>, alive': set<nat>)
    requires ctx.Valid() && alive <= alive'
    requires forall j :: 0 <= j < |sites| ==> ctx.Entry(sites[j].blockIndex, sites[j].offset) && LiveFromUse(ctx, reg, sites[j].blockIndex, sites[j].offset, alive)
    ensures forall j :: 0 <= j < |sites| ==> LiveFromUse(ctx, reg, sites[j].blockIndex, sites[j].offset, alive')
  {
    forall j | 0 <= j < |sites|
      ensures LiveFromUse(ctx, reg, sites[j].blockIndex, sites[j].offset, alive')
    {
      var b, top := sites[j].blockIndex, sites[j].offset;
      if KillAt(ctx, reg, b, top).None? {
        var visited :| PredRegion(ctx, reg, ctx.Preds(b), visited, alive);
        assert PredRegion(ctx, reg, ctx.Preds(b), visited, alive');
      }
    }
  }

  ghost predicate Site(ctx: Context, s: UsageSite) {
    s.blockIndex in ctx.vertices && ctx.Entry(s.blockIndex, s.offset)
  }

  /** The instruction at `s` reads the register. */
  ghost predicate UseSite(ctx: Context, reg: Register, s: UsageSite)
    requires ctx.Valid()
  {
    Site(ctx, s) && reg in ctx.At(s.blockIndex, s.offset).uses
  }

  /** The instruction at `s` writes the register. */
  ghost predicate AssignSite(ctx: Context, reg: Register, s: UsageSite)
    requires ctx.Valid()
  {
    Site(ctx, s) && ctx.At(s.blockIndex, s.offset).assign == Some(reg)
  }

  /** The instruction index a site stands for. */
  function Position(ctx: Context, s: UsageSite): nat
    requires s.blockIndex < |ctx.blocks|
  {
    ctx.blocks[s.blockIndex].startOffset + s.offset
  }

  /** Index `i` is marked by the walk for one of the first `n` reads. */
  ghost predicate MarkedBy(ctx: Context, reg: Register, useSites: seq<UsageSite>, n: nat, i: nat)
    requires ctx.Valid() && n <= |useSites|
    requires forall k :: 0 <= k < |useSites| ==> ctx.Entry(useSites[k].blockIndex, useSites[k].offset)
  {
    exists k :: 0 <= k < n && WalkMarks(ctx, reg, useSites[k].blockIndex, useSites[k].offset, i)
  }

  /**
   * `compute_liveness_for_register`: a walk from every read, all marking into the same alive set,
   * which ends up holding exactly what it held and what some read's walk marks.
   */
  method ComputeLivenessForRegister(ctx: Context, reg: Register, useSites: seq<UsageSite>, alive: set<nat>)
    returns (alive': set<nat>)
    requires ctx.Valid()
    requires forall k :: 0 <= k < |useSites| ==> ctx.Entry(useSites[k].blockIndex, useSites[k].offset)
    ensures alive <= alive'
    ensures forall k :: 0 <= k < |useSites| ==> LiveFromUse(ctx, reg, useSites[k].blockIndex, useSites[k].offset, alive')
    ensures forall i :: i in alive' && i !in alive ==> Scanned(ctx, reg, i)
    ensures forall i :: i in alive' <==> i in alive || MarkedBy(ctx, reg, useSites, |useSites|, i)
  {
    alive' := alive;
    var k := 0;
    while k < |useSites|
      invariant 0 <= k <= |useSites|
      invariant alive <= alive'
      invariant forall j :: 0 <= j < k ==> LiveFromUse(ctx, reg, useSites[j].blockIndex, useSites[j].offset, alive')
      invariant forall i :: i in alive' && i !in alive ==> Scanned(ctx, reg, i)
      invariant forall i :: i in alive' <==> i in alive || MarkedBy(ctx, reg, useSites, k, i)
    {
      var site := useSites[k];
      ghost var before := alive';
      alive' := WalkUse(ctx, reg, site.blockIndex, site.offset, alive');
      LiveFromUseGrows(ctx, reg, useSites[..k], before, alive');
      forall i ensures i in alive' <==> i in alive || MarkedBy(ctx, reg, useSites, k + 1, i) {
        if WalkMarks(ctx, reg, site.blockIndex, site.offset, i) {
          assert MarkedBy(ctx, reg, useSites, k + 1, i);
        }
        if MarkedBy(ctx, reg, useSites, k + 1, i) && !MarkedBy(ctx, reg, useSites, k, i) {
          var j :| 0 <= j < k + 1 && WalkMarks(ctx, reg, useSites[j].blockIndex, useSites[j].offset, i);
          assert j == k;
        }
      }
      k := k + 1;
    }
  }

  /**
   * A path `path[0], path[1], ...` following back edges, starting at a read at `top` of `path[0]`,
   * along which no scan (from `top` in the first block, from the last instruction in the blocks
   * between) meets a kill.
   */
  ghost predicate KillFreePath(ctx: Context, reg: Register, path: seq<nat>, top: nat)
    requires ctx.Valid()
  {
    && |path| >= 2
    && (forall i :: 0 <= i < |path| ==> path[i] < |ctx.blocks|)
    && (forall i :: 0 <= i < |path| - 1 ==> path[i + 1] in ctx.Preds(path[i]))
    && ctx.Entry(path[0], top)
    && KillAt(ctx, reg, path[0], top).None?
    && (forall i :: 1 <= i < |path| - 1 ==> KillAt(ctx, reg, path[i], ctx.LastOffset(path[i])).None?)
  }

  /** Along a kill-free backward path from a read, the last block's scan from its end is alive: the value flows there. */
  lemma KillFreePathAlive(ctx: Context, reg: Register, path: seq<nat>, top: nat, alive: set<nat>)
    requires ctx.Valid() && KillFreePath(ctx, reg, path, top)
    requires LiveFromUse(ctx, reg, path[0], top, alive)
    ensures ScanAlive(ctx, reg, path[|path| - 1], ctx.LastOffset(path[|path| - 1])) <= alive
  {
    var visited :| PredRegion(ctx, reg, ctx.Preds(path[0]), visited, alive);
    var i := 1;
    while i < |path| - 1
      invariant 1 <= i <= |path| - 1
      invariant path[i] in visited
    {
      assert ClosedBlock(ctx, reg, path[i], ctx.LastOffset(path[i]), visited, alive);
      i := i + 1;
    }
    assert ClosedBlock(ctx, reg, path[i], ctx.LastOffset(path[i]), visited, alive);
  }

  /**
   * A read at the head of a block that loops back to itself: block 0 writes the register, block 1
   * reads it first and then runs two more instructions before jumping back to its own start.
   */
  function SelfLoopContext(reg: Register): Context {
    Context(
      [DefUse(Some(reg), []), DefUse(None, [reg]), DefUse(None, []), DefUse(None, [])],
      [BasicBlock(0, [0]), BasicBlock(1, [1, 2, 3])],
      [0, 1],
      map[1 := {Edge(1, 0), Edge(1, 1)}])
  }

  /**
   * The original walk from the read at index 1: it marks index 1 and the write at 0, but it never
   * marks 2 or 3, although the value read at 1 is still needed there for the next round of the loop.
   */
  method SelfLoopAsWritten(reg: Register) returns (alive: set<nat>)
    ensures 0 in alive && 1 in alive && 2 !in alive && 3 !in alive
  {
    var ctx := SelfLoopContext(reg);
    SelfLoopShape(ctx, reg);
    SelfLoopScans(ctx, reg);
    var visited;
    visited, alive := WalkBlock(ctx, reg, 1, 0, {}, {});
    SelfLoopWalk(ctx, reg, visited, alive);
  }

  /** The example's blocks and edges. */
  lemma SelfLoopShape(ctx: Context, reg: Register)
    requires ctx == SelfLoopContext(reg)
    ensures ctx.Valid() && |ctx.blocks| == 2
    ensures ctx.LastOffset(0) == 0 && ctx.LastOffset(1) == 2 && ctx.Preds(1) == {0, 1}
  {
    assert ctx.backEdges[1] == {Edge(1, 0), Edge(1, 1)};
  }

  /** The example's scans: the write at 0 stops a scan there, block 1 has no write. */
  lemma SelfLoopScans(ctx: Context, reg: Register)
    requires ctx == SelfLoopContext(reg) && ctx.Valid() && |ctx.blocks| == 2
    ensures KillAt(ctx, reg, 0, 0) == Some(0) && KillAt(ctx, reg, 1, 0) == None && KillAt(ctx, reg, 1, 2) == None
    ensures ScanAlive(ctx, reg, 0, 0) == {0} && ScanAlive(ctx, reg, 1, 0) == {1} && ScanAlive(ctx, reg, 1, 2) == {1, 2, 3}
  {
    assert ctx.At(1, 2).assign == None && ctx.At(1, 1).assign == None && ctx.At(1, 0).assign == None;
  }

  lemma SelfLoopWalk(ctx: Context, reg: Register, visited: set<nat>, alive: set<nat>)
    requires ctx.Valid() && |ctx.blocks| == 2 && ctx.LastOffset(0) == 0 && ctx.Preds(1) == {0, 1}
    requires KillAt(ctx, reg, 1, 0) == None && ScanAlive(ctx, reg, 0, 0) == {0} && ScanAlive(ctx, reg, 1, 0) == {1}
    requires InBlocks(ctx, visited) && 1 in visited
    requires Closed(ctx, reg, 1, 0, {}, visited, alive)
    requires Covered(ctx, reg, 1, 0, {}, visited, {}, alive)
    ensures 0 in alive && 1 in alive && 2 !in alive && 3 !in alive
  {
    assert ctx.TopOf(1, 0, 0) == 0 && ctx.TopOf(1, 0, 1) == 0;
    assert ClosedBlock(ctx, reg, 1, ctx.TopOf(1, 0, 1), visited, alive);
    assert ClosedBlock(ctx, reg, 0, ctx.TopOf(1, 0, 0), visited, alive);
    forall i | i in alive
      ensures i <= 1
    {
      var x :| x in visited && x < |ctx.blocks| && i in ScanAlive(ctx, reg, x, ctx.TopOf(1, 0, x));
    }
  }

  /** The corrected walk on the same code marks the whole loop block, from the read on to the jump back. */
  method SelfLoopCorrected(reg: Register) returns (alive: set<nat>)
    ensures {0, 1, 2, 3} <= alive
  {
    var ctx := SelfLoopContext(reg);
    SelfLoopShape(ctx, reg);
    SelfLoopScans(ctx, reg);
    alive := WalkUse(ctx, reg, 1, 0, {});
    SelfLoopUse(ctx, reg, alive);
  }

  lemma SelfLoopUse(ctx: Context, reg: Register, alive: set<nat>)
    requires ctx.Valid() && |ctx.blocks| == 2 && ctx.LastOffset(0) == 0 && ctx.LastOffset(1) == 2 && ctx.Preds(1) == {0, 1}
    requires KillAt(ctx, reg, 1, 0) == None && ScanAlive(ctx, reg, 0, 0) == {0} && ScanAlive(ctx, reg, 1, 2) == {1, 2, 3}
    requires LiveFromUse(ctx, reg, 1, 0, alive)
    ensures {0, 1, 2, 3} <= alive
  {
    KillFreePathAlive(ctx, reg, [1, 1], 0, alive);
    KillFreePathAlive(ctx, reg, [1, 0], 0, alive);
  }

  /** The analysis input built from MIR instructions, their blocks and their graph. */
  function ContextOf(instructions: seq<Mir.InstructionMir>, blocks: seq<BasicBlock>, g: ControlFlowGraph): (ctx: Context)
    ensures |ctx.code| == |instructions| && ctx.blocks == blocks && ctx.vertices == g.vertices
    ensures forall i :: 0 <= i < |instructions| ==> ctx.code[i] == MirDefUse(instructions[i])
  {
    Context(seq(|instructions|, i requires 0 <= i < |instructions| => MirDefUse(instructions[i])), blocks, g.vertices, BackEdges(g))
  }

  /** Following the back edges of a block leads exactly to its predecessors in the graph. */
  lemma ContextPreds(instructions: seq<Mir.InstructionMir>, blocks: seq<BasicBlock>, g: ControlFlowGraph, b: nat)
    ensures ContextOf(instructions, blocks, g).Preds(b) == Predecessors(g, b)
  {
    var ctx := ContextOf(instructions, blocks, g);
    forall p ensures p in ctx.Preds(b) <==> p in Predecessors(g, b) {
      if p in Predecessors(g, b) {
        assert b in ctx.backEdges && Edge(b, p) in ctx.backEdges[b];
      }
    }
  }

  /**
   * `get_live_interval`: the least and the greatest alive index; a register alive nowhere gets the
   * start `usize::MAX` and the end 0 the loop starts from.
   */
  method LiveIntervalOf(reg: Register, alive: set<nat>) returns (interval: LiveInterval)
    requires forall i :: i in alive ==> i <= UsizeMax
    ensures Summarises(alive, interval) && interval.register == reg
  {
    var start: nat := UsizeMax;
    var end: nat := 0;
    var remaining := alive;
    while remaining != {}
      invariant remaining <= alive
      invariant forall i :: i in alive && i !in remaining ==> start <= i <= end
      invariant alive - remaining == {} ==> start == UsizeMax && end == 0
      invariant alive - remaining != {} ==> start in alive - remaining && end in alive - remaining
      decreases remaining
    {
      var i :| i in remaining;
      remaining := remaining - {i};
      if i < start {
        start := i;
      }
      if i > end {
        end := i;
      }
    }
    interval := LiveInterval(start, end, reg);
  }

  /** The interval spans exactly the alive set: its least and greatest element, or `usize::MAX..0` when it is empty. */
  ghost predicate Summarises(alive: set<nat>, interval: LiveInterval) {
    && (alive == {} ==> interval.start == UsizeMax && interval.end == 0)
    && (alive != {} ==>
          && interval.start in alive
          && interval.end in alive
          && forall i :: i in alive ==> interval.start <= i <= interval.end)
  }

  /** `entry(register).or_insert_with(Vec::new).push(site)`. */
  function Push(sites: map<Register, seq<UsageSite>>, reg: Register, site: UsageSite): (r: map<Register, seq<UsageSite>>)
    ensures forall x, s :: (x in r && s in r[x]) <==> (x in sites && s in sites[x]) || (x == reg && s == site)
    ensures forall x :: x in r ==> x in sites || x == reg
    ensures reg in r && |r[reg]| > 0
  {
    sites[reg := (if reg in sites then sites[reg] else []) + [site]]
  }

  ghost predicate NonEmpty(sites: map<Register, seq<UsageSite>>) {
    forall r :: r in sites ==> |sites[r]| > 0
  }

  /** The site is in a vertex before position `v` or, in the vertex at `v`, before offset `offset`. */
  ghost predicate Before(ctx: Context, s: UsageSite, v: nat, offset: nat)
    requires v <= |ctx.vertices|
  {
    s.blockIndex in ctx.vertices[..v] || (v < |ctx.vertices| && s.blockIndex == ctx.vertices[v] && s.offset < offset)
  }

  /**
   * `get_register_usage`: for every register, the sites of the instructions that read it and of those
   * that write it, in vertex order and then offset order, once per mention.
   */
  method RegisterUsage(ctx: Context) returns (useSites: map<Register, seq<UsageSite>>, assignSites: map<Register, seq<UsageSite>>)
    requires ctx.Valid()
    ensures forall r, s :: (r in useSites && s in useSites[r]) <==> UseSite(ctx, r, s)
    ensures forall r, s :: (r in assignSites && s in assignSites[r]) <==> AssignSite(ctx, r, s)
    ensures NonEmpty(useSites) && NonEmpty(assignSites)
  {
    useSites, assignSites := map[], map[];
    var v := 0;
    while v < |ctx.vertices|
      invariant 0 <= v <= |ctx.vertices|
      invariant forall r, s :: (r in useSites && s in useSites[r]) <==> UseSite(ctx, r, s) && Before(ctx, s, v, 0)
      invariant forall r, s :: (r in assignSites && s in assignSites[r]) <==> AssignSite(ctx, r, s) && Before(ctx, s, v, 0)
      invariant NonEmpty(useSites) && NonEmpty(assignSites)
    {
      var blockIndex := ctx.vertices[v];
      var offset := 0;
      while offset < |ctx.blocks[blockIndex].instructions|
        invariant 0 <= offset <= |ctx.blocks[blockIndex].instructions|
        invariant forall r, s :: (r in useSites && s in useSites[r]) <==> UseSite(ctx, r, s) && Before(ctx, s, v, offset)
        invariant forall r, s :: (r in assignSites && s in assignSites[r]) <==> AssignSite(ctx, r, s) && Before(ctx, s, v, offset)
        invariant NonEmpty(useSites) && NonEmpty(assignSites)
      {
        var instruction := ctx.code[ctx.blocks[blockIndex].instructions[offset]];
        var site := UsageSite(blockIndex, offset);
        assert instruction == ctx.At(blockIndex, offset);
        assert Site(ctx, site);
        ghost var assignBefore := assignSites;
        if instruction.assign.Some? {
          assignSites := Push(assignSites, instruction.assign.value, site);
        }
        assert forall r, s :: (r in assignSites && s in assignSites[r]) <==>
          (r in assignBefore && s in assignBefore[r]) || (s == site && instruction.assign == Some(r));
        ghost var before := useSites;
        var u := 0;
        while u < |instruction.uses|
          invariant 0 <= u <= |instruction.uses|
          invariant forall r, s :: (r in useSites && s in useSites[r]) <==>
            (r in before && s in before[r]) || (s == site && r in instruction.uses[..u])
          invariant NonEmpty(useSites)
        {
          assert instruction.uses[..u + 1] == instruction.uses[..u] + [instruction.uses[u]];
          useSites := Push(useSites, instruction.uses[u], site);
          u := u + 1;
        }
        assert instruction.uses[..u] == instruction.uses;
        BeforeStep(ctx, v, offset);
        forall r, s ensures (r in useSites && s in useSites[r]) <==> UseSite(ctx, r, s) && Before(ctx, s, v, offset + 1) {
          if s == site {
            assert Before(ctx, s, v, offset + 1);
            assert (r in useSites && s in useSites[r]) <==> (r in before && s in before[r]) || r in instruction.uses;
            assert UseSite(ctx, r, s) <==> r in instruction.uses;
          } else {
            assert (r in useSites && s in useSites[r]) <==> (r in before && s in before[r]);
            assert Before(ctx, s, v, offset + 1) <==> Before(ctx, s, v, offset);
          }
        }
        forall r, s ensures (r in assignSites && s in assignSites[r]) <==> AssignSite(ctx, r, s) && Before(ctx, s, v, offset + 1) {
          if s == site {
            assert AssignSite(ctx, r, s) <==> instruction.assign == Some(r);
          } else {
            assert (r in assignSites && s in assignSites[r]) <==> (r in assignBefore && s in assignBefore[r]);
            assert Before(ctx, s, v, offset + 1) <==> Before(ctx, s, v, offset);
          }
        }
        offset := offset + 1;
      }
      BeforeNext(ctx, v);
      forall r, s ensures (r in useSites && s in useSites[r]) <==> UseSite(ctx, r, s) && Before(ctx, s, v + 1, 0) {
        if UseSite(ctx, r, s) {
          assert Before(ctx, s, v + 1, 0) <==> Before(ctx, s, v, offset);
        }
      }
      forall r, s ensures (r in assignSites && s in assignSites[r]) <==> AssignSite(ctx, r, s) && Before(ctx, s, v + 1, 0) {
        if AssignSite(ctx, r, s) {
          assert Before(ctx, s, v + 1, 0) <==> Before(ctx, s, v, offset);
        }
      }
      v := v + 1;
    }
    BeforeAll(ctx);
  }

  lemma BeforeStep(ctx: Context, v: nat, offset: nat)
    requires v < |ctx.vertices|
    ensures forall s :: Before(ctx, s, v, offset + 1) <==> Before(ctx, s, v, offset) || s == UsageSite(ctx.vertices[v], offset)
  {
    forall s ensures Before(ctx, s, v, offset + 1) <==> Before(ctx, s, v, offset) || s == UsageSite(ctx.vertices[v], offset) {
      assert s == UsageSite(s.blockIndex, s.offset);
    }
  }

  lemma BeforeNext(ctx: Context, v: nat)
    requires ctx.Valid() && v < |ctx.vertices|
    ensures forall s :: Site(ctx, s) ==>
      (Before(ctx, s, v + 1, 0) <==> Before(ctx, s, v, |ctx.blocks[ctx.vertices[v]].instructions|))
  {
    assert ctx.vertices[..v + 1] == ctx.vertices[..v] + [ctx.vertices[v]];
  }

  lemma BeforeAll(ctx: Context)
    ensures forall s :: Site(ctx, s) ==> Before(ctx, s, |ctx.vertices|, 0)
  {
    assert ctx.vertices[..|ctx.vertices|] == ctx.vertices;
  }

  /** Some instruction of a vertex reads or writes the register. */
  ghost predicate Mentioned(ctx: Context, reg: Register)
    requires ctx.Valid()
  {
    exists s :: UseSite(ctx, reg, s) || AssignSite(ctx, reg, s)
  }

  /**
   * `get_virtual_registers`: every register some instruction of a vertex reads or writes, each once,
   * ordered by number.
   */
  method VirtualRegisters(ctx: Context) returns (registers: seq<Register>)
    requires ctx.Valid()
    ensures forall r :: r in registers <==> Mentioned(ctx, r)
    ensures forall i, j :: 0 <= i < j < |registers| ==> registers[i] != registers[j] && registers[i].number <= registers[j].number
  {
    var found: set<Register> := {};
    var v := 0;
    while v < |ctx.vertices|
      invariant 0 <= v <= |ctx.vertices|
      invariant forall r :: r in found ==> Mentioned(ctx, r)
      invariant forall r, s :: (UseSite(ctx, r, s) || AssignSite(ctx, r, s)) && Before(ctx, s, v, 0) ==> r in found
    {
      var blockIndex := ctx.vertices[v];
      var offset := 0;
      while offset < |ctx.blocks[blockIndex].instructions|
        invariant 0 <= offset <= |ctx.blocks[blockIndex].instructions|
        invariant forall r :: r in found ==> Mentioned(ctx, r)
        invariant forall r, s :: (UseSite(ctx, r, s) || AssignSite(ctx, r, s)) && Before(ctx, s, v, offset) ==> r in found
      {
        var instruction := ctx.code[ctx.blocks[blockIndex].instructions[offset]];
        var site := UsageSite(blockIndex, offset);
        assert instruction == ctx.At(blockIndex, offset);
        assert Site(ctx, site);
        if instruction.assign.Some? {
          assert AssignSite(ctx, instruction.assign.value, site);
          found := found + {instruction.assign.value};
        }
        var u := 0;
        while u < |instruction.uses|
          invariant 0 <= u <= |instruction.uses|
          invariant forall r :: r in found ==> Mentioned(ctx, r)
          invariant forall r, s :: (UseSite(ctx, r, s) || AssignSite(ctx, r, s)) && Before(ctx, s, v, offset) ==> r in found
          invariant instruction.assign.Some? ==> instruction.assign.value in found
          invariant forall k :: 0 <= k < u ==> instruction.uses[k] in found
        {
          assert UseSite(ctx, instruction.uses[u], site);
          found := found + {instruction.uses[u]};
          u := u + 1;
        }
        BeforeStep(ctx, v, offset);
        forall r, s | (UseSite(ctx, r, s) || AssignSite(ctx, r, s)) && Before(ctx, s, v, offset + 1) ensures r in found {
          if s == site {
            assert r in instruction.uses || instruction.assign == Some(r);
          }
        }
        offset := offset + 1;
      }
      BeforeNext(ctx, v);
      forall r, s | (UseSite(ctx, r, s) || AssignSite(ctx, r, s)) && Before(ctx, s, v + 1, 0) ensures r in found {
        assert Before(ctx, s, v, offset);
      }
      v := v + 1;
    }
    BeforeAll(ctx);
    registers := SortByNumber(found);
  }

  /** `sort_by_key(|register| register.number)` on the collected registers, whose set order is arbitrary. */
  method SortByNumber(registers: set<Register>) returns (sorted: seq<Register>)
    ensures forall r :: r in sorted <==> r in registers
    ensures forall i, j :: 0 <= i < j < |sorted| ==> sorted[i] != sorted[j] && sorted[i].number <= sorted[j].number
  {
    sorted := [];
    var rest := registers;
    while rest != {}
      invariant forall r :: r in registers <==> r in sorted || r in rest
      invariant forall r :: r in sorted ==> r !in rest
      invariant forall i, j :: 0 <= i < j < |sorted| ==> sorted[i] != sorted[j] && sorted[i].number <= sorted[j].number
      invariant forall i, r :: 0 <= i < |sorted| && r in rest ==> sorted[i].number <= r.number
      decreases rest
    {
      LowestExists(rest);
      var x :| x in rest && forall r :: r in rest ==> x.number <= r.number;
      sorted := sorted + [x];
      rest := rest - {x};
    }
  }

  lemma {:induction false} LowestExists(registers: set<Register>)
    requires registers != {}
    ensures exists x :: x in registers && forall r :: r in registers ==> x.number <= r.number
    decreases |registers|
  {
    var a :| a in registers;
    if !forall r :: r in registers ==> a.number <= r.number {
      var b :| b in registers && b.number < a.number;
      var rest := registers - {a};
      assert b in rest;
      LowestExists(rest);
      var c :| c in rest && forall r :: r in rest ==> c.number <= r.number;
      assert c.number < a.number;
      assert forall r :: r in registers ==> r == a || r in rest;
    }
  }

  /** The numbers of the reference-typed local registers: the collector may read these at any instruction. */
  function LocalsReferences(locals: seq<Register>): (refs: set<nat>)
    ensures forall n :: n in refs <==> exists r :: r in locals && r.valueType.IsReference() && r.number == n
  {
    set r | r in locals && r.valueType.IsReference() :: r.number
  }

  /** The loop over a written-only register's assign sites: the index of each. */
  method AssignPositions(ctx: Context, sites: seq<UsageSite>) returns (alive: set<nat>)
    requires forall k :: 0 <= k < |sites| ==> sites[k].blockIndex < |ctx.blocks|
    ensures forall i :: i in alive <==> exists k :: 0 <= k < |sites| && Position(ctx, sites[k]) == i
  {
    alive := {};
    var k := 0;
    while k < |sites|
      invariant 0 <= k <= |sites|
      invariant forall i :: i in alive <==> exists j :: 0 <= j < k && Position(ctx, sites[j]) == i
    {
      alive := alive + {ctx.blocks[sites[k].blockIndex].startOffset + sites[k].offset};
      k := k + 1;
    }
  }

  ghost predicate Used(ctx: Context, reg: Register)
    requires ctx.Valid()
  {
    exists s :: UseSite(ctx, reg, s)
  }

  ghost predicate AssignedAt(ctx: Context, reg: Register, i: nat)
    requires ctx.Valid()
  {
    exists s :: AssignSite(ctx, reg, s) && Position(ctx, s) == i
  }

  /**
   * The alive set of a register: every read's backward walk for a register that is read, the index
   * of every write and nothing else for one that is only written, and every instruction for a
   * reference-typed local.
   */
  ghost predicate AliveSet(ctx: Context, refs: set<nat>, reg: Register, alive: set<nat>)
    requires ctx.Valid()
  {
    && (reg.number in refs ==> Span(0, |ctx.code|) <= alive)
    && (forall s :: UseSite(ctx, reg, s) ==> LiveFromUse(ctx, reg, s.blockIndex, s.offset, alive))
    && (Used(ctx, reg) ==> forall i: nat :: i in alive <==> UseMarked(ctx, reg, i) || (reg.number in refs && i < |ctx.code|))
    && (!Used(ctx, reg) ==> forall i: nat :: i in alive <==> AssignedAt(ctx, reg, i) || (reg.number in refs && i < |ctx.code|))
  }

  /** Index `i` is marked by the walk for some read of the register. */
  ghost predicate UseMarked(ctx: Context, reg: Register, i: nat)
    requires ctx.Valid()
  {
    exists s :: UseSite(ctx, reg, s) && WalkMarks(ctx, reg, s.blockIndex, s.offset, i)
  }

  /** Every index a walk marks is an instruction index. */
  lemma WalkMarksInCode(ctx: Context, reg: Register, b: nat, top: nat, i: nat)
    requires ctx.Valid() && ctx.Contiguous() && ctx.Entry(b, top) && WalkMarks(ctx, reg, b, top, i)
    ensures i < |ctx.code|
  {
    if i in ScanAlive(ctx, reg, b, top) {
      ScanAliveBounds(ctx, reg, b, top);
    } else {
      var x: nat :| x < |ctx.blocks| && Reaches(ctx, reg, b, top, x) && i in ScanAlive(ctx, reg, x, ctx.LastOffset(x));
      ScanAliveBounds(ctx, reg, x, ctx.LastOffset(x));
    }
  }

  /** The alive set of a register is determined: two sets meeting `AliveSet` for it are equal. */
  lemma AliveSetUnique(ctx: Context, refs: set<nat>, reg: Register, alive1: set<nat>, alive2: set<nat>)
    requires ctx.Valid() && AliveSet(ctx, refs, reg, alive1) && AliveSet(ctx, refs, reg, alive2)
    ensures alive1 == alive2
  {
    forall i: nat ensures i in alive1 <==> i in alive2 {
      if Used(ctx, reg) {
        assert i in alive1 <==> UseMarked(ctx, reg, i) || (reg.number in refs && i < |ctx.code|);
      } else {
        assert i in alive1 <==> AssignedAt(ctx, reg, i) || (reg.number in refs && i < |ctx.code|);
      }
    }
  }

  /**
   * The interval of a register is determined: its least and greatest alive index. Together with
   * `ComputeLiveness` this pins every interval the analysis returns.
   */
  lemma IntervalDetermined(ctx: Context, refs: set<nat>, interval1: LiveInterval, interval2: LiveInterval)
    requires ctx.Valid() && IntervalOf(ctx, refs, interval1) && IntervalOf(ctx, refs, interval2)
    requires interval1.register == interval2.register
    ensures interval1 == interval2
  {
    var reg := interval1.register;
    var alive1 :| AliveSet(ctx, refs, reg, alive1) && Summarises(alive1, interval1);
    var alive2 :| AliveSet(ctx, refs, reg, alive2) && Summarises(alive2, interval2);
    AliveSetUnique(ctx, refs, reg, alive1, alive2);
  }

  /** The interval summarises an alive set of its register. */
  ghost predicate IntervalOf(ctx: Context, refs: set<nat>, interval: LiveInterval)
    requires ctx.Valid()
  {
    exists alive: set<nat> :: AliveSet(ctx, refs, interval.register, alive) && Summarises(alive, interval)
  }

  lemma ScannedInCode(ctx: Context, reg: Register, i: nat)
    requires ctx.Valid() && ctx.Contiguous() && Scanned(ctx, reg, i)
    ensures i < |ctx.code|
  {
    var s: UsageSite :| ctx.Entry(s.blockIndex, s.offset) && i in ScanAlive(ctx, reg, s.blockIndex, s.offset);
    ScanAliveBounds(ctx, reg, s.blockIndex, s.offset);
  }

  /**
   * `compute_liveness`: one interval per register, in register-number order. A read register gets
   * the walks from its reads, a written-only one the indices of its writes, and a reference-typed
   * local is in addition alive at every instruction.
   */
  method ComputeLiveness(ctx: Context, locals: seq<Register>) returns (intervals: seq<LiveInterval>)
    requires ctx.Valid() && ctx.Contiguous() && |ctx.code| <= UsizeMax
    ensures forall r :: (exists k :: 0 <= k < |intervals| && intervals[k].register == r) <==> Mentioned(ctx, r)
    ensures forall i, j :: 0 <= i < j < |intervals| ==>
      intervals[i].register != intervals[j].register && intervals[i].register.number <= intervals[j].register.number
    ensures forall k :: 0 <= k < |intervals| ==> IntervalOf(ctx, LocalsReferences(locals), intervals[k])
  {
    var refs := LocalsReferences(locals);
    var registers := VirtualRegisters(ctx);
    var useSites, assignSites := RegisterUsage(ctx);
    intervals := [];
    var k := 0;
    while k < |registers|
      invariant 0 <= k <= |registers|
      invariant |intervals| == k
      invariant forall j :: 0 <= j < k ==> intervals[j].register == registers[j]
      invariant forall j :: 0 <= j < k ==> IntervalOf(ctx, refs, intervals[j])
    {
      var interval := RegisterInterval(ctx, refs, registers[k], useSites, assignSites);
      intervals := intervals + [interval];
      k := k + 1;
    }
    assert forall j :: 0 <= j < |intervals| ==> intervals[j].register == registers[j];
  }

  /** The body of the register loop of `compute_liveness`: the alive set of one register and its interval. */
  method RegisterInterval(ctx: Context, refs: set<nat>, reg: Register,
                          useSites: map<Register, seq<UsageSite>>, assignSites: map<Register, seq<UsageSite>>)
    returns (interval: LiveInterval)
    requires ctx.Valid() && ctx.Contiguous() && |ctx.code| <= UsizeMax && Mentioned(ctx, reg)
    requires forall s :: (reg in useSites && s in useSites[reg]) <==> UseSite(ctx, reg, s)
    requires forall s :: (reg in assignSites && s in assignSites[reg]) <==> AssignSite(ctx, reg, s)
    requires reg in useSites ==> |useSites[reg]| > 0
    ensures interval.register == reg && IntervalOf(ctx, refs, interval)
  {
    var alive: set<nat>;
    if reg in useSites {
      var sites := useSites[reg];
      assert forall j :: 0 <= j < |sites| ==> UseSite(ctx, reg, sites[j]);
      alive := ComputeLivenessForRegister(ctx, reg, sites, {});
      ghost var walked := alive;
      if reg.number in refs {
        alive := alive + Span(0, |ctx.code|);
      }
      UsedAlive(ctx, refs, reg, sites, walked, alive);
    } else {
      assert !Used(ctx, reg);
      ghost var s :| UseSite(ctx, reg, s) || AssignSite(ctx, reg, s);
      var sites := assignSites[reg];
      assert forall j :: 0 <= j < |sites| ==> AssignSite(ctx, reg, sites[j]);
      alive := AssignPositions(ctx, sites);
      ghost var written := alive;
      if reg.number in refs {
        alive := alive + Span(0, |ctx.code|);
      }
      UnusedAlive(ctx, refs, reg, sites, written, alive);
    }
    interval := LiveIntervalOf(reg, alive);
    assert AliveSet(ctx, refs, interval.register, alive) && Summarises(alive, interval);
  }

  /** The alive set of a read register meets `AliveSet` and stays within the code. */
  lemma UsedAlive(ctx: Context, refs: set<nat>, reg: Register, sites: seq<UsageSite>, walked: set<nat>, alive: set<nat>)
    requires ctx.Valid() && ctx.Contiguous() && |sites| > 0
    requires forall s :: UseSite(ctx, reg, s) <==> s in sites
    requires forall k :: 0 <= k < |sites| ==> ctx.Entry(sites[k].blockIndex, sites[k].offset)
    requires forall k :: 0 <= k < |sites| ==> LiveFromUse(ctx, reg, sites[k].blockIndex, sites[k].offset, walked)
    requires forall i :: i in walked <==> MarkedBy(ctx, reg, sites, |sites|, i)
    requires alive == if reg.number in refs then walked + Span(0, |ctx.code|) else walked
    ensures AliveSet(ctx, refs, reg, alive)
    ensures forall i :: i in alive ==> i < |ctx.code|
  {
    assert UseSite(ctx, reg, sites[0]);
    LiveFromUseGrows(ctx, reg, sites, walked, alive);
    forall s | UseSite(ctx, reg, s) ensures LiveFromUse(ctx, reg, s.blockIndex, s.offset, alive) {
      var k :| 0 <= k < |sites| && sites[k] == s;
    }
    WalkedIsUseMarked(ctx, reg, sites, walked);
    forall i | i in walked ensures i < |ctx.code| {
      UseMarkedInCode(ctx, reg, i);
    }
  }

  /** The union of the walks from the listed reads is the set of indices some read's walk marks. */
  lemma WalkedIsUseMarked(ctx: Context, reg: Register, sites: seq<UsageSite>, walked: set<nat>)
    requires ctx.Valid()
    requires forall s :: UseSite(ctx, reg, s) <==> s in sites
    requires forall k :: 0 <= k < |sites| ==> ctx.Entry(sites[k].blockIndex, sites[k].offset)
    requires forall i :: i in walked <==> MarkedBy(ctx, reg, sites, |sites|, i)
    ensures forall i: nat :: i in walked <==> UseMarked(ctx, reg, i)
  {
    forall i: nat ensures i in walked <==> UseMarked(ctx, reg, i) {
      if i in walked {
        var k :| 0 <= k < |sites| && WalkMarks(ctx, reg, sites[k].blockIndex, sites[k].offset, i);
        assert UseSite(ctx, reg, sites[k]);
      }
      if UseMarked(ctx, reg, i) {
        var s :| UseSite(ctx, reg, s) && WalkMarks(ctx, reg, s.blockIndex, s.offset, i);
        var k :| 0 <= k < |sites| && sites[k] == s;
        assert MarkedBy(ctx, reg, sites, |sites|, i);
      }
    }
  }

  /** Every index some read's walk marks is an instruction index. */
  lemma UseMarkedInCode(ctx: Context, reg: Register, i: nat)
    requires ctx.Valid() && ctx.Contiguous() && UseMarked(ctx, reg, i)
    ensures i < |ctx.code|
  {
    var s :| UseSite(ctx, reg, s) && WalkMarks(ctx, reg, s.blockIndex, s.offset, i);
    WalkMarksInCode(ctx, reg, s.blockIndex, s.offset, i);
  }

  /** The alive set of a written-only register meets `AliveSet` and stays within the code. */
  lemma UnusedAlive(ctx: Context, refs: set<nat>, reg: Register, sites: seq<UsageSite>, written: set<nat>, alive: set<nat>)
    requires ctx.Valid() && ctx.Contiguous() && !Used(ctx, reg)
    requires forall s :: AssignSite(ctx, reg, s) <==> s in sites
    requires forall k :: 0 <= k < |sites| ==> sites[k].blockIndex < |ctx.blocks|
    requires forall i :: i in written <==> exists k :: 0 <= k < |sites| && Position(ctx, sites[k]) == i
    requires alive == if reg.number in refs then written + Span(0, |ctx.code|) else written
    ensures AliveSet(ctx, refs, reg, alive)
    ensures forall i :: i in alive ==> i < |ctx.code|
  {
    forall i ensures i in written <==> AssignedAt(ctx, reg, i) {
      if i in written {
        var k :| 0 <= k < |sites| && Position(ctx, sites[k]) == i;
        assert AssignSite(ctx, reg, sites[k]);
      }
      if AssignedAt(ctx, reg, i) {
        var s :| AssignSite(ctx, reg, s) && Position(ctx, s) == i;
        var k :| 0 <= k < |sites| && sites[k] == s;
      }
    }
  }

  /** Every read of a register lies inside its interval. */
  lemma UseInsideInterval(ctx: Context, refs: set<nat>, interval: LiveInterval, s: UsageSite)
    requires ctx.Valid() && IntervalOf(ctx, refs, interval) && UseSite(ctx, interval.register, s)
    ensures interval.start <= Position(ctx, s) <= interval.end
  {
    var alive :| AliveSet(ctx, refs, interval.register, alive) && Summarises(alive, interval);
    ScanAliveBounds(ctx, interval.register, s.blockIndex, s.offset);
  }

  /**
   * Where a read's value flows in backwards along a path of back edges with no write in between, the
   * last instruction of the block reached lies inside the interval.
   */
  lemma LiveAcrossBackEdges(ctx: Context, refs: set<nat>, interval: LiveInterval, s: UsageSite, path: seq<nat>)
    requires ctx.Valid() && IntervalOf(ctx, refs, interval) && UseSite(ctx, interval.register, s)
    requires KillFreePath(ctx, interval.register, path, s.offset) && path[0] == s.blockIndex
    ensures var p := path[|path| - 1];
      interval.start <= ctx.blocks[p].startOffset + ctx.LastOffset(p) <= interval.end
  {
    var reg := interval.register;
    var alive :| AliveSet(ctx, refs, reg, alive) && Summarises(alive, interval);
    var p := path[|path| - 1];
    KillFreePathAlive(ctx, reg, path, s.offset, alive);
    ScanAliveBounds(ctx, reg, p, ctx.LastOffset(p));
  }

  /** A reference-typed local is alive from the first instruction to the last. */
  lemma ReferenceLocalSpansCode(ctx: Context, refs: set<nat>, interval: LiveInterval)
    requires ctx.Valid() && ctx.Contiguous() && IntervalOf(ctx, refs, interval)
    requires interval.register.number in refs && |ctx.code| > 0
    ensures interval.start == 0 && interval.end == |ctx.code| - 1
  {
    var reg := interval.register;
    var alive :| AliveSet(ctx, refs, reg, alive) && Summarises(alive, interval);
    assert 0 in alive && |ctx.code| - 1 in alive;
    AliveInCode(ctx, refs, reg, alive);
  }

  lemma AliveInCode(ctx: Context, refs: set<nat>, reg: Register, alive: set<nat>)
    requires ctx.Valid() && ctx.Contiguous() && AliveSet(ctx, refs, reg, alive)
    ensures forall i :: i in alive ==> i < |ctx.code|
  {
    forall i | i in alive ensures i < |ctx.code| {
      if Used(ctx, reg) {
        if UseMarked(ctx, reg, i) {
          UseMarkedInCode(ctx, reg, i);
        }
      } else if AssignedAt(ctx, reg, i) {
        var s :| AssignSite(ctx, reg, s) && Position(ctx, s) == i;
      }
    }
  }

  /**
   * A register that is written but never read, and is no reference-typed local, lives from its
   * first write to its last: both ends are writes and every write lies in between.
   */
  lemma WrittenOnlyInterval(ctx: Context, refs: set<nat>, interval: LiveInterval, s0: UsageSite)
    requires ctx.Valid() && IntervalOf(ctx, refs, interval)
    requires !Used(ctx, interval.register) && interval.register.number !in refs
    requires AssignSite(ctx, interval.register, s0)
    ensures AssignedAt(ctx, interval.register, interval.start) && AssignedAt(ctx, interval.register, interval.end)
    ensures forall s :: AssignSite(ctx, interval.register, s) ==> interval.start <= Position(ctx, s) <= interval.end
  {
    var reg := interval.register;
    var alive :| AliveSet(ctx, refs, reg, alive) && Summarises(alive, interval);
    assert AssignedAt(ctx, reg, Position(ctx, s0));
    forall s | AssignSite(ctx, reg, s) ensures interval.start <= Position(ctx, s) <= interval.end {
      assert AssignedAt(ctx, reg, Position(ctx, s));
    }
  }

  /** A register some instruction mentions is alive somewhere: its interval is never the empty `usize::MAX..0`. */
  lemma MentionedIntervalNonEmpty(ctx: Context, refs: set<nat>, interval: LiveInterval)
    requires ctx.Valid() && IntervalOf(ctx, refs, interval) && Mentioned(ctx, interval.register)
    ensures interval.start <= interval.end
  {
    var reg := interval.register;
    var alive :| AliveSet(ctx, refs, reg, alive) && Summarises(alive, interval);
    var s :| UseSite(ctx, reg, s) || AssignSite(ctx, reg, s);
    if Used(ctx, reg) {
      var u :| UseSite(ctx, reg, u);
      ScanAliveBounds(ctx, reg, u.blockIndex, u.offset);
    } else {
      assert AssignedAt(ctx, reg, Position(ctx, s));
    }
  }
}
