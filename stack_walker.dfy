/**
 * The stack walker of `src/runtime/stack_walker.rs`: mapping a code offset back to the bytecode
 * instruction it belongs to, and walking from a frame through its callers.
 *
 * A compiled function records, per emitted instruction, the pair (instruction index, code
 * offset) in emission order. The native stack itself is not modelled: it is a sequence of
 * activations, innermost first, each knowing its function's name and compiled offsets and the
 * offset of the return address it saved, taken relative to its caller's code.
 */
module StackWalker {
  import opened Wrappers

  /** An entry of `instructions_offsets`: the instruction index and the code offset where it starts. */
  datatype InstructionOffset = InstructionOffset(instruction: nat, offset: nat)

  /** Entry `i` and the next one bracket `offset`, both ends included. */
  predicate Brackets(offsets: seq<InstructionOffset>, i: nat, offset: nat) {
    i + 1 < |offsets| && offsets[i].offset <= offset <= offsets[i + 1].offset
  }

  /**
   * The search loop of `instruction_index_from_offset` from entry `from` on: the position of the
   * first entry that brackets the offset together with its successor.
   */
  function FirstBracket(offsets: seq<InstructionOffset>, offset: nat, from: nat): (r: Option<nat>)
    ensures r.Some? ==> from <= r.value && Brackets(offsets, r.value, offset)
    ensures r.Some? ==> forall j :: from <= j < r.value ==> !Brackets(offsets, j, offset)
    ensures r.None? ==> forall j :: from <= j ==> !Brackets(offsets, j, offset)
    decreases |offsets| - from
  {
    if from + 1 >= |offsets| then None
    else if offsets[from].offset <= offset <= offsets[from + 1].offset then Some(from)
    else FirstBracket(offsets, offset, from + 1)
  }

  /** `instruction_index_from_offset`: the instruction of the first bracketing entry, if any. */
  function InstructionIndexFromOffset(offsets: seq<InstructionOffset>, offset: nat): (r: Option<nat>)
    ensures r.Some? <==> exists i :: Brackets(offsets, i, offset)
  {
    match FirstBracket(offsets, offset, 0)
    case None => None
    case Some(i) => Some(offsets[i].instruction)
  }

  /** The result is the instruction of the first entry that brackets the offset. */
  lemma FirstBracketWins(offsets: seq<InstructionOffset>, offset: nat, i: nat)
    requires Brackets(offsets, i, offset)
    requires forall j: nat :: j < i ==> !Brackets(offsets, j, offset)
    ensures InstructionIndexFromOffset(offsets, offset) == Some(offsets[i].instruction)
  {
    var r := FirstBracket(offsets, offset, 0);
    assert r == Some(i);
  }

  /** With fewer than two entries nothing brackets, so there is no instruction. */
  lemma FewEntriesNoInstruction(offsets: seq<InstructionOffset>, offset: nat)
    requires |offsets| < 2
    ensures InstructionIndexFromOffset(offsets, offset).None?
  {
    assert FirstBracket(offsets, offset, 0).None?;
  }

  /**
   * An offset on the boundary between entries `i` and `i + 1` belongs to entry `i`, the earlier
   * one, when no entry before `i` brackets it.
   */
  lemma SharedBoundaryGoesEarlier(offsets: seq<InstructionOffset>, i: nat, boundary: nat)
    requires i + 2 < |offsets| && boundary == offsets[i + 1].offset && offsets[i].offset <= boundary
    requires forall j: nat :: j < i ==> !Brackets(offsets, j, boundary)
    ensures Brackets(offsets, i + 1, boundary) <==> boundary <= offsets[i + 2].offset
    ensures InstructionIndexFromOffset(offsets, boundary) == Some(offsets[i].instruction)
  {
    FirstBracketWins(offsets, boundary, i);
  }

  /** The last entry is never the one chosen: its instruction is returned only if an earlier entry carries it. */
  lemma LastEntryNeverChosen(offsets: seq<InstructionOffset>, offset: nat)
    requires InstructionIndexFromOffset(offsets, offset).Some?
    ensures exists i :: 0 <= i < |offsets| - 1 && InstructionIndexFromOffset(offsets, offset) == Some(offsets[i].instruction)
  {
    var i := FirstBracket(offsets, offset, 0).value;
    assert 0 <= i < |offsets| - 1 && InstructionIndexFromOffset(offsets, offset) == Some(offsets[i].instruction);
  }

  /**
   * One activation on the native stack: its function's name, its compiled offsets, and the offset
   * of the return address it saved, relative to the start of its caller's code.
   */
  datatype Activation = Activation(functionName: string, offsets: seq<InstructionOffset>, returnOffset: nat)

  /** `StackFrame`: an activation (by its position on the stack) and the instruction it is at. */
  datatype StackFrame = StackFrame(position: nat, instructionIndex: nat)

  /**
   * `parent`: `main` has none; otherwise the caller's frame is the next activation, at the
   * instruction its saved return address falls in, and `None` when that offset maps to no
   * instruction. A frame whose caller is not on the modelled stack has none either.
   */
  function Parent(stack: seq<Activation>, frame: StackFrame): (r: Option<StackFrame>)
    requires frame.position < |stack|
    ensures r.Some? ==> r.value.position == frame.position + 1 < |stack|
    ensures stack[frame.position].functionName == "main" ==> r.None?
  {
    if stack[frame.position].functionName == "main" then None
    else if frame.position + 1 >= |stack| then None
    else
      match InstructionIndexFromOffset(stack[frame.position + 1].offsets, stack[frame.position].returnOffset)
      case None => None
      case Some(index) => Some(StackFrame(frame.position + 1, index))
  }

  /** The frames a walk from `frame` applies its callback to, in order. */
  function Walked(stack: seq<Activation>, frame: StackFrame): (frames: seq<StackFrame>)
    requires frame.position < |stack|
    ensures |frames| > 0 && frames[0] == frame
    decreases |stack| - frame.position
  {
    match Parent(stack, frame)
    case None => [frame]
    case Some(parent) => [frame] + Walked(stack, parent)
  }

  /** The frames still to be visited once the next parent is known. */
  function Remaining(stack: seq<Activation>, parent: Option<StackFrame>): seq<StackFrame>
    requires parent.Some? ==> parent.value.position < |stack|
  {
    match parent
    case None => []
    case Some(p) => Walked(stack, p)
  }

  /**
   * `walk`: the callback is applied to the frame, then to each parent in turn until there is
   * none. The callback is modelled by the list of frames it receives.
   */
  method Walk(stack: seq<Activation>, frame: StackFrame) returns (applied: seq<StackFrame>)
    requires frame.position < |stack|
    ensures applied == Walked(stack, frame)
  {
    applied := [frame];
    var parentFrame := Parent(stack, frame);
    ghost var current := frame;
    while parentFrame.Some?
      invariant current.position < |stack| && parentFrame == Parent(stack, current)
      invariant applied + Remaining(stack, parentFrame) == Walked(stack, frame)
      decreases |stack| - current.position
    {
      var next := parentFrame.value;
      FramesAssociate(applied, [next], Remaining(stack, Parent(stack, next)));
      applied := applied + [next];
      current := next;
      parentFrame := Parent(stack, next);
    }
  }

  lemma FramesAssociate(a: seq<StackFrame>, b: seq<StackFrame>, c: seq<StackFrame>)
    ensures (a + b) + c == a + (b + c)
  {
  }

  /**
   * The walk visits consecutive activations from the frame's own, and every frame it visits
   * before the last is not `main`: the walk stops at the first `main`.
   */
  lemma {:induction false} WalkedConsecutive(stack: seq<Activation>, frame: StackFrame)
    requires frame.position < |stack|
    ensures var frames := Walked(stack, frame);
      && (forall k :: 0 <= k < |frames| ==> frames[k].position == frame.position + k < |stack|)
      && (forall k :: 0 <= k < |frames| - 1 ==> frames[k].position < |stack| && stack[frames[k].position].functionName != "main")
    decreases |stack| - frame.position
  {
    match Parent(stack, frame)
    case None =>
    case Some(parent) =>
      WalkedConsecutive(stack, parent);
      var frames := Walked(stack, frame);
      assert forall k :: 1 <= k < |frames| ==> frames[k] == Walked(stack, parent)[k - 1];
  }

  /** A walk from `main`'s frame applies the callback to that frame alone. */
  lemma WalkFromMain(stack: seq<Activation>, frame: StackFrame)
    requires frame.position < |stack| && stack[frame.position].functionName == "main"
    ensures Walked(stack, frame) == [frame]
  {
  }
}
