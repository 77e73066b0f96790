/**
 * The older translation of stack bytecode into the older mid-level IR. It emits a `Marker(i)`
 * before the code of bytecode instruction `i` (and a label marker after it when `i` is a branch
 * target), keeps the operand stack as a register counter exactly like the later compiler, but
 * records no register maximum.
 *
 * `Emit` and `StepAt` give the meaning of one instruction; a `None` result is an input on which
 * the code panics, or an instruction the older instruction set does not have. The compiler class
 * is proved to follow them.
 */
module MidCompiler {
  import opened Wrappers
  import opened Sequences
  import opened Scalars
  import opened TypeIds
  import opened Program
  import opened Mid
  import opened Branches
  import opened Ranges

  /** Everything an instruction's translation reads besides the counter. */
  datatype Env = Env(
    locals: map<nat, VirtualRegister>,
    declaration: Declaration,
    operandTypes: seq<seq<TypeId>>,
    functions: map<Signature, Declaration>,
    labels: map<nat, nat>)

  /** What the compiler has built so far: the marked code and the register counter. */
  datatype Progress = Progress(instructions: seq<Marked>, counter: nat)

  /** The code of one bytecode instruction and the counter after it. */
  datatype Translation = Translation(data: MidData, counter: nat)

  function Reg(n: nat, t: TypeId): VirtualRegister { VirtualRegister(n, t) }

  predicate IsLoad(op: Op) { op.LoadInt32? || op.LoadFloat32? || op.LoadArgument? || op.LoadNull? }
  predicate IsLocalAccess(op: Op) { op.LoadLocal? || op.StoreLocal? }
  predicate IsArithmetic(op: Op) { op.Add? || op.Sub? }
  predicate IsArray(op: Op) { op.NewArray? || op.LoadElement? || op.StoreElement? || op.LoadArrayLength? }
  predicate IsControl(op: Op) { op.Return? || op.Branch? || op.BranchIf? }

  /** The instructions of the older instruction set. */
  predicate IsOlderInstruction(op: Op) {
    IsLoad(op) || IsLocalAccess(op) || IsArithmetic(op) || op.Call? || IsArray(op) || IsControl(op)
  }

  /** Constants, arguments and null push one register; a float constant is pushed as its bit pattern. */
  function EmitLoad(env: Env, op: Op, c: nat): Option<Translation>
    requires IsLoad(op)
  {
    match op
    case LoadInt32(v) => Some(Translation(Mid.LoadInt32(Reg(c, Int32), v), c + 1))
    case LoadFloat32(v) => Some(Translation(Mid.LoadInt32(Reg(c, Int32), AsI32(v.bits)), c + 1))
    case LoadArgument(i) =>
      if i >= |env.declaration.parameters| then None
      else Some(Translation(Mid.LoadArgument(i, Reg(c, env.declaration.parameters[i])), c + 1))
    case LoadNull(_) => Some(Translation(Mid.LoadNull(Reg(c, Null)), c + 1))
  }

  /** A local is read by a move into a pushed register and written by a move from a popped one. */
  function EmitLocal(env: Env, op: Op, c: nat): Option<Translation>
    requires IsLocalAccess(op)
  {
    match op
    case LoadLocal(i) =>
      if i !in env.locals then None
      else Some(Translation(Mid.Move(Reg(c, env.locals[i].valueType), env.locals[i]), c + 1))
    case StoreLocal(i) =>
      if i !in env.locals || c < 1 then None
      else Some(Translation(Mid.Move(env.locals[i], Reg(c - 1, env.locals[i].valueType)), c - 1))
  }

  /** Pops the right then the left operand and pushes the result; only Int32 and Float32 are supported. */
  function EmitArithmetic(op: Op, types: seq<TypeId>, c: nat): Option<Translation>
    requires IsArithmetic(op)
  {
    if |types| == 0 || c < 2 then None
    else
      var t := types[0];
      var dest, op1, op2 := Reg(c - 2, t), Reg(c - 2, t), Reg(c - 1, t);
      if t == Int32 then Some(Translation(if op.Add? then Mid.AddInt32(dest, op1, op2) else Mid.SubInt32(dest, op1, op2), c - 1))
      else if t == Float32 then Some(Translation(if op.Add? then Mid.AddFloat32(dest, op1, op2) else Mid.SubFloat32(dest, op1, op2), c - 1))
      else None
  }

  /** The arguments of a call with parameter types `parameters`, popped from counter `c`. */
  function Arguments(parameters: seq<TypeId>, c: nat): (r: seq<VirtualRegister>)
    requires |parameters| <= c
    ensures |r| == |parameters|
    ensures forall i :: 0 <= i < |r| ==> r[i] == Reg(c - |parameters| + i, parameters[i])
  {
    seq(|parameters|, i requires 0 <= i < |parameters| => Reg(c - |parameters| + i, parameters[i]))
  }

  /** A call to a bound function: its arguments are popped and a non-void result pushed. */
  function EmitCall(env: Env, signature: Signature, c: nat): Option<Translation> {
    if signature !in env.functions then None
    else
      var callee := env.functions[signature];
      var n := |callee.parameters|;
      if c < n then None
      else
        var arguments := Arguments(callee.parameters, c);
        if callee.returnType != Void then
          Some(Translation(Mid.Call(callee.Sig(), Some(Reg(c - n, callee.returnType)), arguments), c - n + 1))
        else
          Some(Translation(Mid.Call(callee.Sig(), None, arguments), c - n))
  }

  /** Array creation and access. */
  function EmitArray(op: Op, types: seq<TypeId>, c: nat): Option<Translation>
    requires IsArray(op)
  {
    match op
    case NewArray(e) =>
      if c < 1 then None else Some(Translation(Mid.NewArray(e, Reg(c - 1, Array(e)), Reg(c - 1, Int32)), c))
    case LoadElement(e) =>
      if c < 2 then None else Some(Translation(Mid.LoadElement(e, Reg(c - 2, e), Reg(c - 2, Array(e)), Reg(c - 1, Int32)), c - 1))
    case StoreElement(e) =>
      if c < 3 then None else Some(Translation(Mid.StoreElement(e, Reg(c - 3, Array(e)), Reg(c - 2, Int32), Reg(c - 1, e)), c - 3))
    case LoadArrayLength =>
      if |types| == 0 || c < 1 then None else Some(Translation(Mid.LoadArrayLength(Reg(c - 1, Int32), Reg(c - 1, types[0])), c))
  }

  /** Return and branches. */
  function EmitControl(env: Env, types: seq<TypeId>, op: Op, c: nat): Option<Translation>
    requires IsControl(op)
  {
    match op
    case Return =>
      var returnType := env.declaration.returnType;
      if returnType == Void then Some(Translation(Mid.Return(None), c))
      else if c < 1 then None
      else Some(Translation(Mid.Return(Some(Reg(c - 1, returnType))), c - 1))
    case Branch(target) =>
      if target !in env.labels then None else Some(Translation(Mid.Branch(env.labels[target]), c))
    case BranchIf(condition, target) =>
      if |types| == 0 || target !in env.labels || c < 2 then None
      else Some(Translation(Mid.BranchCondition(condition, types[0], env.labels[target], Reg(c - 2, types[0]), Reg(c - 1, types[0])), c - 2))
  }

  /**
   * The instruction `op` at counter `c` with recorded operand types `types`: the emitted
   * instruction and the new counter, or `None`.
   */
  function Emit(env: Env, types: seq<TypeId>, op: Op, c: nat): Option<Translation> {
    if IsLoad(op) then EmitLoad(env, op, c)
    else if IsLocalAccess(op) then EmitLocal(env, op, c)
    else if IsArithmetic(op) then EmitArithmetic(op, types, c)
    else if op.Call? then EmitCall(env, op.signature, c)
    else if IsArray(op) then EmitArray(op, types, c)
    else if IsControl(op) then EmitControl(env, types, op, c)
    else None
  }

  /** Appends `Marker(index)`, the label marker `marker` if there is one, then `t`'s instruction. */
  function Advance(p: Progress, index: nat, marker: Option<nat>, t: Translation): Progress {
    var labelled := if marker.Some? then [Marker(index), Instr(Mid.BranchLabel(marker.value))] else [Marker(index)];
    Progress(p.instructions + labelled + [Instr(t.data)], t.counter)
  }

  /** One bytecode instruction at `index`. */
  function StepAt(env: Env, p: Progress, index: nat, op: Op): Option<Progress> {
    if index >= |env.operandTypes| then None
    else
      var t :- Emit(env, env.operandTypes[index], op, p.counter);
      Some(Advance(p, index, if index in env.labels then Some(env.labels[index]) else None, t))
  }

  /** The first `k` instructions of `ops`, from progress `p`. */
  function RunPrefix(env: Env, p: Progress, ops: seq<Op>, k: nat): Option<Progress>
    requires k <= |ops|
  {
    if k == 0 then Some(p)
    else
      var q :- RunPrefix(env, p, ops, k - 1);
      StepAt(env, q, k - 1, ops[k - 1])
  }

  /** The registers given to locals: local `i` gets register `c + i`. */
  function LocalRegisters(c: nat, types: seq<TypeId>): (r: map<nat, VirtualRegister>)
    ensures forall i: nat :: i in r <==> i < |types|
    ensures forall i: nat :: i < |types| ==> r[i] == Reg(c + i, types[i])
  {
    map i: nat | i < |types| :: Reg(c + i, types[i])
  }

  // ---------------------------------------------------------------------------------------
  // The stack discipline
  // ---------------------------------------------------------------------------------------

  /** How many operands an instruction pops, by the bytecode's stack effect. */
  function Pops(env: Env, op: Op): nat {
    match op
    case StoreLocal(_) => 1
    case Add => 2
    case Sub => 2
    case Return => if env.declaration.returnType != Void then 1 else 0
    case Call(signature) => if signature in env.functions then |env.functions[signature].parameters| else 0
    case NewArray(_) => 1
    case LoadElement(_) => 2
    case StoreElement(_) => 3
    case LoadArrayLength => 1
    case BranchIf(_, _) => 2
    case _ => 0
  }

  /** Whether an instruction pushes a value, by the bytecode's stack effect. */
  predicate Pushes(env: Env, op: Op) {
    match op
    case LoadInt32(_) => true
    case LoadFloat32(_) => true
    case LoadLocal(_) => true
    case Add => true
    case Sub => true
    case Call(signature) => signature in env.functions && env.functions[signature].returnType != Void
    case LoadArgument(_) => true
    case LoadNull(_) => true
    case NewArray(_) => true
    case LoadElement(_) => true
    case LoadArrayLength => true
    case _ => false
  }

  /**
   * The register numbering follows the operand stack: the `Pops` popped operands are read
   * from registers `c - Pops .. c - 1` in operand order (a load of a local reads the local
   * instead), a pushed value goes to register `c - Pops`, and the counter ends at the new
   * stack height.
   */
  ghost predicate FollowsStack(env: Env, op: Op, c: nat, t: Translation) {
    var pops := Pops(env, op);
    && pops <= c
    && t.counter == c - pops + (if Pushes(env, op) then 1 else 0)
    && (!op.LoadLocal? ==>
      && |t.data.UseRegisters()| == pops
      && forall i :: 0 <= i < pops ==> t.data.UseRegisters()[i].number == c - pops + i)
    && (Pushes(env, op) ==> t.data.AssignRegister().Some? && t.data.AssignRegister().value.number == c - pops)
  }

  lemma LoadFollowsStack(env: Env, op: Op, c: nat)
    requires IsLoad(op) && EmitLoad(env, op, c).Some?
    ensures FollowsStack(env, op, c, EmitLoad(env, op, c).value)
  {
  }

  lemma LocalAccessFollowsStack(env: Env, op: Op, c: nat)
    requires IsLocalAccess(op) && EmitLocal(env, op, c).Some?
    ensures FollowsStack(env, op, c, EmitLocal(env, op, c).value)
  {
  }

  lemma ArithmeticFollowsStack(env: Env, op: Op, types: seq<TypeId>, c: nat)
    requires IsArithmetic(op) && EmitArithmetic(op, types, c).Some?
    ensures FollowsStack(env, op, c, EmitArithmetic(op, types, c).value)
  {
  }

  lemma CallFollowsStack(env: Env, signature: Signature, c: nat)
    requires EmitCall(env, signature, c).Some?
    ensures FollowsStack(env, Program.Call(signature), c, EmitCall(env, signature, c).value)
  {
  }

  lemma ArrayFollowsStack(env: Env, op: Op, types: seq<TypeId>, c: nat)
    requires IsArray(op) && EmitArray(op, types, c).Some?
    ensures FollowsStack(env, op, c, EmitArray(op, types, c).value)
  {
    var t := EmitArray(op, types, c).value;
    match op
    case NewArray(e) => assert t.data.UseRegisters() == [Reg(c - 1, Int32)];
    case LoadElement(e) => assert t.data.UseRegisters() == [Reg(c - 2, Array(e)), Reg(c - 1, Int32)];
    case StoreElement(e) => assert t.data.UseRegisters() == [Reg(c - 3, Array(e)), Reg(c - 2, Int32), Reg(c - 1, e)];
    case LoadArrayLength => assert t.data.UseRegisters() == [Reg(c - 1, types[0])];
  }

  lemma ControlFollowsStack(env: Env, op: Op, types: seq<TypeId>, c: nat)
    requires IsControl(op) && EmitControl(env, types, op, c).Some?
    ensures FollowsStack(env, op, c, EmitControl(env, types, op, c).value)
  {
  }

  /** Every instruction the older compiler translates follows the operand stack. */
  lemma EmitFollowsStack(env: Env, types: seq<TypeId>, op: Op, c: nat)
    requires Emit(env, types, op, c).Some?
    ensures IsOlderInstruction(op)
    ensures FollowsStack(env, op, c, Emit(env, types, op, c).value)
  {
    if IsLoad(op) {
      LoadFollowsStack(env, op, c);
    } else if IsLocalAccess(op) {
      LocalAccessFollowsStack(env, op, c);
    } else if IsArithmetic(op) {
      ArithmeticFollowsStack(env, op, types, c);
    } else if op.Call? {
      CallFollowsStack(env, op.signature, c);
    } else if IsArray(op) {
      ArrayFollowsStack(env, op, types, c);
    } else {
      ControlFollowsStack(env, op, types, c);
    }
  }

  /** A float constant is loaded as an Int32 register holding its bit pattern. */
  lemma FloatLoadedAsBits(env: Env, types: seq<TypeId>, v: Float32Bits, c: nat)
    ensures Emit(env, types, Program.LoadFloat32(v), c) == Some(Translation(Mid.LoadInt32(Reg(c, Int32), AsI32(v.bits)), c + 1))
    ensures AsU32(AsI32(v.bits)) == v.bits
  {
  }

  /** Popping an empty operand stack panics. */
  lemma PopAtZeroPanics(env: Env, types: seq<TypeId>, op: Op)
    requires IsOlderInstruction(op) && Pops(env, op) > 0
    ensures Emit(env, types, op, 0).None?
  {
    if Emit(env, types, op, 0).Some? {
      EmitFollowsStack(env, types, op, 0);
    }
  }

  // ---------------------------------------------------------------------------------------
  // Markers
  // ---------------------------------------------------------------------------------------

  /** The instruction indices of the markers in `s`, in order. */
  function MarkerIndices(s: seq<Marked>): seq<nat> {
    if |s| == 0 then []
    else MarkerIndices(s[..|s| - 1]) + (if s[|s| - 1].Marker? then [s[|s| - 1].index] else [])
  }

  lemma {:induction false} MarkerIndicesAppend(s: seq<Marked>, u: seq<Marked>)
    ensures MarkerIndices(s + u) == MarkerIndices(s) + MarkerIndices(u)
    decreases |u|
  {
    if |u| == 0 {
      assert s + u == s;
    } else {
      var v := u[..|u| - 1];
      assert (s + u)[..|s + u| - 1] == s + v;
      MarkerIndicesAppend(s, v);
    }
  }


  /**
   * Appending one instruction's code opens it with `Marker(index)`, follows it with the label
   * marker when there is one, and adds no other marker.
   */
  lemma AdvanceMarkers(p: Progress, index: nat, marker: Option<nat>, t: Translation)
    ensures var q := Advance(p, index, marker, t);
      && |q.instructions| == |p.instructions| + (if marker.Some? then 3 else 2)
      && q.instructions[..|p.instructions|] == p.instructions
      && q.instructions[|p.instructions|] == Marker(index)
      && (marker.Some? ==> q.instructions[|p.instructions| + 1] == Instr(Mid.BranchLabel(marker.value)))
      && MarkerIndices(q.instructions) == MarkerIndices(p.instructions) + [index]
  {
    var q := Advance(p, index, marker, t);
    var tail := q.instructions[|p.instructions|..];
    assert q.instructions == p.instructions + tail;
    MarkerIndicesAppend(p.instructions, tail);
    if marker.Some? {
      var rest := [Instr(Mid.BranchLabel(marker.value)), Instr(t.data)];
      assert tail == [Marker(index)] + rest;
      MarkerIndicesAppend([Marker(index)], rest);
      assert rest[..1] == [Instr(Mid.BranchLabel(marker.value))];
      assert MarkerIndices(rest) == [];
    } else {
      assert tail == [Marker(index)] + [Instr(t.data)];
      MarkerIndicesAppend([Marker(index)], [Instr(t.data)]);
    }
    assert MarkerIndices([Marker(index)]) == [index];
  }

  /**
   * One step opens its code with `Marker(index)`, follows it with the label marker when
   * `index` is a branch target (the code is then one entry longer), and adds no other marker.
   */
  lemma StepMarkers(env: Env, p: Progress, index: nat, op: Op)
    requires StepAt(env, p, index, op).Some?
    ensures var q := StepAt(env, p, index, op).value;
      && |q.instructions| == |p.instructions| + (if index in env.labels then 3 else 2)
      && q.instructions[..|p.instructions|] == p.instructions
      && q.instructions[|p.instructions|] == Marker(index)
      && (index in env.labels ==> q.instructions[|p.instructions| + 1] == Instr(Mid.BranchLabel(env.labels[index])))
      && MarkerIndices(q.instructions) == MarkerIndices(p.instructions) + [index]
  {
    var marker := if index in env.labels then Some(env.labels[index]) else None;
    var t := Emit(env, env.operandTypes[index], op, p.counter).value;
    assert StepAt(env, p, index, op).value == Advance(p, index, marker, t);
    AdvanceMarkers(p, index, marker, t);
  }

  /** Compiling `k` instructions adds exactly the markers 0, 1, ..., k-1, in order. */
  lemma {:induction false} RunMarkers(env: Env, p: Progress, ops: seq<Op>, k: nat)
    requires k <= |ops| && RunPrefix(env, p, ops, k).Some?
    ensures MarkerIndices(RunPrefix(env, p, ops, k).value.instructions) == MarkerIndices(p.instructions) + Range(0, k)
  {
    if k > 0 {
      RunStepMarkers(env, p, ops, k);
      RunMarkers(env, p, ops, k - 1);
      RangeAppend(k - 1);
    }
  }

  /** The `k`-th step adds the marker `k - 1`. */
  lemma RunStepMarkers(env: Env, p: Progress, ops: seq<Op>, k: nat)
    requires 0 < k <= |ops| && RunPrefix(env, p, ops, k).Some?
    ensures RunPrefix(env, p, ops, k - 1).Some?
    ensures MarkerIndices(RunPrefix(env, p, ops, k).value.instructions)
      == MarkerIndices(RunPrefix(env, p, ops, k - 1).value.instructions) + [k - 1]
  {
    RunPrefixStep(env, p, ops, k - 1);
    StepMarkers(env, RunPrefix(env, p, ops, k - 1).value, k - 1, ops[k - 1]);
  }

  // ---------------------------------------------------------------------------------------
  // The compiler
  // ---------------------------------------------------------------------------------------

  class InstructionMidCompiler {
    /** The engine binder's function table, borrowed for the whole compilation. */
    const functions: map<Signature, Declaration>
    const source: Function
    const branchManager: BranchManager
    var instructions: seq<Marked>
    var localVirtualRegisters: map<nat, VirtualRegister>
    var nextStackVirtualRegister: nat

    function CurrentEnv(): Env
      reads this, branchManager
    {
      Env(localVirtualRegisters, source.declaration, source.operandTypes, functions, branchManager.branchLabels)
    }

    function CurrentProgress(): Progress
      reads this
    {
      Progress(instructions, nextStackVirtualRegister)
    }

    constructor (functions: map<Signature, Declaration>, source: Function)
      ensures this.functions == functions && this.source == source
      ensures fresh(branchManager) && branchManager.Valid() && branchManager.branchLabels == map[] && branchManager.nextBranchLabel == 0
      ensures instructions == [] && localVirtualRegisters == map[] && nextStackVirtualRegister == 0
    {
      this.functions := functions;
      this.source := source;
      branchManager := new BranchManager();
      instructions := [];
      localVirtualRegisters := map[];
      nextStackVirtualRegister := 0;
    }

    /** Pops: the counter falls by one and names the popped register. */
    method UseStackRegister(t: TypeId) returns (r: VirtualRegister)
      requires nextStackVirtualRegister > 0
      modifies this`nextStackVirtualRegister
      ensures nextStackVirtualRegister == old(nextStackVirtualRegister) - 1
      ensures r == Reg(nextStackVirtualRegister, t)
    {
      nextStackVirtualRegister := nextStackVirtualRegister - 1;
      r := Reg(nextStackVirtualRegister, t);
    }

    /** Pushes: the register is named by the counter, which then rises. */
    method AssignStackRegister(t: TypeId) returns (r: VirtualRegister)
      modifies this`nextStackVirtualRegister
      ensures r == Reg(old(nextStackVirtualRegister), t)
      ensures nextStackVirtualRegister == old(nextStackVirtualRegister) + 1
    {
      r := Reg(nextStackVirtualRegister, t);
      nextStackVirtualRegister := nextStackVirtualRegister + 1;
    }

    method Push(entry: Marked)
      modifies this`instructions
      ensures instructions == old(instructions) + [entry]
    {
      instructions := instructions + [entry];
    }

    /** The state after appending `t`'s instruction, with `t`'s counter. */
    predicate Emitted(instructions0: seq<Marked>, t: Translation)
      reads this
    {
      instructions == instructions0 + [Instr(t.data)] && nextStackVirtualRegister == t.counter
    }

    method CompileLoad(op: Op)
      requires IsLoad(op) && EmitLoad(CurrentEnv(), op, nextStackVirtualRegister).Some?
      modifies this`instructions, this`nextStackVirtualRegister
      ensures Emitted(old(instructions), EmitLoad(old(CurrentEnv()), op, old(nextStackVirtualRegister)).value)
    {
      match op
      case LoadInt32(v) =>
        var dest := AssignStackRegister(Int32);
        Push(Instr(Mid.LoadInt32(dest, v)));
      case LoadFloat32(v) =>
        var dest := AssignStackRegister(Int32);
        var bits := AsI32(v.bits);
        Push(Instr(Mid.LoadInt32(dest, bits)));
      case LoadArgument(i) =>
        var dest := AssignStackRegister(source.declaration.parameters[i]);
        Push(Instr(Mid.LoadArgument(i, dest)));
      case LoadNull(_) =>
        var dest := AssignStackRegister(Null);
        Push(Instr(Mid.LoadNull(dest)));
    }

    method CompileLocal(op: Op)
      requires IsLocalAccess(op) && EmitLocal(CurrentEnv(), op, nextStackVirtualRegister).Some?
      modifies this`instructions, this`nextStackVirtualRegister
      ensures Emitted(old(instructions), EmitLocal(old(CurrentEnv()), op, old(nextStackVirtualRegister)).value)
    {
      match op
      case LoadLocal(i) =>
        var local := localVirtualRegisters[i];
        var dest := AssignStackRegister(local.valueType);
        Push(Instr(Mid.Move(dest, local)));
      case StoreLocal(i) =>
        var local := localVirtualRegisters[i];
        var value := UseStackRegister(local.valueType);
        Push(Instr(Mid.Move(local, value)));
    }

    method CompileArithmetic(op: Op, types: seq<TypeId>)
      requires IsArithmetic(op) && EmitArithmetic(op, types, nextStackVirtualRegister).Some?
      modifies this`instructions, this`nextStackVirtualRegister
      ensures Emitted(old(instructions), EmitArithmetic(op, types, old(nextStackVirtualRegister)).value)
    {
      var valueType := types[0];
      var op2 := UseStackRegister(valueType);
      var op1 := UseStackRegister(valueType);
      var dest := AssignStackRegister(valueType);
      if valueType == Int32 {
        Push(Instr(if op.Add? then Mid.AddInt32(dest, op1, op2) else Mid.SubInt32(dest, op1, op2)));
      } else {
        Push(Instr(if op.Add? then Mid.AddFloat32(dest, op1, op2) else Mid.SubFloat32(dest, op1, op2)));
      }
    }

    /** Pops the arguments of a call, last parameter first, and returns them in parameter order. */
    method PopArguments(parameters: seq<TypeId>) returns (arguments: seq<VirtualRegister>)
      requires |parameters| <= nextStackVirtualRegister
      modifies this`nextStackVirtualRegister
      ensures nextStackVirtualRegister == old(nextStackVirtualRegister) - |parameters|
      ensures arguments == Arguments(parameters, old(nextStackVirtualRegister))
    {
      var n := |parameters|;
      ghost var c := nextStackVirtualRegister;
      var popped: seq<VirtualRegister> := [];
      var k := n;
      while k > 0
        invariant 0 <= k <= n
        invariant |popped| == n - k
        invariant nextStackVirtualRegister == c - (n - k)
        invariant forall j :: 0 <= j < |popped| ==> popped[j] == Reg(c - 1 - j, parameters[n - 1 - j])
      {
        k := k - 1;
        var r := UseStackRegister(parameters[k]);
        popped := popped + [r];
      }
      arguments := Reverse(popped);
    }

    method CompileCall(signature: Signature)
      requires EmitCall(CurrentEnv(), signature, nextStackVirtualRegister).Some?
      modifies this`instructions, this`nextStackVirtualRegister
      ensures Emitted(old(instructions), EmitCall(old(CurrentEnv()), signature, old(nextStackVirtualRegister)).value)
    {
      var callee := functions[signature];
      var arguments := PopArguments(callee.parameters);
      if callee.returnType != Void {
        var result := AssignStackRegister(callee.returnType);
        Push(Instr(Mid.Call(callee.Sig(), Some(result), arguments)));
      } else {
        Push(Instr(Mid.Call(callee.Sig(), None, arguments)));
      }
    }

    method CompileArray(op: Op, types: seq<TypeId>)
      requires IsArray(op) && EmitArray(op, types, nextStackVirtualRegister).Some?
      modifies this`instructions, this`nextStackVirtualRegister
      ensures Emitted(old(instructions), EmitArray(op, types, old(nextStackVirtualRegister)).value)
    {
      match op
      case NewArray(e) =>
        var size := UseStackRegister(Int32);
        var dest := AssignStackRegister(Array(e));
        Push(Instr(Mid.NewArray(e, dest, size)));
      case LoadElement(e) =>
        var indexReg := UseStackRegister(Int32);
        var arrayRef := UseStackRegister(Array(e));
        var dest := AssignStackRegister(e);
        Push(Instr(Mid.LoadElement(e, dest, arrayRef, indexReg)));
      case StoreElement(e) =>
        var stored := UseStackRegister(e);
        var indexReg := UseStackRegister(Int32);
        var arrayRef := UseStackRegister(Array(e));
        Push(Instr(Mid.StoreElement(e, arrayRef, indexReg, stored)));
      case LoadArrayLength =>
        var arrayRef := UseStackRegister(types[0]);
        var dest := AssignStackRegister(Int32);
        Push(Instr(Mid.LoadArrayLength(dest, arrayRef)));
    }

    method CompileControl(op: Op, types: seq<TypeId>)
      requires IsControl(op) && EmitControl(CurrentEnv(), types, op, nextStackVirtualRegister).Some?
      modifies this`instructions, this`nextStackVirtualRegister
      ensures Emitted(old(instructions), EmitControl(old(CurrentEnv()), types, op, old(nextStackVirtualRegister)).value)
    {
      match op
      case Return =>
        var returnType := source.declaration.returnType;
        if returnType != Void {
          var value := UseStackRegister(returnType);
          Push(Instr(Mid.Return(Some(value))));
        } else {
          Push(Instr(Mid.Return(None)));
        }
      case Branch(target) =>
        var found := branchManager.GetLabel(target);
        Push(Instr(Mid.Branch(found.value)));
      case BranchIf(condition, target) =>
        var compareType := types[0];
        var found := branchManager.GetLabel(target);
        var op2 := UseStackRegister(compareType);
        var op1 := UseStackRegister(compareType);
        Push(Instr(Mid.BranchCondition(condition, compareType, found.value, op1, op2)));
    }

    /** The translation of one instruction, after its markers. */
    method CompileOp(op: Op, types: seq<TypeId>)
      requires Emit(CurrentEnv(), types, op, nextStackVirtualRegister).Some?
      modifies this`instructions, this`nextStackVirtualRegister
      ensures Emitted(old(instructions), Emit(old(CurrentEnv()), types, op, old(nextStackVirtualRegister)).value)
    {
      if IsLoad(op) {
        CompileLoad(op);
      } else if IsLocalAccess(op) {
        CompileLocal(op);
      } else if IsArithmetic(op) {
        CompileArithmetic(op, types);
      } else if op.Call? {
        CompileCall(op.signature);
      } else if IsArray(op) {
        CompileArray(op, types);
      } else {
        CompileControl(op, types);
      }
    }

    /** One bytecode instruction: its marker, its label marker if it is a target, its code. */
    method CompileInstruction(index: nat, op: Op)
      requires branchManager.Valid()
      requires StepAt(CurrentEnv(), CurrentProgress(), index, op).Some?
      modifies this`instructions, this`nextStackVirtualRegister
      ensures CurrentProgress() == StepAt(old(CurrentEnv()), old(CurrentProgress()), index, op).value
    {
      var types := source.operandTypes[index];
      Push(Marker(index));
      var found := branchManager.IsBranch(index);
      if found.Some? {
        Push(Instr(Mid.BranchLabel(found.value)));
      }
      CompileOp(op, types);
    }

    /** Gives local `i` the register numbered by the counter, in declaration order. */
    method AssignLocals()
      modifies this`localVirtualRegisters, this`nextStackVirtualRegister
      ensures localVirtualRegisters == old(localVirtualRegisters) + LocalRegisters(old(nextStackVirtualRegister), source.locals)
      ensures nextStackVirtualRegister == old(nextStackVirtualRegister) + |source.locals|
    {
      ghost var c := nextStackVirtualRegister;
      ghost var before := localVirtualRegisters;
      var j := 0;
      while j < |source.locals|
        invariant 0 <= j <= |source.locals|
        invariant nextStackVirtualRegister == c + j
        invariant localVirtualRegisters == before + LocalRegisters(c, source.locals[..j])
      {
        assert LocalRegisters(c, source.locals[..j + 1]) == LocalRegisters(c, source.locals[..j])[j := Reg(c + j, source.locals[j])];
        localVirtualRegisters := localVirtualRegisters[j := Reg(nextStackVirtualRegister, source.locals[j])];
        nextStackVirtualRegister := nextStackVirtualRegister + 1;
        j := j + 1;
      }
      assert source.locals[..j] == source.locals;
    }

    /** The environment and progress once labels are defined and locals have their registers. */
    function EnvAfterSetup(ops: seq<Op>): Env
      reads this, branchManager
    {
      Env(localVirtualRegisters + LocalRegisters(nextStackVirtualRegister, source.locals), source.declaration,
        source.operandTypes, functions, LabelTargets(branchManager.branchLabels, branchManager.nextBranchLabel, TargetsOf(ops)).0)
    }

    function ProgressAfterSetup(): Progress
      reads this
    {
      Progress(instructions, nextStackVirtualRegister + |source.locals|)
    }

    /** Labels the branch targets, gives each local its register, then compiles every instruction. */
    method Compile(ops: seq<Op>)
      requires branchManager.Valid()
      requires RunPrefix(EnvAfterSetup(ops), ProgressAfterSetup(), ops, |ops|).Some?
      modifies this, branchManager
      ensures branchManager.Valid()
      ensures localVirtualRegisters == old(localVirtualRegisters) + LocalRegisters(old(nextStackVirtualRegister), source.locals)
      ensures CurrentProgress() == RunPrefix(old(EnvAfterSetup(ops)), old(ProgressAfterSetup()), ops, |ops|).value
    {
      ghost var env := EnvAfterSetup(ops);
      ghost var start := ProgressAfterSetup();
      branchManager.DefineBranchLabels(ops);
      AssignLocals();
      assert CurrentEnv() == env && CurrentProgress() == start;
      CompileInstructions(ops);
    }

    /** Compiles every instruction in order. */
    method CompileInstructions(ops: seq<Op>)
      requires branchManager.Valid()
      requires RunPrefix(CurrentEnv(), CurrentProgress(), ops, |ops|).Some?
      modifies this`instructions, this`nextStackVirtualRegister
      ensures CurrentProgress() == RunPrefix(old(CurrentEnv()), old(CurrentProgress()), ops, |ops|).value
    {
      ghost var env := CurrentEnv();
      ghost var start := CurrentProgress();
      var i := 0;
      while i < |ops|
        invariant 0 <= i <= |ops|
        invariant CurrentEnv() == env
        invariant RunPrefix(env, start, ops, i).Some? && CurrentProgress() == RunPrefix(env, start, ops, i).value
      {
        RunPrefixSome(env, start, ops, i + 1);
        RunPrefixStep(env, start, ops, i);
        CompileInstruction(i, ops[i]);
        i := i + 1;
      }
    }

    /** The marked code. */
    function Done(): (r: seq<Marked>)
      reads this
      ensures r == instructions
    {
      instructions
    }
  }

  lemma RunPrefixStep(env: Env, p: Progress, ops: seq<Op>, k: nat)
    requires k < |ops| && RunPrefix(env, p, ops, k + 1).Some?
    ensures RunPrefix(env, p, ops, k).Some?
    ensures RunPrefix(env, p, ops, k + 1) == StepAt(env, RunPrefix(env, p, ops, k).value, k, ops[k])
  {
  }

  /** A run that reaches instruction `k` has reached every earlier one. */
  lemma RunPrefixSome(env: Env, p: Progress, ops: seq<Op>, k: nat)
    requires k <= |ops| && RunPrefix(env, p, ops, |ops|).Some?
    ensures RunPrefix(env, p, ops, k).Some?
    decreases |ops| - k
  {
    if k < |ops| {
      RunPrefixSome(env, p, ops, k + 1);
    }
  }

  /** The environment of compiling `f` with a fresh compiler. */
  function InitialEnv(functions: map<Signature, Declaration>, f: Function): Env {
    Env(LocalRegisters(0, f.locals), f.declaration, f.operandTypes, functions, LabelTargets(map[], 0, TargetsOf(f.instructions)).0)
  }

  /** The marked code of `f`, by the specification functions. */
  function Compiled(functions: map<Signature, Declaration>, f: Function): Option<Progress> {
    RunPrefix(InitialEnv(functions, f), Progress([], |f.locals|), f.instructions, |f.instructions|)
  }

  /** The marked code of a function holds one marker per bytecode instruction, in order. */
  lemma CompiledMarkers(functions: map<Signature, Declaration>, f: Function)
    requires Compiled(functions, f).Some?
    ensures MarkerIndices(Compiled(functions, f).value.instructions) == Range(0, |f.instructions|)
  {
    RunMarkers(InitialEnv(functions, f), Progress([], |f.locals|), f.instructions, |f.instructions|);
  }

  /**
   * Compiling a function with a fresh compiler: local `i` takes register `i`, the operand
   * counter starts at the number of locals, and the code is the compiled form's.
   */
  method CompileFunction(functions: map<Signature, Declaration>, f: Function) returns (code: seq<Marked>, locals: map<nat, VirtualRegister>)
    requires Compiled(functions, f).Some?
    ensures locals == LocalRegisters(0, f.locals)
    ensures code == Compiled(functions, f).value.instructions
  {
    var compiler := new InstructionMidCompiler(functions, f);
    assert compiler.EnvAfterSetup(f.instructions) == InitialEnv(functions, f);
    assert map[] + LocalRegisters(0, f.locals) == LocalRegisters(0, f.locals);
    compiler.Compile(f.instructions);
    code := compiler.Done();
    locals := compiler.localVirtualRegisters;
  }
}
