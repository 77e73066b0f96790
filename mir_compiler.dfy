/**
 * The translation of stack bytecode into the mid-level IR. The operand stack becomes a counter:
 * pushing a value takes the register numbered by the counter and increments it, popping
 * decrements it and takes the register with the new number. Locals own the registers below the
 * operand registers.
 *
 * `Emit` and `StepAt` give the meaning of one instruction; a `None` result is an input on which
 * the code panics. The compiler class is proved to follow them.
 */
module MirCompiler {
  import opened Wrappers
  import opened Sequences
  import opened Scalars
  import opened TypeIds
  import opened Program
  import opened Mir
  import opened Branches

  function Max(a: nat, b: nat): nat { if a < b then b else a }

  /** Everything an instruction's translation reads besides the counter. */
  datatype Env = Env(
    locals: seq<RegisterMir>,
    declaration: Declaration,
    operandTypes: seq<seq<TypeId>>,
    functions: map<Signature, Declaration>,
    labels: map<nat, nat>,
    macros: map<Signature, MirData>)

  /** What the compiler has built so far. */
  datatype Progress = Progress(
    instructions: seq<InstructionMir>,
    operands: seq<seq<RegisterMir>>,
    counter: nat,
    max: nat)

  /**
   * The code of one bytecode instruction: the emitted instruction, the counter after it, and
   * whether it pushed a register (only a push can raise the register maximum).
   */
  datatype Translation = Translation(data: MirData, counter: nat, pushed: bool)

  /** Register `n` holding a value of type `t`. */
  function Reg(n: nat, t: TypeId): RegisterMir { RegisterMir(n, t) }

  /** The calls that expand in place instead of calling: the collector and the stack-frame dump. */
  function GcCollectSignature(): Signature { Signature("std.gc.collect", []) }
  function PrintStackFrameSignature(): Signature { Signature("std.gc.print_stack_frame", []) }

  function Macros(): map<Signature, MirData> {
    map[GcCollectSignature() := Mir.GarbageCollect, PrintStackFrameSignature() := Mir.PrintStackFrame]
  }

  /** Pops two operands of type `t` and pushes the result: the result reuses the first operand's register. */
  function EmitBinary(op: Op, t: TypeId, c: nat): Option<Translation>
    requires IsBinary(op)
  {
    if c < 2 then None
    else
      var dest, op1, op2 := Reg(c - 2, t), Reg(c - 2, t), Reg(c - 1, t);
      var data :-
        if op.Add? && t == Int32 then Some(Mir.AddInt32(dest, op1, op2))
        else if op.Add? && t == Float32 then Some(Mir.AddFloat32(dest, op1, op2))
        else if op.Sub? && t == Int32 then Some(Mir.SubInt32(dest, op1, op2))
        else if op.Sub? && t == Float32 then Some(Mir.SubFloat32(dest, op1, op2))
        else if op.Multiply? && t == Int32 then Some(Mir.MultiplyInt32(dest, op1, op2))
        else if op.Multiply? && t == Float32 then Some(Mir.MultiplyFloat32(dest, op1, op2))
        else if op.Divide? && t == Int32 then Some(Mir.DivideInt32(dest, op1, op2))
        else if op.Divide? && t == Float32 then Some(Mir.DivideFloat32(dest, op1, op2))
        else if op.And? && t == Bool then Some(Mir.AndBool(dest, op1, op2))
        else if op.Or? && t == Bool then Some(Mir.OrBool(dest, op1, op2))
        else None;
      Some(Translation(data, c - 1, true))
  }

  /** The arguments of a call with parameter types `parameters`, popped from counter `c`. */
  function Arguments(parameters: seq<TypeId>, c: nat): (r: seq<RegisterMir>)
    requires |parameters| <= c
    ensures |r| == |parameters|
    ensures forall i :: 0 <= i < |r| ==> r[i] == Reg(c - |parameters| + i, parameters[i])
  {
    seq(|parameters|, i requires 0 <= i < |parameters| => Reg(c - |parameters| + i, parameters[i]))
  }

  /** A call: a macro expands in place; otherwise the arguments are popped and a non-void result pushed. */
  function EmitCall(env: Env, signature: Signature, c: nat): Option<Translation> {
    if signature in env.macros then Some(Translation(env.macros[signature], c, false))
    else if signature !in env.functions then None
    else
      var callee := env.functions[signature];
      var n := |callee.parameters|;
      if c < n then None
      else
        var arguments := Arguments(callee.parameters, c);
        if callee.returnType != Void then
          Some(Translation(Mir.Call(callee.Sig(), Some(Reg(c - n, callee.returnType)), arguments), c - n + 1, true))
        else
          Some(Translation(Mir.Call(callee.Sig(), None, arguments), c - n, false))
  }

  /** Array and object access. */
  function EmitMemory(op: Op, types: seq<TypeId>, c: nat): Option<Translation>
    requires IsMemory(op)
  {
    match op
    case NewArray(e) =>
      if c < 1 then None else Some(Translation(Mir.NewArray(e, Reg(c - 1, Array(e)), Reg(c - 1, Int32)), c, true))
    case LoadElement(e) =>
      if c < 2 then None else Some(Translation(Mir.LoadElement(e, Reg(c - 2, e), Reg(c - 2, Array(e)), Reg(c - 1, Int32)), c - 1, true))
    case StoreElement(e) =>
      if c < 3 then None else Some(Translation(Mir.StoreElement(e, Reg(c - 3, Array(e)), Reg(c - 2, Int32), Reg(c - 1, e)), c - 3, false))
    case LoadArrayLength =>
      if |types| == 0 || c < 1 then None else Some(Translation(Mir.LoadArrayLength(Reg(c - 1, Int32), Reg(c - 1, types[0])), c, true))
    case NewObject(className) =>
      Some(Translation(Mir.NewObject(Class(className), Reg(c, Class(className))), c + 1, true))
    case LoadField(className, field) =>
      var t := Class(className);
      if c < 1 then None else Some(Translation(Mir.LoadField(t, field, Reg(c - 1, t), Reg(c - 1, t)), c, true))
    case StoreField(className, field) =>
      var t := Class(className);
      if c < 2 then None else Some(Translation(Mir.StoreField(t, field, Reg(c - 2, t), Reg(c - 1, t)), c - 2, false))
  }

  predicate IsLoad(op: Op) { op.LoadInt32? || op.LoadFloat32? || op.LoadTrue? || op.LoadFalse? || op.LoadArgument? || op.LoadNull? }
  predicate IsLocalAccess(op: Op) { op.LoadLocal? || op.StoreLocal? }
  predicate IsBinary(op: Op) { op.Add? || op.Sub? || op.Multiply? || op.Divide? || op.And? || op.Or? }
  predicate IsMemory(op: Op) { op.NewArray? || op.LoadElement? || op.StoreElement? || op.LoadArrayLength? || op.NewObject? || op.LoadField? || op.StoreField? }
  predicate IsControl(op: Op) { op.Not? || op.Return? || op.Branch? || op.BranchIf? || op.Compare? }

  /** Constants, arguments and null: each pushes one register. */
  function EmitLoad(env: Env, op: Op, c: nat): Option<Translation>
    requires IsLoad(op)
  {
    match op
    case LoadInt32(v) => Some(Translation(Mir.LoadInt32(Reg(c, Int32), v), c + 1, true))
    case LoadFloat32(v) => Some(Translation(Mir.LoadFloat32(Reg(c, Float32), v), c + 1, true))
    case LoadTrue => Some(Translation(Mir.LoadBool(Reg(c, Bool), true), c + 1, true))
    case LoadFalse => Some(Translation(Mir.LoadBool(Reg(c, Bool), false), c + 1, true))
    case LoadArgument(i) =>
      if i >= |env.declaration.parameters| then None
      else Some(Translation(Mir.LoadArgument(i, Reg(c, env.declaration.parameters[i])), c + 1, true))
    case LoadNull(t) => Some(Translation(Mir.LoadNull(Reg(c, t)), c + 1, true))
  }

  /** A local is read by a move into a pushed register and written by a move from a popped one. */
  function EmitLocal(env: Env, op: Op, c: nat): Option<Translation>
    requires IsLocalAccess(op)
  {
    match op
    case LoadLocal(i) =>
      if i >= |env.locals| then None
      else Some(Translation(Mir.Move(Reg(c, env.locals[i].valueType), env.locals[i]), c + 1, true))
    case StoreLocal(i) =>
      if i >= |env.locals| || c < 1 then None
      else Some(Translation(Mir.Move(env.locals[i], Reg(c - 1, env.locals[i].valueType)), c - 1, false))
  }

  /** Negation, return, branches and comparison. */
  function EmitControl(env: Env, types: seq<TypeId>, op: Op, c: nat): Option<Translation>
    requires IsControl(op)
  {
    match op
    case Not =>
      if |types| == 0 || c < 1 || types[0] != Bool then None
      else Some(Translation(Mir.NotBool(Reg(c - 1, Bool), Reg(c - 1, Bool)), c, true))
    case Return =>
      var returnType := env.declaration.returnType;
      if returnType == Void then Some(Translation(Mir.Return(None), c, false))
      else if c < 1 then None
      else Some(Translation(Mir.Return(Some(Reg(c - 1, returnType))), c - 1, false))
    case Branch(target) =>
      if target !in env.labels then None else Some(Translation(Mir.Branch(env.labels[target]), c, false))
    case BranchIf(condition, target) =>
      if target !in env.labels || |types| == 0 || c < 2 then None
      else Some(Translation(Mir.BranchCondition(condition, types[0], env.labels[target], Reg(c - 2, types[0]), Reg(c - 1, types[0])), c - 2, false))
    case Compare(condition) =>
      if |types| == 0 || c < 2 then None
      else Some(Translation(Mir.Compare(condition, types[0], Reg(c - 2, Bool), Reg(c - 2, types[0]), Reg(c - 1, types[0])), c - 1, true))
  }

  /**
   * The instruction `op` at counter `c` with recorded operand types `types`: the emitted
   * instruction and the new counter, or `None` where the code panics.
   */
  function Emit(env: Env, types: seq<TypeId>, op: Op, c: nat): Option<Translation> {
    if IsLoad(op) then EmitLoad(env, op, c)
    else if IsLocalAccess(op) then EmitLocal(env, op, c)
    else if IsBinary(op) then (if |types| == 0 then None else EmitBinary(op, types[0], c))
    else if op.Call? then EmitCall(env, op.signature, c)
    else if IsMemory(op) then EmitMemory(op, types, c)
    else EmitControl(env, types, op, c)
  }

  /**
   * The operand registers recorded for an instruction: one per recorded operand type, numbered
   * on from the locals the same way the locals are numbered from zero.
   */
  function OperandEntry(numLocals: nat, types: seq<TypeId>): (r: seq<RegisterMir>)
    ensures |r| == |types|
    ensures forall i :: 0 <= i < |r| ==> r[i] == Reg(numLocals + i, types[i])
  {
    LocalRegisters(numLocals, types)
  }

  /**
   * One bytecode instruction at `index`: a label marker first if it is a branch target, then
   * its operand entry and its translation.
   */
  function StepAt(env: Env, p: Progress, index: nat, op: Op): Option<Progress> {
    if index >= |env.operandTypes| then None
    else
      var types := env.operandTypes[index];
      var t :- Emit(env, types, op, p.counter);
      Some(Advance(p, index, if index in env.labels then Some(env.labels[index]) else None, OperandEntry(|env.locals|, types), t))
  }

  /**
   * Appends the code of instruction `index`: the label marker `marker` if there is one (with an
   * empty operand entry), then the operand entry and `t`'s instruction; the counter becomes `t`'s
   * and a push raises the maximum to it.
   */
  function Advance(p: Progress, index: nat, marker: Option<nat>, entry: seq<RegisterMir>, t: Translation): Progress {
    var labelled := if marker.Some? then p.instructions + [InstructionMir(index, Mir.BranchLabel(marker.value))] else p.instructions;
    var entries := (if marker.Some? then p.operands + [[]] else p.operands) + [entry];
    Progress(labelled + [InstructionMir(index, t.data)], entries, t.counter,
      if t.pushed then Max(p.max, t.counter) else p.max)
  }

  /** The first `k` instructions of `ops`, from progress `p`. */
  function RunPrefix(env: Env, p: Progress, ops: seq<Op>, k: nat): Option<Progress>
    requires k <= |ops|
  {
    if k == 0 then Some(p)
    else
      var q :- RunPrefix(env, p, ops, k - 1);
      StepAt(env, q, k - 1, ops[k - 1])
  }

  /** The registers given to locals, numbered from `c` in declaration order. */
  function LocalRegisters(c: nat, types: seq<TypeId>): (r: seq<RegisterMir>)
    ensures |r| == |types|
    ensures forall i :: 0 <= i < |r| ==> r[i] == Reg(c + i, types[i])
  {
    seq(|types|, i requires 0 <= i < |types| => Reg(c + i, types[i]))
  }

  // ---------------------------------------------------------------------------------------
  // Properties of one instruction
  // ---------------------------------------------------------------------------------------

  /** Binary operators pop the right then the left operand; the result takes the left operand's number. */
  lemma BinaryNumbering(env: Env, types: seq<TypeId>, op: Op, c: nat)
    requires IsBinary(op)
    requires Emit(env, types, op, c).Some?
    ensures var t := Emit(env, types, op, c).value;
      && c >= 2 && t.counter == c - 1 && t.pushed
      && t.data.Registers() == [Reg(c - 2, types[0]), Reg(c - 2, types[0]), Reg(c - 1, types[0])]
  {
  }

  /** A binary operator on a type it does not support panics. */
  lemma BinaryRejectsType(env: Env, types: seq<TypeId>, op: Op, c: nat)
    requires op.Add? || op.Sub? || op.Multiply? || op.Divide?
    requires |types| > 0 && types[0] != Int32 && types[0] != Float32
    ensures Emit(env, types, op, c).None?
  {
  }

  /**
   * A call's `i`-th argument is the register of its `i`-th parameter, the deepest of the popped
   * ones first; a result register is pushed iff the callee is not void.
   */
  lemma CallArgumentOrder(env: Env, types: seq<TypeId>, signature: Signature, c: nat)
    requires signature !in env.macros
    requires Emit(env, types, Program.Call(signature), c).Some?
    ensures var callee := env.functions[signature]; var n := |callee.parameters|;
      var t := Emit(env, types, Program.Call(signature), c).value;
      && t.data.Call? && n <= c && |t.data.arguments| == n
      && (forall i :: 0 <= i < n ==> t.data.arguments[i] == Reg(c - n + i, callee.parameters[i]))
      && (t.data.callResult.Some? <==> callee.returnType != Void)
      && (t.pushed <==> callee.returnType != Void)
      && t.counter == c - n + (if callee.returnType != Void then 1 else 0)
  {
  }

  /** The collector and stack-frame calls expand to their own instruction and leave the counter alone. */
  lemma MacroCalls(env: Env, types: seq<TypeId>, c: nat)
    requires env.macros == Macros()
    ensures Emit(env, types, Program.Call(GcCollectSignature()), c) == Some(Translation(Mir.GarbageCollect, c, false))
    ensures Emit(env, types, Program.Call(PrintStackFrameSignature()), c) == Some(Translation(Mir.PrintStackFrame, c, false))
  {
  }

  /**
   * How a translation from counter `c` numbers its registers: a pushed register is numbered by
   * the counter left after the instruction, minus one (an assign followed by a use yields the same
   * register); an instruction that pushes nothing never raises the counter; and every register it
   * mentions is a local, one below `c` (a popped one), or the one it pushes.
   */
  ghost predicate WellNumbered(t: Translation, c: nat, locals: seq<RegisterMir>) {
    && (t.pushed ==> t.counter >= 1 && t.data.AssignRegister().Some? && t.data.AssignRegister().value.number == t.counter - 1)
    && (!t.pushed ==> t.counter <= c)
    && forall r :: r in t.data.Registers() ==> r.number < c || r in locals || (t.pushed && r.number == t.counter - 1)
  }

  lemma CallNumbering(env: Env, signature: Signature, c: nat)
    requires MacrosWithoutRegisters(env.macros)
    requires EmitCall(env, signature, c).Some?
    ensures WellNumbered(EmitCall(env, signature, c).value, c, env.locals)
  {
    var t := EmitCall(env, signature, c).value;
    if signature !in env.macros {
      forall r | r in t.data.Registers()
        ensures r.number < c || (t.pushed && r.number == t.counter - 1)
      {
        if r !in t.data.arguments {
          assert t.data.callResult.Some? && r == t.data.callResult.value;
        }
      }
    }
  }

  lemma BinaryWellNumbered(op: Op, t: TypeId, c: nat)
    requires IsBinary(op)
    requires EmitBinary(op, t, c).Some?
    ensures WellNumbered(EmitBinary(op, t, c).value, c, [])
  {
  }

  lemma ArrayNumbering(op: Op, types: seq<TypeId>, c: nat)
    requires op.NewArray? || op.LoadElement? || op.StoreElement? || op.LoadArrayLength?
    requires EmitMemory(op, types, c).Some?
    ensures WellNumbered(EmitMemory(op, types, c).value, c, [])
  {
    var t := EmitMemory(op, types, c).value;
    match op
    case NewArray(e) => assert t.data.Registers() == [Reg(c - 1, Array(e)), Reg(c - 1, Int32)];
    case LoadElement(e) => assert t.data.Registers() == [Reg(c - 2, e), Reg(c - 2, Array(e)), Reg(c - 1, Int32)];
    case StoreElement(e) => assert t.data.Registers() == [Reg(c - 3, Array(e)), Reg(c - 2, Int32), Reg(c - 1, e)];
    case LoadArrayLength => assert t.data.Registers() == [Reg(c - 1, Int32), Reg(c - 1, types[0])];
  }

  lemma ObjectNumbering(op: Op, types: seq<TypeId>, c: nat)
    requires op.NewObject? || op.LoadField? || op.StoreField?
    requires EmitMemory(op, types, c).Some?
    ensures WellNumbered(EmitMemory(op, types, c).value, c, [])
  {
    var t := EmitMemory(op, types, c).value;
    match op
    case NewObject(className) => assert t.data.Registers() == [Reg(c, Class(className))];
    case LoadField(className, _) => assert t.data.Registers() == [Reg(c - 1, Class(className)), Reg(c - 1, Class(className))];
    case StoreField(className, _) => assert t.data.Registers() == [Reg(c - 2, Class(className)), Reg(c - 1, Class(className))];
  }

  lemma LoadNumbering(env: Env, op: Op, c: nat)
    requires IsLoad(op)
    requires EmitLoad(env, op, c).Some?
    ensures WellNumbered(EmitLoad(env, op, c).value, c, env.locals)
  {
    var t := EmitLoad(env, op, c).value;
    assert t.pushed && t.counter == c + 1;
    match op
    case LoadInt32(_) => assert t.data.Registers() == [Reg(c, Int32)];
    case LoadFloat32(_) => assert t.data.Registers() == [Reg(c, Float32)];
    case LoadTrue => assert t.data.Registers() == [Reg(c, Bool)];
    case LoadFalse => assert t.data.Registers() == [Reg(c, Bool)];
    case LoadArgument(i) => assert t.data.Registers() == [Reg(c, env.declaration.parameters[i])];
    case LoadNull(n) => assert t.data.Registers() == [Reg(c, n)];
  }

  lemma LocalAccessNumbering(env: Env, op: Op, c: nat)
    requires IsLocalAccess(op)
    requires EmitLocal(env, op, c).Some?
    ensures WellNumbered(EmitLocal(env, op, c).value, c, env.locals)
  {
  }

  lemma ControlNumbering(env: Env, types: seq<TypeId>, op: Op, c: nat)
    requires IsControl(op)
    requires EmitControl(env, types, op, c).Some?
    ensures WellNumbered(EmitControl(env, types, op, c).value, c, env.locals)
  {
    var t := EmitControl(env, types, op, c).value;
    match op
    case Not => assert t.data.Registers() == [Reg(c - 1, Bool), Reg(c - 1, Bool)];
    case Return => assert forall r :: r in t.data.Registers() ==> r.number == c - 1;
    case Branch(_) => assert t.data.Registers() == [];
    case BranchIf(_, _) => assert t.data.Registers() == [Reg(c - 2, types[0]), Reg(c - 1, types[0])];
    case Compare(_) => assert t.data.Registers() == [Reg(c - 2, Bool), Reg(c - 2, types[0]), Reg(c - 1, types[0])];
  }

  /** Every instruction's translation is well numbered, given macros that mention no register. */
  lemma EmitNumbering(env: Env, types: seq<TypeId>, op: Op, c: nat)
    requires MacrosWithoutRegisters(env.macros)
    requires Emit(env, types, op, c).Some?
    ensures WellNumbered(Emit(env, types, op, c).value, c, env.locals)
  {
    if IsLoad(op) {
      LoadNumbering(env, op, c);
    } else if IsLocalAccess(op) {
      LocalAccessNumbering(env, op, c);
    } else if IsBinary(op) {
      BinaryWellNumbered(op, types[0], c);
    } else if op.Call? {
      CallNumbering(env, op.signature, c);
    } else if op.NewObject? || op.LoadField? || op.StoreField? {
      ObjectNumbering(op, types, c);
    } else if IsMemory(op) {
      ArrayNumbering(op, types, c);
    } else {
      ControlNumbering(env, types, op, c);
    }
  }

  /** Registers are below the maximum, and so is the counter. */
  ghost predicate Bounded(env: Env, p: Progress) {
    && p.counter <= p.max
    && (forall r :: r in env.locals ==> r.number < p.max)
    && (forall k, r :: 0 <= k < |p.instructions| && r in p.instructions[k].data.Registers() ==> r.number < p.max)
  }

  /** No macro expansion mentions a register. */
  ghost predicate MacrosWithoutRegisters(macros: map<Signature, MirData>) {
    forall s :: s in macros ==> macros[s].Registers() == []
  }

  lemma MacroTableWithoutRegisters()
    ensures MacrosWithoutRegisters(Macros())
  {
  }

  lemma AdvanceBounded(env: Env, p: Progress, index: nat, marker: Option<nat>, entry: seq<RegisterMir>, t: Translation)
    requires Bounded(env, p) && WellNumbered(t, p.counter, env.locals)
    ensures Bounded(env, Advance(p, index, marker, entry, t))
    ensures |Advance(p, index, marker, entry, t).instructions| - |p.instructions| == |Advance(p, index, marker, entry, t).operands| - |p.operands|
  {
    var q := Advance(p, index, marker, entry, t);
    var n := |p.instructions|;
    assert q.instructions[|q.instructions| - 1].data == t.data;
    if marker.Some? {
      assert q.instructions[n].data == Mir.BranchLabel(marker.value);
    }
    forall k, r | 0 <= k < |q.instructions| && r in q.instructions[k].data.Registers()
      ensures r.number < q.max
    {
      if k < n {
        assert q.instructions[k] == p.instructions[k];
      }
    }
  }

  lemma StepBounded(env: Env, p: Progress, index: nat, op: Op)
    requires MacrosWithoutRegisters(env.macros) && Bounded(env, p)
    requires StepAt(env, p, index, op).Some?
    ensures Bounded(env, StepAt(env, p, index, op).value)
    ensures |StepAt(env, p, index, op).value.instructions| == |StepAt(env, p, index, op).value.operands| - |p.operands| + |p.instructions|
  {
    var types := env.operandTypes[index];
    EmitNumbering(env, types, op, p.counter);
    AdvanceBounded(env, p, index, if index in env.labels then Some(env.labels[index]) else None,
      OperandEntry(|env.locals|, types), Emit(env, types, op, p.counter).value);
  }

  /**
   * Compiling any prefix keeps every register below the recorded maximum (so the maximum is a
   * correct register count) and keeps one operand entry per emitted instruction.
   */
  lemma {:induction false} RunBounded(env: Env, p: Progress, ops: seq<Op>, k: nat)
    requires k <= |ops|
    requires MacrosWithoutRegisters(env.macros) && Bounded(env, p) && |p.instructions| == |p.operands|
    requires RunPrefix(env, p, ops, k).Some?
    ensures Bounded(env, RunPrefix(env, p, ops, k).value)
    ensures |RunPrefix(env, p, ops, k).value.instructions| == |RunPrefix(env, p, ops, k).value.operands|
  {
    if k > 0 {
      RunBounded(env, p, ops, k - 1);
      StepBounded(env, RunPrefix(env, p, ops, k - 1).value, k - 1, ops[k - 1]);
    }
  }

  /** A branch target gets its label marker, with an empty operand entry, before its own code. */
  lemma LabelBeforeTarget(env: Env, p: Progress, index: nat, op: Op)
    requires index in env.labels
    requires StepAt(env, p, index, op).Some?
    ensures var q := StepAt(env, p, index, op).value;
      && |q.instructions| == |p.instructions| + 2
      && q.instructions[|p.instructions|] == InstructionMir(index, Mir.BranchLabel(env.labels[index]))
      && q.operands[|p.operands|] == []
  {
  }

  // ---------------------------------------------------------------------------------------
  // The counter is the operand-stack depth
  // ---------------------------------------------------------------------------------------

  /** How many operands `op` pops, by the bytecode's stack discipline. */
  function Pops(env: Env, op: Op): nat {
    match op
    case StoreLocal(_) => 1
    case Add => 2
    case Sub => 2
    case Multiply => 2
    case Divide => 2
    case And => 2
    case Or => 2
    case Not => 1
    case Call(signature) =>
      if signature in env.macros || signature !in env.functions then 0 else |env.functions[signature].parameters|
    case Return => if env.declaration.returnType == Void then 0 else 1
    case NewArray(_) => 1
    case LoadElement(_) => 2
    case StoreElement(_) => 3
    case LoadArrayLength => 1
    case LoadField(_, _) => 1
    case StoreField(_, _) => 2
    case BranchIf(_, _) => 2
    case Compare(_) => 2
    case _ => 0
  }

  /** How many operands `op` pushes. */
  function Pushes(env: Env, op: Op): nat {
    match op
    case StoreLocal(_) => 0
    case Call(signature) =>
      if signature in env.macros || signature !in env.functions || env.functions[signature].returnType == Void then 0 else 1
    case Return => 0
    case StoreElement(_) => 0
    case StoreField(_, _) => 0
    case Branch(_) => 0
    case BranchIf(_, _) => 0
    case _ => 1
  }

  /** The operand-stack depth after the first `k` instructions, relative to the start. */
  function Depth(env: Env, ops: seq<Op>, k: nat): int
    requires k <= |ops|
  {
    if k == 0 then 0 else Depth(env, ops, k - 1) - Pops(env, ops[k - 1]) + Pushes(env, ops[k - 1])
  }

  /** Every instruction that compiles pops what its stack effect says it pops and pushes what it pushes. */
  lemma EmitEffect(env: Env, types: seq<TypeId>, op: Op, c: nat)
    requires Emit(env, types, op, c).Some?
    ensures c >= Pops(env, op)
    ensures Emit(env, types, op, c).value.counter == c - Pops(env, op) + Pushes(env, op)
  {
  }

  /** Compiling a prefix moves the counter by exactly the prefix's stack depth. */
  lemma {:induction false} CounterIsDepth(env: Env, p: Progress, ops: seq<Op>, k: nat)
    requires k <= |ops| && RunPrefix(env, p, ops, k).Some?
    ensures RunPrefix(env, p, ops, k).value.counter == p.counter + Depth(env, ops, k)
  {
    if k > 0 {
      CounterIsDepth(env, p, ops, k - 1);
      var q := RunPrefix(env, p, ops, k - 1).value;
      EmitEffect(env, env.operandTypes[k - 1], ops[k - 1], q.counter);
    }
  }

  /**
   * In a function whose recorded operand types have the stack's depth before every instruction,
   * the counter before instruction `k` is the number of locals plus that depth, so the operand
   * entry recorded for `k` names exactly the registers between the locals and the counter.
   */
  lemma OperandEntryIsStack(functions: map<Signature, Declaration>, f: Function, k: nat)
    requires Compiled(functions, f).Some? && k < |f.instructions|
    requires |f.operandTypes[k]| == Depth(InitialEnv(functions, f), f.instructions, k)
    ensures RunPrefix(InitialEnv(functions, f), InitialProgress(f), f.instructions, k).Some?
    ensures var c := RunPrefix(InitialEnv(functions, f), InitialProgress(f), f.instructions, k).value.counter;
      && c == |f.locals| + |f.operandTypes[k]|
      && forall i :: 0 <= i < |f.operandTypes[k]| ==>
           OperandEntry(|f.locals|, f.operandTypes[k])[i].number == c - |f.operandTypes[k]| + i
  {
    var env := InitialEnv(functions, f);
    RunPrefixSome(env, InitialProgress(f), f.instructions, k);
    CounterIsDepth(env, InitialProgress(f), f.instructions, k);
  }

  // ---------------------------------------------------------------------------------------
  // The compiler
  // ---------------------------------------------------------------------------------------

  /** The result of compiling one function. */
  datatype MirCompilationResult = MirCompilationResult(
    instructions: seq<InstructionMir>,
    numVirtualRegisters: nat,
    localVirtualRegisters: seq<RegisterMir>,
    needZeroInitializeRegisters: seq<RegisterMir>,
    instructionsOperandStack: seq<seq<RegisterMir>>)

  class InstructionMirCompiler {
    /** The binder's function table, borrowed for the whole compilation. */
    const functions: map<Signature, Declaration>
    const source: Function
    const branchManager: BranchManager
    var instructions: seq<InstructionMir>
    var localVirtualRegisters: seq<RegisterMir>
    var nextOperandVirtualRegister: nat
    var maxNumVirtualRegister: nat
    var instructionsOperands: seq<seq<RegisterMir>>
    var macros: map<Signature, MirData>

    function CurrentEnv(): Env
      reads this, branchManager
    {
      Env(localVirtualRegisters, source.declaration, source.operandTypes, functions, branchManager.branchLabels, macros)
    }

    function CurrentProgress(): Progress
      reads this
    {
      Progress(instructions, instructionsOperands, nextOperandVirtualRegister, maxNumVirtualRegister)
    }

    constructor (functions: map<Signature, Declaration>, source: Function)
      ensures this.functions == functions && this.source == source
      ensures fresh(branchManager) && branchManager.Valid() && branchManager.branchLabels == map[] && branchManager.nextBranchLabel == 0
      ensures instructions == [] && localVirtualRegisters == [] && instructionsOperands == []
      ensures nextOperandVirtualRegister == 0 && maxNumVirtualRegister == 0
      ensures macros == Macros()
    {
      this.functions := functions;
      this.source := source;
      branchManager := new BranchManager();
      instructions := [];
      localVirtualRegisters := [];
      nextOperandVirtualRegister := 0;
      maxNumVirtualRegister := 0;
      instructionsOperands := [];
      macros := map[];
      new;
      MakeMacro(GcCollectSignature(), Mir.GarbageCollect);
      MakeMacro(PrintStackFrameSignature(), Mir.PrintStackFrame);
    }

    method MakeMacro(signature: Signature, expansion: MirData)
      modifies this`macros
      ensures macros == old(macros)[signature := expansion]
    {
      macros := macros[signature := expansion];
    }

    /** Pops: the counter falls by one and names the popped register. */
    method UseStackRegister(t: TypeId) returns (r: RegisterMir)
      requires nextOperandVirtualRegister > 0
      modifies this`nextOperandVirtualRegister
      ensures nextOperandVirtualRegister == old(nextOperandVirtualRegister) - 1
      ensures r == Reg(nextOperandVirtualRegister, t)
    {
      nextOperandVirtualRegister := nextOperandVirtualRegister - 1;
      r := Reg(nextOperandVirtualRegister, t);
    }

    /** Pushes: the register is named by the counter, which then rises and raises the maximum. */
    method AssignStackRegister(t: TypeId) returns (r: RegisterMir)
      modifies this`nextOperandVirtualRegister, this`maxNumVirtualRegister
      ensures r == Reg(old(nextOperandVirtualRegister), t)
      ensures nextOperandVirtualRegister == old(nextOperandVirtualRegister) + 1
      ensures maxNumVirtualRegister == Max(old(maxNumVirtualRegister), nextOperandVirtualRegister)
    {
      r := Reg(nextOperandVirtualRegister, t);
      nextOperandVirtualRegister := nextOperandVirtualRegister + 1;
      maxNumVirtualRegister := Max(maxNumVirtualRegister, nextOperandVirtualRegister);
    }

    /** The state after appending `t`'s instruction at `index`, with `t`'s counter and maximum. */
    predicate Emitted(instructions0: seq<InstructionMir>, max0: nat, index: nat, t: Translation)
      reads this
    {
      && instructions == instructions0 + [InstructionMir(index, t.data)]
      && nextOperandVirtualRegister == t.counter
      && maxNumVirtualRegister == if t.pushed then Max(max0, t.counter) else max0
    }

    method Push(index: nat, data: MirData)
      modifies this`instructions
      ensures instructions == old(instructions) + [InstructionMir(index, data)]
    {
      instructions := instructions + [InstructionMir(index, data)];
    }

    method CompileBinary(index: nat, op: Op, t: TypeId)
      requires IsBinary(op)
      requires EmitBinary(op, t, nextOperandVirtualRegister).Some?
      modifies this`instructions, this`nextOperandVirtualRegister, this`maxNumVirtualRegister
      ensures Emitted(old(instructions), old(maxNumVirtualRegister), index, EmitBinary(op, t, old(nextOperandVirtualRegister)).value)
    {
      var op2 := UseStackRegister(t);
      var op1 := UseStackRegister(t);
      var dest := AssignStackRegister(t);
      if op.Add? && t == Int32 { Push(index, Mir.AddInt32(dest, op1, op2)); }
      else if op.Add? && t == Float32 { Push(index, Mir.AddFloat32(dest, op1, op2)); }
      else if op.Sub? && t == Int32 { Push(index, Mir.SubInt32(dest, op1, op2)); }
      else if op.Sub? && t == Float32 { Push(index, Mir.SubFloat32(dest, op1, op2)); }
      else if op.Multiply? && t == Int32 { Push(index, Mir.MultiplyInt32(dest, op1, op2)); }
      else if op.Multiply? && t == Float32 { Push(index, Mir.MultiplyFloat32(dest, op1, op2)); }
      else if op.Divide? && t == Int32 { Push(index, Mir.DivideInt32(dest, op1, op2)); }
      else if op.Divide? && t == Float32 { Push(index, Mir.DivideFloat32(dest, op1, op2)); }
      else if op.And? && t == Bool { Push(index, Mir.AndBool(dest, op1, op2)); }
      else { Push(index, Mir.OrBool(dest, op1, op2)); }
    }

    /** Expands a macro call; the expansion leaves the table while it runs and is put back afterwards. */
    method ExpandMacro(index: nat, signature: Signature)
      requires signature in macros
      modifies this`instructions, this`macros
      ensures macros == old(macros)
      ensures instructions == old(instructions) + [InstructionMir(index, macros[signature])]
    {
      var expansion := macros[signature];
      macros := map s | s in macros && s != signature :: macros[s];
      Push(index, expansion);
      macros := macros[signature := expansion];
      assert macros == old(macros);
    }

    /** Pops the arguments of a call, last parameter first, and returns them in parameter order. */
    method PopArguments(parameters: seq<TypeId>) returns (arguments: seq<RegisterMir>)
      requires |parameters| <= nextOperandVirtualRegister
      modifies this`nextOperandVirtualRegister
      ensures nextOperandVirtualRegister == old(nextOperandVirtualRegister) - |parameters|
      ensures arguments == Arguments(parameters, old(nextOperandVirtualRegister))
    {
      var n := |parameters|;
      ghost var c := nextOperandVirtualRegister;
      var popped: seq<RegisterMir> := [];
      var k := n;
      while k > 0
        invariant 0 <= k <= n
        invariant |popped| == n - k
        invariant nextOperandVirtualRegister == c - (n - k)
        invariant forall j :: 0 <= j < |popped| ==> popped[j] == Reg(c - 1 - j, parameters[n - 1 - j])
      {
        k := k - 1;
        var r := UseStackRegister(parameters[k]);
        popped := popped + [r];
      }
      arguments := Reverse(popped);
    }

    method CompileCall(index: nat, signature: Signature)
      requires EmitCall(CurrentEnv(), signature, nextOperandVirtualRegister).Some?
      modifies this`instructions, this`nextOperandVirtualRegister, this`maxNumVirtualRegister, this`macros
      ensures macros == old(macros)
      ensures Emitted(old(instructions), old(maxNumVirtualRegister), index, EmitCall(old(CurrentEnv()), signature, old(nextOperandVirtualRegister)).value)
    {
      if signature in macros {
        ExpandMacro(index, signature);
      } else {
        var callee := functions[signature];
        var arguments := PopArguments(callee.parameters);
        if callee.returnType != Void {
          var result := AssignStackRegister(callee.returnType);
          Push(index, Mir.Call(callee.Sig(), Some(result), arguments));
        } else {
          Push(index, Mir.Call(callee.Sig(), None, arguments));
        }
      }
    }

    method CompileMemory(index: nat, op: Op, types: seq<TypeId>)
      requires IsMemory(op)
      requires EmitMemory(op, types, nextOperandVirtualRegister).Some?
      modifies this`instructions, this`nextOperandVirtualRegister, this`maxNumVirtualRegister
      ensures Emitted(old(instructions), old(maxNumVirtualRegister), index, EmitMemory(op, types, old(nextOperandVirtualRegister)).value)
    {
      match op
      case NewArray(e) =>
        var size := UseStackRegister(Int32);
        var dest := AssignStackRegister(Array(e));
        Push(index, Mir.NewArray(e, dest, size));
      case LoadElement(e) =>
        var indexReg := UseStackRegister(Int32);
        var arrayRef := UseStackRegister(Array(e));
        var dest := AssignStackRegister(e);
        Push(index, Mir.LoadElement(e, dest, arrayRef, indexReg));
      case StoreElement(e) =>
        var stored := UseStackRegister(e);
        var indexReg := UseStackRegister(Int32);
        var arrayRef := UseStackRegister(Array(e));
        Push(index, Mir.StoreElement(e, arrayRef, indexReg, stored));
      case LoadArrayLength =>
        var arrayRef := UseStackRegister(types[0]);
        var dest := AssignStackRegister(Int32);
        Push(index, Mir.LoadArrayLength(dest, arrayRef));
      case NewObject(className) =>
        var t := Class(className);
        var dest := AssignStackRegister(t);
        Push(index, Mir.NewObject(t, dest));
      case LoadField(className, field) =>
        var t := Class(className);
        var objectRef := UseStackRegister(t);
        var dest := AssignStackRegister(t);
        Push(index, Mir.LoadField(t, field, dest, objectRef));
      case StoreField(className, field) =>
        var t := Class(className);
        var stored := UseStackRegister(t);
        var objectRef := UseStackRegister(t);
        Push(index, Mir.StoreField(t, field, objectRef, stored));
    }

    method CompileLoad(index: nat, op: Op)
      requires IsLoad(op) && EmitLoad(CurrentEnv(), op, nextOperandVirtualRegister).Some?
      modifies this`instructions, this`nextOperandVirtualRegister, this`maxNumVirtualRegister
      ensures Emitted(old(instructions), old(maxNumVirtualRegister), index, EmitLoad(old(CurrentEnv()), op, old(nextOperandVirtualRegister)).value)
    {
      match op
      case LoadInt32(v) =>
        var dest := AssignStackRegister(Int32);
        Push(index, Mir.LoadInt32(dest, v));
      case LoadFloat32(v) =>
        var dest := AssignStackRegister(Float32);
        Push(index, Mir.LoadFloat32(dest, v));
      case LoadTrue =>
        var dest := AssignStackRegister(Bool);
        Push(index, Mir.LoadBool(dest, true));
      case LoadFalse =>
        var dest := AssignStackRegister(Bool);
        Push(index, Mir.LoadBool(dest, false));
      case LoadArgument(i) =>
        var dest := AssignStackRegister(source.declaration.parameters[i]);
        Push(index, Mir.LoadArgument(i, dest));
      case LoadNull(t) =>
        var dest := AssignStackRegister(t);
        Push(index, Mir.LoadNull(dest));
    }

    method CompileLocal(index: nat, op: Op)
      requires IsLocalAccess(op) && EmitLocal(CurrentEnv(), op, nextOperandVirtualRegister).Some?
      modifies this`instructions, this`nextOperandVirtualRegister, this`maxNumVirtualRegister
      ensures Emitted(old(instructions), old(maxNumVirtualRegister), index, EmitLocal(old(CurrentEnv()), op, old(nextOperandVirtualRegister)).value)
    {
      match op
      case LoadLocal(i) =>
        var local := localVirtualRegisters[i];
        var dest := AssignStackRegister(local.valueType);
        Push(index, Mir.Move(dest, local));
      case StoreLocal(i) =>
        var local := localVirtualRegisters[i];
        var value := UseStackRegister(local.valueType);
        Push(index, Mir.Move(local, value));
    }

    method CompileControl(index: nat, op: Op, types: seq<TypeId>)
      requires IsControl(op) && EmitControl(CurrentEnv(), types, op, nextOperandVirtualRegister).Some?
      modifies this`instructions, this`nextOperandVirtualRegister, this`maxNumVirtualRegister
      ensures Emitted(old(instructions), old(maxNumVirtualRegister), index, EmitControl(old(CurrentEnv()), types, op, old(nextOperandVirtualRegister)).value)
    {
      match op
      case Not =>
        var operand := UseStackRegister(types[0]);
        var dest := AssignStackRegister(types[0]);
        Push(index, Mir.NotBool(dest, operand));
      case Return =>
        var returnType := source.declaration.returnType;
        if returnType != Void {
          var value := UseStackRegister(returnType);
          Push(index, Mir.Return(Some(value)));
        } else {
          Push(index, Mir.Return(None));
        }
      case Branch(target) =>
        var found := branchManager.GetLabel(target);
        Push(index, Mir.Branch(found.value));
      case BranchIf(condition, target) =>
        var compareType := types[0];
        var found := branchManager.GetLabel(target);
        var op2 := UseStackRegister(compareType);
        var op1 := UseStackRegister(compareType);
        Push(index, Mir.BranchCondition(condition, compareType, found.value, op1, op2));
      case Compare(condition) =>
        var compareType := types[0];
        var op2 := UseStackRegister(compareType);
        var op1 := UseStackRegister(compareType);
        var dest := AssignStackRegister(Bool);
        Push(index, Mir.Compare(condition, compareType, dest, op1, op2));
    }

    /** The translation of one instruction, after its label marker and operand entry. */
    method CompileOp(index: nat, op: Op, types: seq<TypeId>)
      requires Emit(CurrentEnv(), types, op, nextOperandVirtualRegister).Some?
      modifies this`instructions, this`nextOperandVirtualRegister, this`maxNumVirtualRegister, this`macros
      ensures macros == old(macros)
      ensures Emitted(old(instructions), old(maxNumVirtualRegister), index, Emit(old(CurrentEnv()), types, op, old(nextOperandVirtualRegister)).value)
    {
      if IsLoad(op) {
        CompileLoad(index, op);
      } else if IsLocalAccess(op) {
        CompileLocal(index, op);
      } else if IsBinary(op) {
        CompileBinary(index, op, types[0]);
      } else if op.Call? {
        CompileCall(index, op.signature);
      } else if IsMemory(op) {
        CompileMemory(index, op, types);
      } else {
        CompileControl(index, op, types);
      }
    }

    /** One bytecode instruction: its label marker if it is a target, its operand entry, its code. */
    method CompileInstruction(index: nat, op: Op)
      requires branchManager.Valid()
      requires StepAt(CurrentEnv(), CurrentProgress(), index, op).Some?
      modifies this`instructions, this`nextOperandVirtualRegister, this`maxNumVirtualRegister, this`macros, this`instructionsOperands
      ensures macros == old(macros)
      ensures CurrentProgress() == StepAt(old(CurrentEnv()), old(CurrentProgress()), index, op).value
    {
      var types := source.operandTypes[index];
      var found := branchManager.IsBranch(index);
      if found.Some? {
        instructionsOperands := instructionsOperands + [[]];
        Push(index, Mir.BranchLabel(found.value));
      }
      instructionsOperands := instructionsOperands + [OperandEntry(|localVirtualRegisters|, types)];
      CompileOp(index, op, types);
    }

    /** The environment and progress once labels are defined and locals have their registers. */
    function EnvAfterSetup(ops: seq<Op>): Env
      reads this, branchManager
    {
      Env(localVirtualRegisters + LocalRegisters(nextOperandVirtualRegister, source.locals), source.declaration,
        source.operandTypes, functions, LabelTargets(branchManager.branchLabels, branchManager.nextBranchLabel, TargetsOf(ops)).0, macros)
    }

    function ProgressAfterSetup(): Progress
      reads this
    {
      Progress(instructions, instructionsOperands, nextOperandVirtualRegister + |source.locals|,
        |localVirtualRegisters| + |source.locals|)
    }

    /** Gives each local the next register, in declaration order. */
    method AssignLocals()
      modifies this`localVirtualRegisters, this`nextOperandVirtualRegister
      ensures localVirtualRegisters == old(localVirtualRegisters) + LocalRegisters(old(nextOperandVirtualRegister), source.locals)
      ensures nextOperandVirtualRegister == old(nextOperandVirtualRegister) + |source.locals|
    {
      ghost var c := nextOperandVirtualRegister;
      ghost var before := localVirtualRegisters;
      var j := 0;
      while j < |source.locals|
        invariant 0 <= j <= |source.locals|
        invariant |localVirtualRegisters| == |before| + j
        invariant localVirtualRegisters[..|before|] == before
        invariant forall i :: 0 <= i < j ==> localVirtualRegisters[|before| + i] == Reg(c + i, source.locals[i])
        invariant nextOperandVirtualRegister == c + j
      {
        localVirtualRegisters := localVirtualRegisters + [Reg(nextOperandVirtualRegister, source.locals[j])];
        nextOperandVirtualRegister := nextOperandVirtualRegister + 1;
        j := j + 1;
      }
      assert localVirtualRegisters == before + LocalRegisters(c, source.locals);
    }

    /** Labels the branch targets, gives each local its register, then compiles every instruction. */
    method Compile(ops: seq<Op>)
      requires branchManager.Valid()
      requires RunPrefix(EnvAfterSetup(ops), ProgressAfterSetup(), ops, |ops|).Some?
      modifies this, branchManager
      ensures branchManager.Valid()
      ensures localVirtualRegisters == old(localVirtualRegisters) + LocalRegisters(old(nextOperandVirtualRegister), source.locals)
      ensures macros == old(macros)
      ensures CurrentProgress() == RunPrefix(old(EnvAfterSetup(ops)), old(ProgressAfterSetup()), ops, |ops|).value
    {
      ghost var env := EnvAfterSetup(ops);
      ghost var start := ProgressAfterSetup();
      branchManager.DefineBranchLabels(ops);
      AssignLocals();
      maxNumVirtualRegister := |localVirtualRegisters|;
      assert CurrentEnv() == env && CurrentProgress() == start;
      CompileInstructions(ops);
    }

    /** Compiles every instruction in order. */
    method CompileInstructions(ops: seq<Op>)
      requires branchManager.Valid()
      requires RunPrefix(CurrentEnv(), CurrentProgress(), ops, |ops|).Some?
      modifies this`instructions, this`nextOperandVirtualRegister, this`maxNumVirtualRegister, this`macros, this`instructionsOperands
      ensures localVirtualRegisters == old(localVirtualRegisters) && macros == old(macros)
      ensures CurrentProgress() == RunPrefix(old(CurrentEnv()), old(CurrentProgress()), ops, |ops|).value
    {
      ghost var env := CurrentEnv();
      ghost var start := CurrentProgress();
      var i := 0;
      while i < |ops|
        invariant 0 <= i <= |ops|
        invariant CurrentEnv() == env
        invariant RunPrefix(env, start, ops, i).Some? && CurrentProgress() == RunPrefix(env, start, ops, i).value
      {
        RunPrefixSome(env, start, ops, i + 1);
        RunPrefixStep(env, start, ops, i);
        CompileInstruction(i, ops[i]);
        i := i + 1;
      }
    }

    function Done(): (r: MirCompilationResult)
      reads this
      ensures r.numVirtualRegisters == maxNumVirtualRegister
      ensures r.needZeroInitializeRegisters == localVirtualRegisters
    {
      MirCompilationResult(instructions, maxNumVirtualRegister, localVirtualRegisters, localVirtualRegisters, instructionsOperands)
    }
  }

  lemma RunPrefixStep(env: Env, p: Progress, ops: seq<Op>, k: nat)
    requires k < |ops| && RunPrefix(env, p, ops, k + 1).Some?
    ensures RunPrefix(env, p, ops, k).Some?
    ensures RunPrefix(env, p, ops, k + 1) == StepAt(env, RunPrefix(env, p, ops, k).value, k, ops[k])
  {
  }

  /** A run that reaches instruction `k` has reached every earlier one. */
  lemma RunPrefixSome(env: Env, p: Progress, ops: seq<Op>, k: nat)
    requires k <= |ops| && RunPrefix(env, p, ops, |ops|).Some?
    ensures RunPrefix(env, p, ops, k).Some?
    decreases |ops| - k
  {
    if k < |ops| {
      RunPrefixSome(env, p, ops, k + 1);
    }
  }

  /** The environment and starting point of compiling `f` with a fresh compiler. */
  function InitialEnv(functions: map<Signature, Declaration>, f: Function): Env {
    Env(LocalRegisters(0, f.locals), f.declaration, f.operandTypes, functions,
      LabelTargets(map[], 0, TargetsOf(f.instructions)).0, Macros())
  }

  function InitialProgress(f: Function): Progress {
    Progress([], [], |f.locals|, |f.locals|)
  }

  /** The compiled form of `f`, by the specification functions. */
  function Compiled(functions: map<Signature, Declaration>, f: Function): Option<Progress> {
    RunPrefix(InitialEnv(functions, f), InitialProgress(f), f.instructions, |f.instructions|)
  }

  /**
   * In the compiled form of a function every register of the code is below the register count,
   * the count covers the locals, and there is one operand entry per emitted instruction.
   */
  lemma CompiledBounded(functions: map<Signature, Declaration>, f: Function)
    requires Compiled(functions, f).Some?
    ensures var p := Compiled(functions, f).value;
      && p.max >= |f.locals|
      && (forall k, reg :: 0 <= k < |p.instructions| && reg in p.instructions[k].data.Registers() ==> reg.number < p.max)
      && |p.instructions| == |p.operands|
  {
    var env := InitialEnv(functions, f);
    MacroTableWithoutRegisters();
    RunBounded(env, InitialProgress(f), f.instructions, |f.instructions|);
    RunMaxGrows(env, InitialProgress(f), f.instructions, |f.instructions|);
  }

  /**
   * Compiling a function with a fresh compiler: locals take registers 0..k-1 in declaration
   * order and are the registers to zero, and the code, register count and operand entries are
   * the compiled form's.
   */
  method CompileFunction(functions: map<Signature, Declaration>, f: Function) returns (r: MirCompilationResult)
    requires Compiled(functions, f).Some?
    ensures r.localVirtualRegisters == LocalRegisters(0, f.locals) && r.needZeroInitializeRegisters == r.localVirtualRegisters
    ensures var p := Compiled(functions, f).value;
      r.instructions == p.instructions && r.numVirtualRegisters == p.max && r.instructionsOperandStack == p.operands
  {
    var compiler := new InstructionMirCompiler(functions, f);
    assert compiler.EnvAfterSetup(f.instructions) == InitialEnv(functions, f);
    assert compiler.ProgressAfterSetup() == InitialProgress(f);
    compiler.Compile(f.instructions);
    r := compiler.Done();
  }

  /** The maximum never falls. */
  lemma {:induction false} RunMaxGrows(env: Env, p: Progress, ops: seq<Op>, k: nat)
    requires k <= |ops| && RunPrefix(env, p, ops, k).Some?
    ensures RunPrefix(env, p, ops, k).value.max >= p.max
  {
    if k > 0 {
      RunMaxGrows(env, p, ops, k - 1);
    }
  }
}
