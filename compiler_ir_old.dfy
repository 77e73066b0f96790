/**
 * The older revision of the register-level IR's variables: a variable is an allocated register
 * or a frame slot, with no machine-register variant. Its instruction set is a subset of the later
 * one, so the later `InstructionIR` is used for it. Each older helper emits what the later helper
 * emits for the corresponding later variable, so it moves values in the same way.
 */
module CompilerIrOld {
  import opened Wrappers
  import opened CompilerIr

  datatype Variable = Register(register: HardwareRegister) | FrameMemory(offset: int)

  /** The same location as a later-revision variable. */
  function AsLater(v: Variable): (w: CompilerIr.Variable)
    ensures w.Register? <==> v.Register?
    ensures !w.RegisterExplicit?
  {
    match v
    case Register(r) => CompilerIr.Register(r)
    case FrameMemory(offset) => CompilerIr.FrameMemory(offset)
  }

  /** `move_to_explicit`. */
  function MoveToExplicit(v: Variable, destination: MachineRegister): seq<InstructionIR> {
    match v
    case Register(source) => [MoveImplicitToExplicit(destination, source)]
    case FrameMemory(offset) => [LoadFrameMemoryExplicit(destination, offset)]
  }

  /** `move_to_stack`: a frame slot goes through the integer spill register. */
  function MoveToStack(v: Variable): seq<InstructionIR> {
    match v
    case Register(source) => [Push(source)]
    case FrameMemory(offset) => [LoadFrameMemory(IntSpill, offset), Push(IntSpill)]
  }

  /** `move_from_explicit`. */
  function MoveFromExplicit(v: Variable, source: MachineRegister): seq<InstructionIR> {
    match v
    case Register(destination) => [MoveExplicitToImplicit(destination, source)]
    case FrameMemory(offset) => [StoreFrameMemoryExplicit(offset, source)]
  }

  method MoveToExplicitInto(v: Variable, destination: MachineRegister, buffer: InstructionBuffer)
    modifies buffer
    ensures buffer.instructions == old(buffer.instructions) + MoveToExplicit(v, destination)
  {
    match v
    case Register(source) => buffer.Append([MoveImplicitToExplicit(destination, source)]);
    case FrameMemory(offset) => buffer.Append([LoadFrameMemoryExplicit(destination, offset)]);
  }

  method MoveToStackInto(v: Variable, buffer: InstructionBuffer)
    modifies buffer
    ensures buffer.instructions == old(buffer.instructions) + MoveToStack(v)
  {
    match v
    case Register(source) => buffer.Append([Push(source)]);
    case FrameMemory(offset) =>
      buffer.Append([LoadFrameMemory(IntSpill, offset)]);
      buffer.Append([Push(IntSpill)]);
  }

  method MoveFromExplicitInto(v: Variable, source: MachineRegister, buffer: InstructionBuffer)
    modifies buffer
    ensures buffer.instructions == old(buffer.instructions) + MoveFromExplicit(v, source)
  {
    match v
    case Register(destination) => buffer.Append([MoveExplicitToImplicit(destination, source)]);
    case FrameMemory(offset) => buffer.Append([StoreFrameMemoryExplicit(offset, source)]);
  }

  /** `move_to_explicit` loads the variable's value into the machine register and changes nothing else. */
  lemma MoveToExplicitMoves(m: Machine, v: Variable, destination: MachineRegister)
    ensures |MoveToExplicit(v, destination)| == 1
    ensures Run(m, MoveToExplicit(v, destination)) == Some(m.Write(RegisterExplicit(destination), m.Value(AsLater(v))))
  {
    assert MoveToExplicit(v, destination) == CompilerIr.MoveToExplicit(AsLater(v), destination);
    CompilerIr.MoveToExplicitMoves(m, AsLater(v), destination);
  }

  /** `move_to_stack` pushes the variable's value; a frame slot leaves it in the integer spill register too. */
  lemma MoveToStackPushes(m: Machine, v: Variable)
    ensures Run(m, MoveToStack(v)) ==
      var carried := if v.FrameMemory? then m.Write(CompilerIr.Register(IntSpill), m.Value(AsLater(v))) else m;
      Some(carried.(stack := m.stack + [m.Value(AsLater(v))]))
  {
    assert MoveToStack(v) == CompilerIr.MoveToStack(AsLater(v));
    CompilerIr.MoveToStackPushes(m, AsLater(v));
  }

  /** `move_from_explicit` writes the machine register's value to the variable and changes nothing else. */
  lemma MoveFromExplicitWrites(m: Machine, v: Variable, source: MachineRegister)
    ensures |MoveFromExplicit(v, source)| == 1
    ensures Run(m, MoveFromExplicit(v, source)) == Some(m.Write(AsLater(v), m.ExplicitValue(source)))
  {
    assert MoveFromExplicit(v, source) == CompilerIr.MoveFromExplicit(AsLater(v), source);
    CompilerIr.MoveFromExplicitWrites(m, AsLater(v), source);
  }
}
