/**
 * The richer value type of the later revision, used by the compiler and the runtime. The type
 * system of this revision (`model/typesystem.rs`) defines only `Type`, and `TypeId` with its
 * `size` and `is_reference` comes from a later one; they are given here with the obvious
 * meaning: references are 8-byte pointers.
 */
module TypeIds {
  datatype TypeId = Void | Int32 | Float32 | Bool | Null | Array(element: TypeId) | Class(name: string)
  {
    /** Null, arrays and class instances are references into the managed heap. */
    predicate IsReference() { Null? || Array? || Class? }

    /** The number of bytes a value of this type occupies in memory. */
    function Size(): (n: nat)
      ensures IsReference() ==> n == 8
      ensures this == Int32 || this == Float32 ==> n == 4
      ensures this == Bool ==> n == 1
      ensures this == Void ==> n == 0
    {
      match this
      case Void => 0
      case Int32 => 4
      case Float32 => 4
      case Bool => 1
      case Null => 8
      case Array(_) => 8
      case Class(_) => 8
    }
  }
}
