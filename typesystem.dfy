/** The value types of the model revision and their display. */
module TypeSystem {
  datatype Type = Void | Int32 | Float32

  /** The display of a `Type` is its variant name. */
  function TypeText(t: Type): (s: string)
    ensures t == Void ==> s == "Void"
    ensures t == Int32 ==> s == "Int32"
    ensures t == Float32 ==> s == "Float32"
  {
    match t
    case Void => "Void"
    case Int32 => "Int32"
    case Float32 => "Float32"
  }

  lemma TypeTextInjective(a: Type, b: Type)
    ensures TypeText(a) == TypeText(b) <==> a == b
  {
    if a != b {
      assert TypeText(a)[0] != TypeText(b)[0];
    }
  }
}
