/** `FunctionSignature` of the model revision: a name and parameter types, displayed as `name(p1 p2 ...)`. */
module FunctionSignatures {
  import opened TypeSystem
  import opened Text

  datatype FunctionSignature = FunctionSignature(name: string, parameters: seq<Type>)

  function ParameterTexts(ps: seq<Type>): (r: seq<string>)
    ensures |r| == |ps|
    ensures forall i :: 0 <= i < |ps| ==> r[i] == TypeText(ps[i])
  {
    if ps == [] then [] else [TypeText(ps[0])] + ParameterTexts(ps[1..])
  }

  function SignatureText(s: FunctionSignature): string {
    s.name + "(" + Join(ParameterTexts(s.parameters), " ") + ")"
  }

  /** The display is the name, then the parameter displays joined by one space, inside parentheses. */
  lemma SignatureTextShape(s: FunctionSignature)
    ensures SignatureText(s)[..|s.name|] == s.name
    ensures |SignatureText(s)| >= |s.name| + 2
    ensures SignatureText(s)[|s.name|] == '('
    ensures SignatureText(s)[|SignatureText(s)| - 1] == ')'
    ensures s.parameters == [] ==> SignatureText(s) == s.name + "()"
    ensures s.parameters == [Int32, Float32] ==> SignatureText(s) == s.name + "(Int32 Float32)"
  {
    if s.parameters == [Int32, Float32] {
      assert ParameterTexts(s.parameters) == ["Int32", "Float32"];
      assert Join(["Int32", "Float32"], " ") == "Int32" + " " + Join(["Float32"], " ");
    }
  }
}
