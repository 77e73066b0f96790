/** Sequence helpers shared by the compilers. */
module Sequences {
  /** The elements of `s` in the opposite order, as popping them one by one off a stack gives them. */
  function Reverse<T>(s: seq<T>): (r: seq<T>)
    ensures |r| == |s|
    ensures forall i :: 0 <= i < |s| ==> r[i] == s[|s| - 1 - i]
  {
    if |s| == 0 then [] else [s[|s| - 1]] + Reverse(s[..|s| - 1])
  }
}
