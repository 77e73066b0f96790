/** Half-open index ranges `a..b`, empty when `a >= b` as in Rust. */
module Ranges {
  function Range(a: nat, b: nat): (r: seq<nat>)
    ensures |r| == if a <= b then b - a else 0
    ensures forall i :: 0 <= i < |r| ==> r[i] == a + i
    decreases b - a
  {
    if a >= b then [] else [a] + Range(a + 1, b)
  }

  /** Consecutive ranges concatenate. */
  lemma RangeSplit(a: nat, b: nat, c: nat)
    requires a <= b <= c
    ensures Range(a, c) == Range(a, b) + Range(b, c)
  {
    assert Range(a, c)[..b - a] == Range(a, b);
    assert Range(a, c)[b - a..] == Range(b, c);
  }

  lemma RangeAppend(k: nat)
    ensures Range(0, k + 1) == Range(0, k) + [k]
  {
    RangeSplit(0, k, k + 1);
  }

  /** The elements of `a..b` as a set. */
  function Span(a: nat, b: nat): (r: set<nat>)
    ensures forall x :: x in r <==> a <= x < b
  {
    var r := set x | x in Range(a, b);
    assert forall x :: a <= x < b ==> x in r by {
      forall x | a <= x < b
        ensures x in r
      {
        assert Range(a, b)[x - a] == x;
      }
    }
    r
  }

  /** `a..b` holds `b - a` numbers. */
  lemma {:induction false} SpanSize(a: nat, b: nat)
    requires a <= b
    ensures |Span(a, b)| == b - a
    decreases b - a
  {
    if a < b {
      SpanSize(a, b - 1);
      assert Span(a, b) == Span(a, b - 1) + {b - 1};
    } else {
      assert Span(a, b) == {};
    }
  }

  /** A non-empty set of naturals has a smallest element. */
  lemma SmallestExists(s: set<nat>)
    requires s != {}
    ensures exists m :: m in s && forall x :: x in s ==> m <= x
  {
    var m := SmallestOf(s);
  }

  /** The smallest element, found by taking one element out and comparing it with the smallest of the rest. */
  lemma {:induction false} SmallestOf(s: set<nat>) returns (m: nat)
    requires s != {}
    ensures m in s && forall x :: x in s ==> m <= x
    decreases |s|
  {
    var y :| y in s;
    var rest := s - {y};
    if rest == {} {
      m := y;
      assert s == {y} by {
        forall x | x in s
          ensures x in {y}
        {
          assert x !in rest;
        }
      }
    } else {
      var n := SmallestOf(rest);
      m := if y < n then y else n;
      forall x | x in s
        ensures m <= x
      {
        if x != y {
          assert x in rest;
        }
      }
    }
  }
}
