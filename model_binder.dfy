/**
 * The compiler's function table of the later revision: declarations keyed by their signature,
 * preloaded with the two garbage-collector entry points.
 */
module ModelBinder {
  import opened Wrappers
  import opened TypeIds
  import opened Program

  class Binder {
    var functions: map<Signature, Declaration>

    ghost predicate Valid()
      reads this
    {
      forall s :: s in functions ==> functions[s].Sig() == s
    }

    constructor ()
      ensures Valid()
      ensures functions == map[GcCollect().Sig() := GcCollect(), GcPrintStackFrame().Sig() := GcPrintStackFrame()]
    {
      functions := map[];
      new;
      Define(GcCollect());
      Define(GcPrintStackFrame());
    }

    method Define(d: Declaration)
      requires Valid()
      modifies this
      ensures Valid()
      ensures functions == old(functions)[d.Sig() := d]
    {
      functions := functions[d.Sig() := d];
    }

    function Get(s: Signature): (r: Option<Declaration>)
      reads this
      requires Valid()
      ensures r.Some? <==> s in functions
      ensures r.Some? ==> r.value == functions[s] && r.value.Sig() == s
    {
      if s in functions then Some(functions[s]) else None
    }

    /** The source unwraps the lookup, so the signature must be defined. */
    method SetAddress(s: Signature, address: nat)
      requires Valid() && s in functions
      modifies this
      ensures Valid()
      ensures functions == old(functions)[s := old(functions)[s].(address := Some(address))]
    {
      functions := functions[s := functions[s].(address := Some(address))];
    }
  }

  function GcCollect(): (d: Declaration)
    ensures d.kind == External && d.parameters == [] && d.returnType == Void
  {
    Declaration(External, "std.gc.collect", [], Void, Some(0))
  }

  function GcPrintStackFrame(): (d: Declaration)
    ensures d.kind == External && d.parameters == [] && d.returnType == Void
  {
    Declaration(External, "std.gc.print_stack_frame", [], Void, Some(0))
  }

  /** A new binder knows the two runtime entry points; `get` after `define` returns the definition. */
  method NewBinderThenDefine(d: Declaration) returns (b: Binder)
    ensures b.Valid()
    ensures d.Sig() != Signature("std.gc.collect", []) ==>
      b.Get(Signature("std.gc.collect", [])) == Some(GcCollect())
    ensures d.Sig() != Signature("std.gc.print_stack_frame", []) ==>
      b.Get(Signature("std.gc.print_stack_frame", [])) == Some(GcPrintStackFrame())
    ensures b.Get(d.Sig()) == Some(d)
  {
    b := new Binder();
    b.Define(d);
  }
}
