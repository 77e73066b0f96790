/** The engine's function table: definitions keyed by their call signature. */
module EngineBinder {
  import opened Wrappers
  import opened FunctionSignatures
  import opened ModelFunction

  class Binder {
    var functions: map<FunctionSignature, FunctionDefinition>

    /** Every entry is stored under its own call signature. */
    ghost predicate Valid()
      reads this
    {
      forall s :: s in functions ==> functions[s].CallSignature() == s
    }

    constructor ()
      ensures Valid() && functions == map[]
    {
      functions := map[];
    }

    method Define(definition: FunctionDefinition)
      requires Valid()
      modifies this
      ensures Valid()
      ensures functions == old(functions)[definition.CallSignature() := definition]
    {
      functions := functions[definition.CallSignature() := definition];
    }

    function Get(signature: FunctionSignature): (r: Option<FunctionDefinition>)
      reads this
      requires Valid()
      ensures signature in functions <==> r.Some?
      ensures r.Some? ==> r.value == functions[signature] && r.value.CallSignature() == signature
    {
      if signature in functions then Some(functions[signature]) else None
    }

    /** The source unwraps the lookup, so the signature must be defined. */
    method SetAddress(signature: FunctionSignature, address: Address)
      requires Valid() && signature in functions
      modifies this
      ensures Valid()
      ensures functions == old(functions)[signature := old(functions)[signature].WithAddress(address)]
      ensures functions[signature].address == Some(address)
    {
      functions := functions[signature := functions[signature].WithAddress(address)];
    }
  }

  /** `get` right after `define(d)` returns `d`; every other signature keeps its entry. */
  method DefineThenGet(b: Binder, d: FunctionDefinition, other: FunctionSignature)
    requires b.Valid()
    modifies b
    ensures b.Valid() && b.Get(d.CallSignature()) == Some(d)
    ensures other != d.CallSignature() ==> b.Get(other) == old(b.Get(other))
  {
    b.Define(d);
  }
}
