/** Class layouts: fields laid out back to back in declaration order, and the class table. */
module ModelClass {
  import opened Wrappers
  import opened TypeIds

  datatype Field = Field(name: string, fieldType: TypeId)

  datatype Class = MakeClass(name: string, fields: seq<Field>, fieldOffsets: map<string, nat>, memorySize: nat)

  /** The total size of the first `k` fields. */
  function PrefixSize(fields: seq<Field>, k: nat): nat
    requires k <= |fields|
  {
    if k == 0 then 0 else PrefixSize(fields, k - 1) + fields[k - 1].fieldType.Size()
  }

  /** The offset table after inserting the first `k` fields; a later field with the same name overwrites. */
  function OffsetTable(fields: seq<Field>, k: nat): map<string, nat>
    requires k <= |fields|
  {
    if k == 0 then map[] else OffsetTable(fields, k - 1)[fields[k - 1].name := PrefixSize(fields, k - 1)]
  }

  /** Lays out the fields, recording each field's offset under its name and the sum of sizes as the class size. */
  method NewClass(name: string, fields: seq<Field>) returns (c: Class)
    ensures c.name == name && c.fields == fields
    ensures c.fieldOffsets == OffsetTable(fields, |fields|)
    ensures c.memorySize == PrefixSize(fields, |fields|)
  {
    var fieldOffsets: map<string, nat> := map[];
    var offset := 0;
    var i := 0;
    while i < |fields|
      invariant 0 <= i <= |fields|
      invariant fieldOffsets == OffsetTable(fields, i)
      invariant offset == PrefixSize(fields, i)
    {
      fieldOffsets := fieldOffsets[fields[i].name := offset];
      offset := offset + fields[i].fieldType.Size();
      i := i + 1;
    }
    c := MakeClass(name, fields, fieldOffsets, offset);
  }

  /** The first declared field with this name. */
  function GetField(c: Class, name: string): (r: Option<Field>)
    ensures r.Some? <==> exists i :: 0 <= i < |c.fields| && c.fields[i].name == name
    ensures r.Some? ==> exists i :: 0 <= i < |c.fields| && c.fields[i] == r.value && r.value.name == name &&
                                   forall j :: 0 <= j < i ==> c.fields[j].name != name
  {
    FindField(c.fields, name)
  }

  function FindField(fields: seq<Field>, name: string): (r: Option<Field>)
    ensures r.Some? <==> exists i :: 0 <= i < |fields| && fields[i].name == name
    ensures r.Some? ==> exists i :: 0 <= i < |fields| && fields[i] == r.value && r.value.name == name &&
                                   forall j :: 0 <= j < i ==> fields[j].name != name
  {
    if fields == [] then None
    else if fields[0].name == name then Some(fields[0])
    else
      var r := FindField(fields[1..], name);
      if r.Some? then
        var i :| 0 <= i < |fields[1..]| && fields[1..][i] == r.value && r.value.name == name &&
          forall j :: 0 <= j < i ==> fields[1..][j].name != name;
        assert fields[i + 1] == r.value;
        r
      else r
  }

  /**
   * A field name is in the offset table iff some field has it, and its offset is the total size
   * of the fields before the last field of that name.
   */
  lemma {:induction false} OffsetOfLastField(fields: seq<Field>, k: nat, i: nat)
    requires i < k <= |fields|
    requires forall j :: i < j < k ==> fields[j].name != fields[i].name
    ensures fields[i].name in OffsetTable(fields, k)
    ensures OffsetTable(fields, k)[fields[i].name] == PrefixSize(fields, i)
  {
    if k - 1 > i {
      OffsetOfLastField(fields, k - 1, i);
    }
  }

  lemma {:induction false} OffsetTableKeys(fields: seq<Field>, k: nat, name: string)
    requires k <= |fields|
    ensures name in OffsetTable(fields, k) <==> exists i :: 0 <= i < k && fields[i].name == name
  {
    if k > 0 {
      OffsetTableKeys(fields, k - 1, name);
    }
  }

  /** The size of all fields is the sum of their sizes, split at any field. */
  lemma {:induction false} PrefixSizeSplit(fields: seq<Field>, k: nat)
    requires k < |fields|
    ensures PrefixSize(fields, k) + fields[k].fieldType.Size() <= PrefixSize(fields, |fields|)
    decreases |fields| - k
  {
    if k + 1 < |fields| {
      PrefixSizeSplit(fields, k + 1);
    }
  }

  /** Each field ends inside the class, and a later field starts where or after an earlier field ends. */
  lemma {:induction false} LayoutDisjoint(fields: seq<Field>, i: nat, j: nat)
    requires i < j < |fields|
    ensures PrefixSize(fields, i) + fields[i].fieldType.Size() <= PrefixSize(fields, j)
    ensures PrefixSize(fields, j) + fields[j].fieldType.Size() <= PrefixSize(fields, |fields|)
  {
    assert PrefixSize(fields, i + 1) == PrefixSize(fields, i) + fields[i].fieldType.Size();
    PrefixMonotone(fields, i + 1, j);
    PrefixSizeSplit(fields, j);
  }

  lemma {:induction false} PrefixMonotone(fields: seq<Field>, a: nat, b: nat)
    requires a <= b <= |fields|
    ensures PrefixSize(fields, a) <= PrefixSize(fields, b)
    decreases b - a
  {
    if a < b {
      PrefixMonotone(fields, a, b - 1);
    }
  }

  /** With two fields named alike, the offset table keeps the second's offset while `GetField` finds the first. */
  lemma DuplicateFieldNames()
    ensures var fs := [Field("x", Int32), Field("x", Float32)];
      OffsetTable(fs, 2)["x"] == 4 && FindField(fs, "x") == Some(Field("x", Int32))
  {
  }

  /** The class table; defining a class replaces any class of the same name. */
  class ClassProvider {
    var classes: map<string, Class>

    constructor ()
      ensures classes == map[]
    {
      classes := map[];
    }

    predicate IsDefined(name: string)
      reads this
    {
      name in classes
    }

    function Get(name: string): (r: Option<Class>)
      reads this
      ensures r.Some? <==> IsDefined(name)
      ensures r.Some? ==> r.value == classes[name]
    {
      if name in classes then Some(classes[name]) else None
    }

    method Define(c: Class)
      modifies this
      ensures classes == old(classes)[c.name := c]
      ensures Get(c.name) == Some(c)
    {
      classes := classes[c.name := c];
    }
  }
}
