/**
 * Managed objects as they sit in the heap buffer: a 9-byte header whose first 8 bytes hold a
 * pointer to the object's type record, then the payload. Pointers handed to compiled code point
 * at the payload; an array's payload starts with its 4-byte length. `from_ptr` reads an object
 * back from its header: the type from the header and the payload size from the type (and, for
 * an array, from the stored length).
 */
module Objects {
  import opened Wrappers
  import opened Scalars
  import opened TypeIds
  import opened Heaps

  /** `array::LENGTH_SIZE`. */
  const LengthSize: nat := 4

  /** Bytes of the type pointer at the start of the header. */
  const TypePointerSize: nat := 8

  /**
   * What a type pointer points at: the type and, for a class type, the class's memory size
   * (`TypeHolder` with its `class_size`, and the manager's `Type` with its class).
   */
  datatype TypeRecord = TypeRecord(id: TypeId, classSize: Option<nat>)

  /** `ObjectReference`: the payload pointer, the type record and the payload size. */
  datatype ObjectReference = ObjectReference(pointer: nat, objectType: TypeRecord, size: nat)
  {
    /** `full_size`: the payload and the header. */
    function FullSize(): (n: nat)
      ensures n == size + HeaderSize && n >= HeaderSize
    {
      size + HeaderSize
    }
  }

  /** The payload of the object whose header starts at `header` (`ptr.add(HEADER_SIZE)`). */
  function PayloadPointer(header: nat): (pointer: nat)
    ensures pointer >= HeaderSize && pointer - HeaderSize == header
  {
    header + HeaderSize
  }

  /** The type pointer stored in a header; `None` when the header runs past the buffer. */
  function TypePointerAt(data: seq<byte>, header: nat): (r: Option<nat>)
    ensures r.Some? <==> header + TypePointerSize <= |data|
    ensures r.Some? ==> r.value < Pow256(TypePointerSize)
  {
    if header + TypePointerSize <= |data| then
      ReadLittleEndianBound(data[header..header + TypePointerSize]);
      Some(ReadLittleEndian(data[header..header + TypePointerSize]))
    else None
  }

  /** `usize::MAX + 1`: the wrap of an `as usize` cast from a negative `i32`. */
  const UsizeModulus: nat := 0x1_0000_0000_0000_0000

  /** `length as usize`: a negative `i32` sign-extends, which wraps it to the top of the `usize` range. */
  function AsUsize(length: I32): (n: nat)
    ensures n < UsizeModulus
    ensures length >= 0 ==> n == length
    ensures length < 0 ==> n >= UsizeModulus - 0x8000_0000
  {
    if length >= 0 then length else length + UsizeModulus
  }

  /**
   * `LENGTH_SIZE + length as usize * element.size()`, the payload of an array, in checked `usize`
   * arithmetic: `None` when it overflows, the panic of a debug build.
   */
  function ArraySize(element: TypeId, length: I32): (size: Option<nat>)
    ensures size.Some? <==> LengthSize + AsUsize(length) * element.Size() < UsizeModulus
    ensures size.Some? ==> size.value == LengthSize + AsUsize(length) * element.Size() && size.value >= LengthSize
  {
    var total := LengthSize + AsUsize(length) * element.Size();
    if total < UsizeModulus then Some(total) else None
  }

  /** A non-negative length never overflows: the size is the length field and the elements. */
  lemma ArraySizeOfLength(element: TypeId, length: I32)
    requires length >= 0
    ensures ArraySize(element, length) == Some(LengthSize + length * element.Size())
  {
    assert length * element.Size() <= 0x8000_0000 * 8;
  }

  /** A negative length makes the size overflow unless the elements take no space. */
  lemma NegativeLengthOverflows(element: TypeId, length: I32)
    requires length < 0
    ensures element.Size() > 0 ==> ArraySize(element, length).None? || ArraySize(element, length).value >= UsizeModulus - 0x8000_0000
    ensures element.Size() == 0 ==> ArraySize(element, length) == Some(LengthSize)
  {
  }

  /** `get_length`: the 4 bytes at the payload read as an `i32`, then cast to `usize`. */
  function GetLength(bytes: seq<byte>): nat
    requires |bytes| == LengthSize
  {
    AsUsize(AsI32Value(bytes))
  }

  /** The stored length as the `i32` it was written as. */
  function AsI32Value(bytes: seq<byte>): I32
    requires |bytes| == LengthSize
  {
    ReadLittleEndianBound(bytes);
    assert Pow256(LengthSize) == 0x1_0000_0000;
    AsI32(ReadLittleEndian(bytes))
  }

  /**
   * The payload size `from_ptr` derives: for an array, the length field and the elements; for a
   * class, the class size, whose absence is `class_size.unwrap()` panicking; zero for anything
   * else. `None` also when an array's length field lies past the buffer. The element count is the
   * stored length cast to `usize`; the product is exact, without the `usize` wrap, which matters
   * only for a negative stored length, and no array gets one: `NewArray` refuses a negative length
   * because `ArraySize` overflows for it.
   */
  function PayloadSize(data: seq<byte>, pointer: nat, objectType: TypeRecord): (r: Option<nat>)
    ensures objectType.id.Array? && pointer + LengthSize <= |data| ==>
      r == Some(LengthSize + objectType.id.element.Size() * GetLength(data[pointer..pointer + LengthSize]))
    ensures objectType.id.Array? && pointer + LengthSize > |data| ==> r.None?
    ensures objectType.id.Class? ==> r == objectType.classSize
    ensures !objectType.id.Array? && !objectType.id.Class? ==> r == Some(0)
  {
    match objectType.id
    case Array(element) =>
      if pointer + LengthSize <= |data| then
        Some(LengthSize + element.Size() * GetLength(data[pointer..pointer + LengthSize]))
      else None
    case Class(_) => objectType.classSize
    case _ => Some(0)
  }

  /**
   * `from_ptr`: the object whose header starts at `header`, its type looked up through the type
   * pointer. `None` when no type record sits at that address (`as_ref().unwrap()` on a pointer that
   * is not one), when a read leaves the buffer, or when a class type has no size.
   */
  function FromPointer(data: seq<byte>, header: nat, types: map<nat, TypeRecord>): (r: Option<ObjectReference>)
    ensures r.Some? <==>
      TypePointerAt(data, header).Some? && TypePointerAt(data, header).value in types &&
      PayloadSize(data, PayloadPointer(header), types[TypePointerAt(data, header).value]).Some?
    ensures r.Some? ==>
      r.value.pointer == PayloadPointer(header) &&
      r.value.objectType == types[TypePointerAt(data, header).value] &&
      Some(r.value.size) == PayloadSize(data, PayloadPointer(header), r.value.objectType)
  {
    match TypePointerAt(data, header)
    case None => None
    case Some(typePointer) =>
      if typePointer !in types then None
      else
        var objectType := types[typePointer];
        match PayloadSize(data, PayloadPointer(header), objectType)
        case None => None
        case Some(size) => Some(ObjectReference(PayloadPointer(header), objectType, size))
  }

  /** A length written as an `i32` reads back as that length cast to `usize`: the array's size is what was written. */
  lemma LengthRoundTrip(length: I32)
    ensures AsI32Value(LittleEndian(AsU32(length), LengthSize)) == length
    ensures GetLength(LittleEndian(AsU32(length), LengthSize)) == AsUsize(length)
    ensures length >= 0 ==> GetLength(LittleEndian(AsU32(length), LengthSize)) == length
  {
    assert Pow256(LengthSize) == 0x1_0000_0000;
    LittleEndianRoundTrip(AsU32(length), LengthSize);
  }
}
