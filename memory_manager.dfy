/**
 * `MemoryManager` (the later revision): objects are allocated from the heap with a header in
 * front. The first `size` bytes from the block's start are zeroed, the type pointer is written
 * into the header, and the pointer returned is the payload's. An array's payload starts with its
 * length. The heap buffer starts zeroed and nothing past the offset is ever written, which is
 * what makes the whole payload of a new object zero.
 */
module MemoryManagers {
  import opened Wrappers
  import opened Scalars
  import opened TypeIds
  import opened Heaps
  import opened Objects

  class MemoryManager {
    const heap: Heap

    /** The heap is consistent, of the default size, and untouched past its offset. */
    ghost predicate Valid()
      reads this, heap, heap.data
    {
      && heap.Valid()
      && heap.data.Length == DefaultHeapSize
      && forall i :: heap.offset <= i < heap.data.Length ==> heap.data[i] == 0
    }

    /** `new`: an 8 MiB heap with nothing allocated. */
    constructor ()
      ensures Valid() && fresh(heap) && fresh(heap.data)
      ensures heap.offset == 0 && heap.allocations == []
    {
      heap := new Heap(DefaultHeapSize);
    }

    /** `is_owned`: the heap's `inside`, which the non-empty heap always answers. */
    function IsOwned(address: int): (owned: bool)
      reads this, heap, heap.data
      requires Valid()
      ensures owned <==> 0 <= address < DefaultHeapSize - 1
    {
      heap.Inside(address).value
    }

    /**
     * `new_object`: a block of the payload size and the header; `None` is the panic of an
     * exhausted heap, which leaves everything as it was. On success the header holds the type
     * pointer, the object is unmarked, the payload is all zero, and the pointer is the payload's.
     */
    method NewObject(typePointer: nat, size: nat) returns (pointer: Option<nat>)
      requires Valid() && typePointer < Pow256(TypePointerSize)
      modifies heap, heap.data
      ensures Valid()
      ensures pointer.Some? <==> old(heap.offset) + size + HeaderSize <= DefaultHeapSize
      ensures pointer.None? ==> heap.offset == old(heap.offset) && heap.allocations == old(heap.allocations) && heap.data[..] == old(heap.data[..])
      ensures pointer.Some? ==>
        && pointer.value == PayloadPointer(old(heap.offset))
        && heap.offset == old(heap.offset) + size + HeaderSize
        && heap.allocations == old(heap.allocations) + [Block(old(heap.offset), size + HeaderSize)]
        && heap.data[..] == Overwrite(Overwrite(old(heap.data[..]), old(heap.offset), Zeros(size)),
                                      old(heap.offset), LittleEndian(typePointer, TypePointerSize))
      ensures pointer.Some? ==> TypePointerAt(heap.data[..], old(heap.offset)) == Some(typePointer)
      ensures pointer.Some? ==> heap.data[old(heap.offset) + TypePointerSize] == 0
      ensures pointer.Some? ==> forall i :: pointer.value <= i < pointer.value + size ==> heap.data[i] == 0
    {
      var address := heap.Allocate(size + HeaderSize);
      match address {
        case None =>
          pointer := None;
        case Some(start) =>
          ghost var before := heap.data[..];
          WriteBytes(heap.data, start, Zeros(size));
          WriteBytes(heap.data, start, LittleEndian(typePointer, TypePointerSize));
          ObjectBytes(before, start, size, typePointer);
          pointer := Some(PayloadPointer(start));
      }
    }

    /**
     * `new_array`: an object of the length field and `length` elements, with the length stored in
     * front of the elements. `None` is a type without an element type (the `expect` panic), a
     * size that overflows `usize` (a negative length, cast to `usize`), or an exhausted heap.
     * Reading the new object back through its header gives its type and exactly the size that
     * was allocated, and its elements are zero.
     */
    method NewArray(arrayType: TypeRecord, typePointer: nat, length: I32) returns (pointer: Option<nat>)
      requires Valid() && typePointer < Pow256(TypePointerSize)
      modifies heap, heap.data
      ensures Valid()
      ensures pointer.Some? <==>
        arrayType.id.Array? && ArraySize(arrayType.id.element, length).Some? &&
        old(heap.offset) + ArraySize(arrayType.id.element, length).value + HeaderSize <= DefaultHeapSize
      ensures pointer.None? ==> heap.offset == old(heap.offset) && heap.allocations == old(heap.allocations) && heap.data[..] == old(heap.data[..])
      ensures pointer.Some? ==>
        && pointer.value == PayloadPointer(old(heap.offset))
        && heap.allocations == old(heap.allocations) + [Block(old(heap.offset), ArraySize(arrayType.id.element, length).value + HeaderSize)]
        && heap.data[..] == ArrayBytes(old(heap.data[..]), old(heap.offset), typePointer, length, ArraySize(arrayType.id.element, length).value)
      ensures pointer.Some? ==>
        FromPointer(heap.data[..], old(heap.offset), map[typePointer := arrayType]) ==
        Some(ObjectReference(pointer.value, arrayType, ArraySize(arrayType.id.element, length).value))
      ensures pointer.Some? ==>
        forall i :: pointer.value + LengthSize <= i < pointer.value + ArraySize(arrayType.id.element, length).value ==> heap.data[i] == 0
    {
      if !arrayType.id.Array? {
        return None;
      }
      var size := ArraySize(arrayType.id.element, length);
      if size.None? {
        return None;
      }
      ghost var start := heap.offset;
      ghost var initial := heap.data[..];
      pointer := NewObject(typePointer, size.value);
      if pointer.Some? {
        ghost var zeroed := heap.data[..];
        WriteBytes(heap.data, pointer.value, LittleEndian(AsU32(length), LengthSize));
        LengthWriteKeepsZeros(zeroed, pointer.value, size.value, heap.offset, LittleEndian(AsU32(length), LengthSize));
        ArrayReadsBack(initial, start, typePointer, arrayType, length, size.value);
      }
    }

    /**
     * `new_class`: an object of the class's memory size; `None` is a type without a class (the
     * `unwrap` panic) or an exhausted heap. A class object reads back with the class size.
     */
    method NewClass(classType: TypeRecord, typePointer: nat) returns (pointer: Option<nat>)
      requires Valid() && typePointer < Pow256(TypePointerSize)
      modifies heap, heap.data
      ensures Valid()
      ensures pointer.Some? <==> classType.classSize.Some? && old(heap.offset) + classType.classSize.value + HeaderSize <= DefaultHeapSize
      ensures pointer.None? ==> heap.offset == old(heap.offset) && heap.allocations == old(heap.allocations) && heap.data[..] == old(heap.data[..])
      ensures pointer.Some? ==>
        && pointer.value == PayloadPointer(old(heap.offset))
        && heap.allocations == old(heap.allocations) + [Block(old(heap.offset), classType.classSize.value + HeaderSize)]
        && forall i :: pointer.value <= i < pointer.value + classType.classSize.value ==> heap.data[i] == 0
      ensures pointer.Some? && classType.id.Class? ==>
        FromPointer(heap.data[..], old(heap.offset), map[typePointer := classType]) ==
        Some(ObjectReference(pointer.value, classType, classType.classSize.value))
    {
      if classType.classSize.None? {
        return None;
      }
      pointer := NewObject(typePointer, classType.classSize.value);
    }
  }

  /**
   * The bytes `new_object` leaves in a buffer that is zero from the block's start: the type
   * pointer reads back from the header and every byte after it is zero.
   */
  lemma ObjectBytes(before: seq<byte>, start: nat, size: nat, typePointer: nat)
    requires start + size + HeaderSize <= |before| && typePointer < Pow256(TypePointerSize)
    requires forall i :: start <= i < |before| ==> before[i] == 0
    ensures var data := Overwrite(Overwrite(before, start, Zeros(size)), start, LittleEndian(typePointer, TypePointerSize));
      && TypePointerAt(data, start) == Some(typePointer)
      && forall i :: start + TypePointerSize <= i < |data| ==> data[i] == 0
  {
    OverwriteSlices(Overwrite(before, start, Zeros(size)), start, LittleEndian(typePointer, TypePointerSize),
                    start, start + TypePointerSize);
    LittleEndianRoundTrip(typePointer, TypePointerSize);
  }

  /** The buffer after `new_array`: the first `size` bytes zeroed, the type pointer, then the length at the payload. */
  function ArrayBytes(before: seq<byte>, start: nat, typePointer: nat, length: I32, size: nat): (r: seq<byte>)
    requires LengthSize <= size && start + HeaderSize + size <= |before|
    ensures |r| == |before|
  {
    Overwrite(Overwrite(Overwrite(before, start, Zeros(size)), start, LittleEndian(typePointer, TypePointerSize)),
              PayloadPointer(start), LittleEndian(AsU32(length), LengthSize))
  }

  /**
   * The array `new_array` lays out reads back through its header as an array of its type and
   * exactly its size: the type pointer and the length field survive the later writes.
   */
  /** Writing the length field leaves the elements and everything past the heap offset zero. */
  lemma LengthWriteKeepsZeros(d: seq<byte>, payload: nat, size: nat, offset: nat, lengthBytes: seq<byte>)
    requires |lengthBytes| == LengthSize <= size && payload + size <= offset <= |d|
    requires forall i :: payload <= i < payload + size ==> d[i] == 0
    requires forall i :: offset <= i < |d| ==> d[i] == 0
    ensures var r := Overwrite(d, payload, lengthBytes);
      && (forall i :: payload + LengthSize <= i < payload + size ==> r[i] == 0)
      && (forall i :: offset <= i < |r| ==> r[i] == 0)
  {
  }

  lemma ArrayReadsBack(before: seq<byte>, start: nat, typePointer: nat, arrayType: TypeRecord, length: I32, size: nat)
    requires arrayType.id.Array? && ArraySize(arrayType.id.element, length) == Some(size)
    requires start + HeaderSize + size <= |before| && typePointer < Pow256(TypePointerSize)
    ensures FromPointer(ArrayBytes(before, start, typePointer, length, size), start, map[typePointer := arrayType]) ==
      Some(ObjectReference(PayloadPointer(start), arrayType, size))
  {
    var header := Overwrite(Overwrite(before, start, Zeros(size)), start, LittleEndian(typePointer, TypePointerSize));
    var data := ArrayBytes(before, start, typePointer, length, size);
    var lengthBytes := LittleEndian(AsU32(length), LengthSize);
    OverwriteSlices(Overwrite(before, start, Zeros(size)), start, LittleEndian(typePointer, TypePointerSize), start, start + TypePointerSize);
    OverwriteSlices(header, PayloadPointer(start), lengthBytes, start, start + TypePointerSize);
    OverwriteSlices(header, PayloadPointer(start), lengthBytes, PayloadPointer(start), PayloadPointer(start) + LengthSize);
    LittleEndianRoundTrip(typePointer, TypePointerSize);
    LengthRoundTrip(length);
    assert TypePointerAt(data, start) == Some(typePointer);
    var payload := PayloadPointer(start);
    assert data[payload..payload + LengthSize] == lengthBytes;
    var elements := AsUsize(length);
    assert GetLength(data[payload..payload + LengthSize]) == elements;
    var elementSize := arrayType.id.element.Size();
    assert elementSize * elements == elements * elementSize;
    assert PayloadSize(data, payload, arrayType) == Some(LengthSize + elementSize * elements);
    assert size == LengthSize + elements * elementSize;
  }

  /** Two objects allocated one after the other are adjacent: the second header follows the first payload. */
  method NewObjectTwice(manager: MemoryManager, typePointer: nat, first: nat, second: nat) returns (a: Option<nat>, b: Option<nat>)
    requires manager.Valid() && typePointer < Pow256(TypePointerSize)
    modifies manager.heap, manager.heap.data
    ensures manager.Valid()
    ensures a.Some? && b.Some? ==> b.value == a.value + first + HeaderSize
    ensures a.None? ==> b.None? || second < first
  {
    a := manager.NewObject(typePointer, first);
    b := manager.NewObject(typePointer, second);
  }
}
