/**
 * `Runtime` of the earliest revision: arrays are blocks of the 4-byte length and the elements,
 * with only the length written; the rest of the block keeps whatever the buffer held, which for
 * a fresh heap is zero.
 */
module Runtimes {
  import opened Wrappers
  import opened Scalars
  import opened TypeIds
  import opened Heaps
  import opened Objects

  class Runtime {
    const heap: Heap

    ghost predicate Valid()
      reads this, heap
    {
      heap.Valid() && heap.data.Length == DefaultHeapSize
    }

    /** `new`: an 8 MiB heap with nothing allocated. */
    constructor ()
      ensures Valid() && fresh(heap) && fresh(heap.data)
      ensures heap.offset == 0 && heap.allocations == []
    {
      heap := new Heap(DefaultHeapSize);
    }

    /**
     * `new_array`: a block of `4 + length * element.size()` bytes with the length at its start.
     * `None` is a type that is not an array (the `panic!`), a size that overflows `usize` (a
     * negative length cast to `usize`), or an exhausted heap (the `unwrap`).
     * The length reads back as written and no other byte changes.
     */
    method NewArray(arrayType: TypeId, length: I32) returns (address: Option<nat>)
      requires Valid()
      modifies heap, heap.data
      ensures Valid()
      ensures address.Some? <==>
        arrayType.Array? && ArraySize(arrayType.element, length).Some? && old(heap.offset) + ArraySize(arrayType.element, length).value <= DefaultHeapSize
      ensures address.None? ==> heap.offset == old(heap.offset) && heap.allocations == old(heap.allocations) && heap.data[..] == old(heap.data[..])
      ensures address.Some? ==>
        && address.value == old(heap.offset)
        && heap.offset == old(heap.offset) + ArraySize(arrayType.element, length).value
        && heap.allocations == old(heap.allocations) + [Block(address.value, ArraySize(arrayType.element, length).value)]
        && heap.data[..] == Overwrite(old(heap.data[..]), address.value, LittleEndian(AsU32(length), LengthSize))
      ensures address.Some? ==> GetLength(heap.data[address.value..address.value + LengthSize]) == AsUsize(length)
    {
      match arrayType {
        case Array(element) =>
          var size := ArraySize(element, length);
          if size.None? {
            return None;
          }
          address := heap.Allocate(size.value);
          if address.Some? {
            ghost var before := heap.data[..];
            WriteBytes(heap.data, address.value, LittleEndian(AsU32(length), LengthSize));
            OverwriteSlices(before, address.value, LittleEndian(AsU32(length), LengthSize), address.value, address.value + LengthSize);
            LengthRoundTrip(length);
          }
        case _ =>
          address := None;
      }
    }
  }
}
