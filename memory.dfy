/**
 * `MemoryManager` of the earlier revision: arrays without a header. The block holds the 4-byte
 * length and the elements; the pointer returned is the block's start. As written, the zeroing
 * loop starts after the length field but runs for the whole array size, so it writes 4 bytes
 * past the block. The model keeps that loop as a range and a counterexample, and the manager's
 * `NewArray` zeroes only the elements.
 */
module EarlyMemory {
  import opened Wrappers
  import opened Scalars
  import opened TypeIds
  import opened Heaps
  import opened Objects

  /** The bytes `[from, to)` a store loop writes. */
  datatype ByteRange = ByteRange(from: nat, to: nat)

  /** The bytes the zeroing loop writes as written: `array_size` bytes from just after the length field. */
  function ZeroedAsWritten(address: nat, arraySize: nat): (r: ByteRange)
    ensures r.to - r.from == arraySize && r.from == address + LengthSize
  {
    ByteRange(address + LengthSize, address + LengthSize + arraySize)
  }

  /** The bytes the zeroing is meant to write: the elements, up to the block's end. */
  function ZeroedElements(address: nat, arraySize: nat): (r: ByteRange)
    requires arraySize >= LengthSize
    ensures r.from == address + LengthSize && r.to == address + arraySize
  {
    ByteRange(address + LengthSize, address + arraySize)
  }

  /** As written, the loop always ends 4 bytes past the block `[address, address + arraySize)`. */
  lemma ZeroingOverrunsBlock(address: nat, arraySize: nat)
    ensures ZeroedAsWritten(address, arraySize).to == address + arraySize + LengthSize
  {
  }

  /**
   * An `Int32` array of 2097151 elements fills a fresh 8 MiB heap exactly, so the allocation
   * succeeds, yet the loop as written zeroes 4 bytes beyond the buffer.
   */
  lemma FullHeapArrayOverrunsBuffer()
    ensures ArraySize(Int32, 2097151).Some?
    ensures var size := ArraySize(Int32, 2097151).value;
      && 0 + size <= DefaultHeapSize
      && ZeroedAsWritten(0, size).to == DefaultHeapSize + 4
      && ZeroedElements(0, size).to == DefaultHeapSize
  {
    ArraySizeOfLength(Int32, 2097151);
  }

  class MemoryManager {
    const heap: Heap

    ghost predicate Valid()
      reads this, heap
    {
      heap.Valid() && heap.data.Length == DefaultHeapSize
    }

    /** `new`: an 8 MiB heap with nothing allocated. */
    constructor ()
      ensures Valid() && fresh(heap) && fresh(heap.data)
      ensures heap.offset == 0 && heap.allocations == []
    {
      heap := new Heap(DefaultHeapSize);
    }

    /** `is_owned`: the heap's `inside`, which the non-empty heap always answers. */
    function IsOwned(address: int): (owned: bool)
      reads this, heap
      requires Valid()
      ensures owned <==> 0 <= address < DefaultHeapSize - 1
    {
      heap.Inside(address).value
    }

    /**
     * `new_array` with the zeroing kept inside the block: the length field and the elements;
     * `None` is a type without an element type, a size that overflows `usize` (a negative length
     * cast to `usize`), or an exhausted heap. The length reads back as written, the elements are
     * zero, and no byte outside the block changes.
     */
    method NewArray(arrayType: TypeId, length: I32) returns (address: Option<nat>)
      requires Valid()
      modifies heap, heap.data
      ensures Valid()
      ensures address.Some? <==>
        arrayType.Array? && ArraySize(arrayType.element, length).Some? &&
        old(heap.offset) + ArraySize(arrayType.element, length).value <= DefaultHeapSize
      ensures address.None? ==> heap.offset == old(heap.offset) && heap.allocations == old(heap.allocations) && heap.data[..] == old(heap.data[..])
      ensures address.Some? ==>
        && address.value == old(heap.offset)
        && heap.allocations == old(heap.allocations) + [Block(address.value, ArraySize(arrayType.element, length).value)]
        && heap.data[..] == Overwrite(Overwrite(old(heap.data[..]), address.value, LittleEndian(AsU32(length), LengthSize)),
                                      address.value + LengthSize, Zeros(ArraySize(arrayType.element, length).value - LengthSize))
      ensures address.Some? ==> GetLength(heap.data[address.value..address.value + LengthSize]) == AsUsize(length)
      ensures address.Some? ==> forall i :: 0 <= i < heap.data.Length ==>
        (ZeroedElements(address.value, ArraySize(arrayType.element, length).value).from <= i
           < ZeroedElements(address.value, ArraySize(arrayType.element, length).value).to) ==> heap.data[i] == 0
      ensures address.Some? ==> forall i :: 0 <= i < heap.data.Length ==>
        !(address.value <= i < address.value + ArraySize(arrayType.element, length).value) ==> heap.data[i] == old(heap.data[i])
    {
      if !arrayType.Array? {
        return None;
      }
      var arraySize := ArraySize(arrayType.element, length);
      if arraySize.None? {
        return None;
      }
      var size := arraySize.value;
      address := heap.Allocate(size);
      if address.Some? {
        var start := address.value;
        ghost var before := heap.data[..];
        WriteBytes(heap.data, start, LittleEndian(AsU32(length), LengthSize));
        ghost var written := heap.data[..];
        WriteBytes(heap.data, start + LengthSize, Zeros(size - LengthSize));
        OverwriteSlices(before, start, LittleEndian(AsU32(length), LengthSize), start, start + LengthSize);
        OverwriteSlices(written, start + LengthSize, Zeros(size - LengthSize), start, start + LengthSize);
        LengthRoundTrip(length);
      }
    }
  }
}
