/**
 * The managed heap: a zero-filled byte buffer with a bump offset. `allocate` hands out the bytes
 * at the offset and advances it; nothing is ever freed, so the blocks handed out tile the buffer
 * from its start up to the offset. Addresses are byte offsets from the buffer's start.
 *
 * The heap-objects iterator walks the allocated part block by block: the layout of the blocks,
 * which the source reads from object headers in memory, is given here as a sequence.
 */
module Heaps {
  import opened Wrappers
  import opened TypeIds

  /** `HEADER_SIZE`: the type pointer and the mark byte in front of every object. */
  const HeaderSize: nat := 9

  /** A Rust `u8`. */
  newtype byte = x: int | 0 <= x < 256

  /** The size every runtime creates its heap with: 8 MiB. */
  const DefaultHeapSize: nat := 8 * 1024 * 1024

  /** One block handed out by `allocate`. */
  datatype Block = Block(start: nat, size: nat)
  {
    function End(): nat { start + size }
  }

  /** Blocks that follow one another without gaps, the first at 0, the last ending at `end`. */
  ghost predicate Tiled(blocks: seq<Block>, end: nat) {
    && (|blocks| == 0 ==> end == 0)
    && (|blocks| > 0 ==> blocks[0].start == 0 && blocks[|blocks| - 1].End() == end)
    && (forall i :: 0 <= i < |blocks| - 1 ==> blocks[i].End() == blocks[i + 1].start)
  }

  /** Tiled blocks are disjoint, in address order, and lie below the end. */
  lemma {:induction false} TiledDisjoint(blocks: seq<Block>, end: nat, i: nat, j: nat)
    requires Tiled(blocks, end) && i < j < |blocks|
    ensures blocks[i].End() <= blocks[j].start
    ensures blocks[j].End() <= end
    decreases j - i
  {
    if i + 1 < j {
      TiledDisjoint(blocks, end, i + 1, j);
    }
    TiledBelowEnd(blocks, end, j);
  }

  lemma {:induction false} TiledBelowEnd(blocks: seq<Block>, end: nat, j: nat)
    requires Tiled(blocks, end) && j < |blocks|
    ensures blocks[j].End() <= end
    decreases |blocks| - j
  {
    if j + 1 < |blocks| {
      TiledBelowEnd(blocks, end, j + 1);
    }
  }

  /** `Heap` (both revisions). */
  class Heap {
    const data: array<byte>
    var offset: nat
    /** The blocks handed out so far, in order. */
    ghost var allocations: seq<Block>

    ghost predicate Valid()
      reads this
    {
      offset <= data.Length && Tiled(allocations, offset)
    }

    /** `new`: a zero-filled buffer of `size` bytes, nothing allocated. */
    constructor (size: nat)
      ensures Valid() && fresh(data) && data.Length == size
      ensures offset == 0 && allocations == []
      ensures forall i :: 0 <= i < size ==> data[i] == 0
    {
      data := new byte[size](_ => 0);
      offset := 0;
      allocations := [];
    }

    /**
     * `allocate`: the block at the offset when it fits, with the offset advanced past it; `None`
     * and nothing changed otherwise. Taking the address of the byte at the offset panics when a
     * zero-sized block is requested from a full heap; that is the precondition.
     */
    method Allocate(size: nat) returns (address: Option<nat>)
      requires Valid()
      requires !(offset == data.Length && size == 0)
      modifies this
      ensures Valid()
      ensures address.Some? <==> old(offset) + size <= data.Length
      ensures address.Some? ==>
        address.value == old(offset) && offset == old(offset) + size &&
        allocations == old(allocations) + [Block(old(offset), size)]
      ensures address.None? ==> offset == old(offset) && allocations == old(allocations)
    {
      if offset + size <= data.Length {
        address := Some(offset);
        allocations := allocations + [Block(offset, size)];
        offset := offset + size;
      } else {
        address := None;
      }
    }

    /**
     * `inside`: from the buffer's first byte up to, but not including, its last byte, as the
     * comparison with the last byte's address is written; `None` is the panic of an empty buffer.
     */
    function Inside(address: int): (r: Option<bool>)
      reads this
      ensures r.None? <==> data.Length == 0
      ensures r.Some? ==> (r.value <==> 0 <= address < data.Length - 1)
    {
      if data.Length == 0 then None else Some(0 <= address < data.Length - 1)
    }
  }

  /** Every block handed out lies inside the buffer, and two blocks never overlap. */
  lemma AllocationsDisjoint(heap: Heap, i: nat, j: nat)
    requires heap.Valid() && i < j < |heap.allocations|
    ensures heap.allocations[i].End() <= heap.allocations[j].start
    ensures heap.allocations[j].End() <= heap.data.Length
  {
    TiledDisjoint(heap.allocations, heap.offset, i, j);
  }

  /** Two successful allocations in a row are adjacent: the second starts where the first ends. */
  method AllocateTwice(heap: Heap, first: nat, second: nat) returns (a: Option<nat>, b: Option<nat>)
    requires heap.Valid() && first > 0 && second > 0
    modifies heap
    ensures heap.Valid()
    ensures a.Some? && b.Some? ==> b.value == a.value + first
    ensures a.None? ==> b.None? || second < first
  {
    a := heap.Allocate(first);
    b := heap.Allocate(second);
  }

  /** The last byte of the buffer is never inside, as written, even when it was allocated. */
  lemma LastByteOutside(heap: Heap)
    requires heap.data.Length > 0
    ensures heap.Inside(heap.data.Length - 1) == Some(false)
  {
  }

  // Bytes in the buffer

  /** `s` with `bytes` written over it from `at` on. */
  function Overwrite(s: seq<byte>, at: nat, bytes: seq<byte>): (r: seq<byte>)
    requires at + |bytes| <= |s|
    ensures |r| == |s|
    ensures forall i :: 0 <= i < |s| ==> r[i] == if at <= i < at + |bytes| then bytes[i - at] else s[i]
  {
    s[..at] + bytes + s[at + |bytes|..]
  }

  /** `count` zero bytes. */
  function Zeros(count: nat): (r: seq<byte>)
    ensures |r| == count && forall i :: 0 <= i < count ==> r[i] == 0
  {
    seq(count, _ => 0)
  }

  function Pow256(n: nat): (p: nat)
    ensures p > 0
  {
    if n == 0 then 1 else 256 * Pow256(n - 1)
  }

  /** A value's `width` low-order bytes, least significant first, as an unaligned store writes them. */
  function LittleEndian(value: nat, width: nat): (bytes: seq<byte>)
    ensures |bytes| == width
  {
    if width == 0 then [] else [(value % 256) as byte] + LittleEndian(value / 256, width - 1)
  }

  /** The value a little-endian load reads. */
  function ReadLittleEndian(bytes: seq<byte>): nat {
    if |bytes| == 0 then 0 else bytes[0] as nat + 256 * ReadLittleEndian(bytes[1..])
  }

  /** Reading back what was stored gives the value when it fits the width. */
  lemma {:induction false} LittleEndianRoundTrip(value: nat, width: nat)
    requires value < Pow256(width)
    ensures ReadLittleEndian(LittleEndian(value, width)) == value
    decreases width
  {
    if width > 0 {
      var bytes := LittleEndian(value, width);
      assert bytes[1..] == LittleEndian(value / 256, width - 1);
      assert value / 256 < Pow256(width - 1);
      LittleEndianRoundTrip(value / 256, width - 1);
    }
  }

  /** A load of `n` bytes never reads more than `n` bytes can hold. */
  lemma {:induction false} ReadLittleEndianBound(bytes: seq<byte>)
    ensures ReadLittleEndian(bytes) < Pow256(|bytes|)
    decreases |bytes|
  {
    if |bytes| > 0 {
      ReadLittleEndianBound(bytes[1..]);
    }
  }

  /** The bytes just written read back as written; the bytes outside them are as before. */
  lemma OverwriteSlices(s: seq<byte>, at: nat, bytes: seq<byte>, from: nat, to: nat)
    requires at + |bytes| <= |s| && from <= to <= |s|
    ensures from == at && to == at + |bytes| ==> Overwrite(s, at, bytes)[from..to] == bytes
    ensures to <= at || at + |bytes| <= from ==> Overwrite(s, at, bytes)[from..to] == s[from..to]
  {
    var r := Overwrite(s, at, bytes);
    if from == at && to == at + |bytes| {
      assert forall i :: 0 <= i < |bytes| ==> r[from..to][i] == r[at + i];
    }
    if to <= at || at + |bytes| <= from {
      assert forall i :: 0 <= i < to - from ==> r[from..to][i] == r[from + i];
    }
  }

  /** A write of bytes into the buffer at an address. */
  method WriteBytes(data: array<byte>, at: nat, bytes: seq<byte>)
    requires at + |bytes| <= data.Length
    modifies data
    ensures data[..] == Overwrite(old(data[..]), at, bytes)
  {
    for k := 0 to |bytes|
      invariant forall i :: 0 <= i < data.Length ==> data[i] == if at <= i < at + k then bytes[i - at] else old(data[i])
    {
      data[at + k] := bytes[k];
    }
  }

  // The heap-objects iterator

  /** What the iterator finds at an offset: an object with its payload size, or a deleted block of a size. */
  datatype Entry = Object(objectType: TypeId, size: nat) | Deleted(deletedSize: nat)
  {
    /** `full_size` for an object; the recorded size for a deleted block. */
    function Width(): nat {
      match this
      case Object(_, size) => size + HeaderSize
      case Deleted(deletedSize) => deletedSize
    }
  }

  /** The bytes a layout spans. */
  function Span(entries: seq<Entry>): nat {
    if |entries| == 0 then 0 else Span(entries[..|entries| - 1]) + entries[|entries| - 1].Width()
  }

  /** A deleted block records a positive size, so the iterator always advances. */
  predicate Advancing(entries: seq<Entry>) {
    forall k :: 0 <= k < |entries| ==> entries[k].Width() > 0
  }

  /** An object the iterator yields: where its header starts, and the object. */
  datatype Found = Found(headerOffset: nat, objectType: TypeId, size: nat)
  {
    /** The object pointer, past the header. */
    function Pointer(): nat { headerOffset + HeaderSize }
  }

  /** The objects of a layout in heap order, each at the offset where it starts. */
  function Objects(entries: seq<Entry>): seq<Found> {
    if |entries| == 0 then []
    else
      var front := entries[..|entries| - 1];
      var last := entries[|entries| - 1];
      Objects(front) + if last.Object? then [Found(Span(front), last.objectType, last.size)] else []
  }

  lemma SpanStep(entries: seq<Entry>, k: nat)
    requires k < |entries|
    ensures Span(entries[..k + 1]) == Span(entries[..k]) + entries[k].Width()
    ensures Objects(entries[..k + 1]) == Objects(entries[..k]) + if entries[k].Object? then [Found(Span(entries[..k]), entries[k].objectType, entries[k].size)] else []
  {
    assert entries[..k + 1][..k] == entries[..k];
  }

  lemma {:induction false} SpanGrows(entries: seq<Entry>, j: nat, k: nat)
    requires Advancing(entries) && j < k <= |entries|
    ensures Span(entries[..j]) < Span(entries[..k])
    decreases k - j
  {
    SpanStep(entries, k - 1);
    if j < k - 1 {
      SpanGrows(entries, j, k - 1);
    }
  }

  /** What reading the header at each block's offset finds. */
  function LayoutOf(entries: seq<Entry>): map<nat, Entry> {
    if |entries| == 0 then map[]
    else LayoutOf(entries[..|entries| - 1])[Span(entries[..|entries| - 1]) := entries[|entries| - 1]]
  }

  /** The header at the offset where an entry's block starts describes that entry. */
  lemma {:induction false} LayoutAt(entries: seq<Entry>, k: nat)
    requires Advancing(entries) && k < |entries|
    ensures Span(entries[..k]) in LayoutOf(entries) && LayoutOf(entries)[Span(entries[..k])] == entries[k]
    decreases |entries|
  {
    var front := entries[..|entries| - 1];
    if k < |entries| - 1 {
      assert front[..k] == entries[..k] && front[k] == entries[k];
      assert Advancing(front) by {
        assert forall i :: 0 <= i < |front| ==> front[i] == entries[i];
      }
      LayoutAt(front, k);
      SpanGrows(entries, k, |entries| - 1);
    } else {
      assert front == entries[..k];
    }
  }

  /** `HeapObjectsIterator` over a heap whose allocated part has the given layout. */
  class HeapObjectsIterator {
    const entries: seq<Entry>
    /** The heap's memory as the iterator reads it: the block found at an offset. */
    const layout: map<nat, Entry>
    const heapOffset: nat
    var currentObjectOffset: nat
    /** How many entries lie below the current offset. */
    ghost var consumed: nat

    ghost predicate Valid()
      reads this
    {
      && consumed <= |entries|
      && currentObjectOffset == Span(entries[..consumed])
      && heapOffset == Span(entries)
      && Advancing(entries)
      && layout == LayoutOf(entries)
    }

    /** The objects not yet yielded. */
    ghost function Remaining(): seq<Found>
      reads this
      requires Valid()
    {
      ObjectsFrom(entries, consumed)
    }

    constructor (entries: seq<Entry>, heapOffset: nat)
      requires heapOffset == Span(entries) && Advancing(entries)
      ensures Valid() && this.entries == entries && this.heapOffset == heapOffset
      ensures Remaining() == Objects(entries)
    {
      this.entries := entries;
      layout := LayoutOf(entries);
      this.heapOffset := heapOffset;
      currentObjectOffset := 0;
      consumed := 0;
      ObjectsFromAll(entries);
    }

    /** `next`: skips deleted blocks and yields the next object, advancing past it; `None` at the heap offset. */
    method Next() returns (r: Option<Found>)
      requires Valid()
      modifies this
      ensures Valid()
      ensures old(Remaining()) == [] ==> r.None? && Remaining() == []
      ensures old(Remaining()) != [] ==> r == Some(old(Remaining())[0]) && Remaining() == old(Remaining())[1..]
    {
      if currentObjectOffset >= heapOffset {
        NothingPastEnd(entries, consumed);
        return None;
      }
      while currentObjectOffset < heapOffset
        invariant Valid() && ObjectsFrom(entries, consumed) == old(Remaining())
        decreases |entries| - consumed
      {
        assert entries[..|entries|] == entries;
        SpanStep(entries, consumed);
        LayoutAt(entries, consumed);
        match layout[currentObjectOffset]
        case Object(t, size) =>
          var found := Found(currentObjectOffset, t, size);
          ObjectsFromStep(entries, consumed);
          currentObjectOffset := currentObjectOffset + size + HeaderSize;
          consumed := consumed + 1;
          return Some(found);
        case Deleted(deletedSize) =>
          ObjectsFromStep(entries, consumed);
          currentObjectOffset := currentObjectOffset + deletedSize;
          consumed := consumed + 1;
      }
      NothingPastEnd(entries, consumed);
      return None;
    }
  }

  /** The objects from the `k`-th entry on. */
  function ObjectsFrom(entries: seq<Entry>, k: nat): seq<Found>
    requires k <= |entries|
    decreases |entries| - k
  {
    if k == |entries| then []
    else (if entries[k].Object? then [Found(Span(entries[..k]), entries[k].objectType, entries[k].size)] else []) + ObjectsFrom(entries, k + 1)
  }

  lemma ObjectsFromStep(entries: seq<Entry>, k: nat)
    requires k < |entries|
    ensures ObjectsFrom(entries, k) == (if entries[k].Object? then [Found(Span(entries[..k]), entries[k].objectType, entries[k].size)] else []) + ObjectsFrom(entries, k + 1)
  {
  }

  /** Once the offset reaches the heap offset, no entries and so no objects remain. */
  lemma NothingPastEnd(entries: seq<Entry>, k: nat)
    requires Advancing(entries) && k <= |entries| && Span(entries[..k]) >= Span(entries)
    ensures ObjectsFrom(entries, k) == []
  {
    if k < |entries| {
      assert entries[..|entries|] == entries;
      SpanGrows(entries, k, |entries|);
    }
  }

  /** Splitting the objects of a layout at any entry. */
  lemma {:induction false} ObjectsSplit(entries: seq<Entry>, k: nat)
    requires k <= |entries|
    ensures Objects(entries[..k]) + ObjectsFrom(entries, k) == Objects(entries)
    decreases |entries| - k
  {
    if k == |entries| {
      assert entries[..k] == entries;
    } else {
      var piece := if entries[k].Object? then [Found(Span(entries[..k]), entries[k].objectType, entries[k].size)] else [];
      SpanStep(entries, k);
      ObjectsFromStep(entries, k);
      ObjectsSplit(entries, k + 1);
      calc {
        Objects(entries[..k]) + ObjectsFrom(entries, k);
        Objects(entries[..k]) + (piece + ObjectsFrom(entries, k + 1));
        (Objects(entries[..k]) + piece) + ObjectsFrom(entries, k + 1);
        Objects(entries[..k + 1]) + ObjectsFrom(entries, k + 1);
      }
    }
  }

  lemma ObjectsFromAll(entries: seq<Entry>)
    ensures ObjectsFrom(entries, 0) == Objects(entries)
  {
    ObjectsSplit(entries, 0);
    assert entries[..0] == [];
  }

  /** Draining the iterator yields exactly the objects of the layout, in heap order. */
  method AllObjects(entries: seq<Entry>, heapOffset: nat) returns (found: seq<Found>)
    requires heapOffset == Span(entries) && Advancing(entries)
    ensures found == Objects(entries)
  {
    var walker := new HeapObjectsIterator(entries, heapOffset);
    found := [];
    while true
      invariant walker.Valid() && found + walker.Remaining() == Objects(entries)
      decreases |walker.Remaining()|
    {
      var next := walker.Next();
      if next.None? {
        break;
      }
      found := found + [next.value];
    }
  }

  /** The iterator yields only objects, each at the offset where its block starts, and every object once. */
  lemma {:induction false} ObjectsAreTheObjectBlocks(entries: seq<Entry>)
    ensures |Objects(entries)| == |set k | 0 <= k < |entries| && entries[k].Object?|
    ensures forall f :: f in Objects(entries) ==> exists k :: 0 <= k < |entries| && entries[k] == Object(f.objectType, f.size) && f.headerOffset == Span(entries[..k])
    decreases |entries|
  {
    if |entries| > 0 {
      var front := entries[..|entries| - 1];
      ObjectsAreTheObjectBlocks(front);
      var before := set k | 0 <= k < |front| && front[k].Object?;
      var after := set k | 0 <= k < |entries| && entries[k].Object?;
      assert forall k :: 0 <= k < |front| ==> front[k] == entries[k] && front[..k] == entries[..k];
      if entries[|entries| - 1].Object? {
        assert after == before + {|entries| - 1};
      } else {
        assert after == before;
      }
    }
  }
}
