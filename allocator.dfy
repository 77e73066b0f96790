/**
 * The allocator of executable memory for compiled code: pages obtained from the operating
 * system, each handed out by bumping an offset. A request is served by the first page with room
 * for it; when none has room a new page of the request's size rounded up to whole 4 KiB pages is
 * mapped and the request is served at its start. The mapping call is outside the model: the
 * address it returns is a parameter.
 */
module ExecutableAllocators {
  import opened Wrappers

  /** The page size requests are rounded up to. */
  const PageSize: nat := 4096

  /** `((size + page_size - 1) / page_size) * page_size`. */
  function PageRounded(size: nat): (rounded: nat)
    ensures rounded % PageSize == 0
    ensures size <= rounded < size + PageSize
  {
    ((size + PageSize - 1) / PageSize) * PageSize
  }

  /** `ExecutablePage`: a mapped region of `size` bytes at `address`, used up to `currentOffset`. */
  class ExecutablePage {
    const address: nat
    const size: nat
    var currentOffset: nat

    ghost predicate Valid()
      reads this
    {
      currentOffset <= size
    }

    /** `new` after a successful mapping: nothing used yet. */
    constructor (address: nat, size: nat)
      ensures Valid() && this.address == address && this.size == size && currentOffset == 0
    {
      this.address := address;
      this.size := size;
      currentOffset := 0;
    }

    /**
     * `try_allocate`: served iff the bytes left hold the request; the pointer is the base plus the
     * old offset and the offset advances by the request. A refusal changes nothing.
     */
    method TryAllocate(request: nat) returns (pointer: Option<nat>)
      requires Valid()
      modifies this
      ensures Valid()
      ensures pointer.Some? <==> request <= size - old(currentOffset)
      ensures pointer.Some? ==> pointer.value == address + old(currentOffset) && currentOffset == old(currentOffset) + request
      ensures pointer.None? ==> currentOffset == old(currentOffset)
    {
      var sizeLeft := size - currentOffset;
      if sizeLeft >= request {
        pointer := Some(address + currentOffset);
        currentOffset := currentOffset + request;
      } else {
        pointer := None;
      }
    }
  }

  /** The first page with room left for the request, if any. */
  ghost function FirstFit(pages: seq<ExecutablePage>, request: nat): (r: Option<nat>)
    reads set p | p in pages
    ensures r.Some? ==> r.value < |pages| && request <= pages[r.value].size - pages[r.value].currentOffset
    ensures r.Some? ==> forall j :: 0 <= j < r.value ==> request > pages[j].size - pages[j].currentOffset
    ensures r.None? ==> forall j :: 0 <= j < |pages| ==> request > pages[j].size - pages[j].currentOffset
  {
    if |pages| == 0 then None
    else if request <= pages[0].size - pages[0].currentOffset then Some(0)
    else match FirstFit(pages[1..], request)
      case None => None
      case Some(i) => Some(i + 1)
  }

  /** `ExecutableMemoryAllocator`: the pages mapped so far, in mapping order. */
  class ExecutableMemoryAllocator {
    var pages: seq<ExecutablePage>

    /** Every page is consistent and appears once. */
    ghost predicate Valid()
      reads this, set p | p in pages
    {
      && (forall i :: 0 <= i < |pages| ==> pages[i].Valid())
      && (forall i, j :: 0 <= i < j < |pages| ==> pages[i] != pages[j])
    }

    /** `new`: no pages. */
    constructor ()
      ensures Valid() && pages == []
    {
      pages := [];
    }

    /** The loop over the existing pages: the first with room serves the request, and no other page changes. */
    method AllocateFromPages(request: nat) returns (pointer: Option<nat>)
      requires Valid()
      modifies set p | p in pages
      ensures Valid()
      ensures var fit := old(FirstFit(pages, request));
        && (fit.Some? ==> pointer == Some(pages[fit.value].address + old(pages[fit.value].currentOffset)))
        && (fit.None? ==> pointer.None?)
        && forall j :: 0 <= j < |pages| ==>
             pages[j].currentOffset == old(pages[j].currentOffset) + if fit == Some(j) then request else 0
    {
      ghost var fit := FirstFit(pages, request);
      for i := 0 to |pages|
        invariant Valid()
        invariant fit.None? || fit.value >= i
        invariant forall j :: 0 <= j < |pages| ==> pages[j].currentOffset == old(pages[j].currentOffset)
      {
        pointer := pages[i].TryAllocate(request);
        if pointer.Some? {
          return;
        }
      }
      pointer := None;
    }

    /**
     * `allocate`: the first page with room serves the request, and no other page changes.
     * Without one, a page of the rounded-up size is mapped at `mapped` and serves the request at
     * its start; `None` is a mapping that returns null (the `unwrap` panic).
     */
    method Allocate(request: nat, mapped: nat) returns (pointer: Option<nat>)
      requires Valid()
      modifies this, set p | p in pages
      ensures Valid()
      ensures var fit := old(FirstFit(pages, request));
        && (fit.Some? ==> pages == old(pages) && pointer == Some(pages[fit.value].address + old(pages[fit.value].currentOffset)))
        && (fit.None? && mapped == 0 ==> pointer.None? && pages == old(pages))
        && (fit.None? && mapped != 0 ==>
              && pointer == Some(mapped)
              && |pages| == |old(pages)| + 1 && pages[..|old(pages)|] == old(pages)
              && fresh(pages[|old(pages)|])
              && pages[|old(pages)|].address == mapped
              && pages[|old(pages)|].size == PageRounded(request)
              && pages[|old(pages)|].currentOffset == request)
        && |old(pages)| <= |pages| && pages[..|old(pages)|] == old(pages)
        && forall j :: 0 <= j < |old(pages)| ==>
             pages[j].currentOffset == old(pages[j].currentOffset) + if fit == Some(j) then request else 0
    {
      pointer := AllocateFromPages(request);
      if pointer.Some? {
        return;
      }
      if mapped == 0 {
        return;
      }
      var page := new ExecutablePage(mapped, PageRounded(request));
      pointer := page.TryAllocate(request);
      pages := pages + [page];
    }
  }

  /** A request to a fresh allocator maps a page and is served at the page's start. */
  method FirstAllocation(request: nat, mapped: nat) returns (allocator: ExecutableMemoryAllocator, pointer: Option<nat>)
    requires mapped != 0
    ensures pointer == Some(mapped)
    ensures |allocator.pages| == 1 && allocator.pages[0].size == PageRounded(request)
  {
    allocator := new ExecutableMemoryAllocator();
    pointer := allocator.Allocate(request, mapped);
  }
}
