# stackjit-rs in Dafny

This project models the core of stackjit-rs. stackjit-rs is a stack-based virtual machine: it reads a textual assembly language, verifies each function's stack effects and types, and compiles the functions just in time to x86-64. The model follows the program from text to runtime:

- **Front end.** The tokenizer and the recursive-descent parser turn text into functions; the bytecode instruction set, types, signatures, classes and binders.
- **Verifier.** An abstract interpreter over a stack of operand types. It records the operand types before each instruction and the maximum stack depth.
- **Mid-level IR.** Two revisions of the translation of stack bytecode into three-address code over virtual registers, with their definition/use tables.
- **Analyses and optimizations.**
  - basic blocks and the control-flow graph;
  - two null-check elision analyses;
  - liveness of virtual registers;
  - the peephole pass that removes local loads;
  - linear-scan register allocation.
- **Lowerings.** Several revisions of the lowering into the register-level IR and the low-level IR:
  - frame memory (`src/compiler/ir/compiler.rs`, `src/ir/ir_compiler.rs`, `src/ir/mid/ir_compiler.rs`);
  - register allocated (`src/compiler/ir/allocated_compiler.rs`, `src/ir/allocated_ir_compiler.rs`);
  - operand-stack based (`src/ir/low/compiler.rs`, `src/ir/compiler.rs`).

  The calling convention and the value-moving helpers are proved against small machines.
- **JIT.** The executable-memory allocator, and the patching of calls and branches once every function has an address.
- **Runtime.** The object layout, the bump heap and its object iterator, both memory managers, the stack walker, and the mark-and-sweep collector.

Code that updates state step by step is modelled as classes and methods. Each such method is proved against a function that states what it computes. Those functions then carry the lemmas about the program: round trips, orderings, preserved invariants, and the agreement between revisions.

Panics are modelled as values. An `unwrap`, `expect`, `panic!` or `unimplemented!` that the source reaches gives `None`, `Err`, or a `false` success flag, and the contracts say exactly which inputs lead there.

## Model

| member | source | states |
|---|---|---|
| TypeSystem.TypeText | src/model/typesystem.rs:8-21 | each of the three types displays as its own variant name |
| TypeSystem.TypeTextInjective | src/model/typesystem.rs:8-21 | two types display alike exactly when they are the same type |
| ModelInstruction.InstructionTextShape | src/model/instruction.rs:16-47 | each instruction displays as its mnemonic, followed by one space and its operand when it carries one |
| ModelInstruction.OperandReadsBack | src/model/instruction.rs:25-28 | the local or argument index of a displayed instruction reads back from the digits after the mnemonic |
| ModelInstruction.StoreLocalDisplaysAsLoad | src/model/instruction.rs:28-29 | `StoreLocal n` displays exactly like `LoadLocal n`, so the display does not tell the two apart |
| FunctionSignatures.ParameterTexts | src/model/function.rs:149-152 | one display per parameter, in order, each the parameter type's display |
| FunctionSignatures.SignatureTextShape | src/model/function.rs:149-152 | a signature displays as its name, an opening parenthesis, the parameter displays joined by single spaces, and a closing parenthesis |
| ModelFunction.CallSignature | src/model/function.rs:67-69 | the call signature carries the definition's name and parameter types |
| ModelFunction.WithAddress | src/model/function.rs:71-73 | setting the address makes it `Some(address)` and changes nothing else in the definition |
| ModelFunction.NewExternal | src/model/function.rs:23-31 | an external definition carries the given name, parameters, return type and address |
| ModelFunction.NewManaged | src/model/function.rs:33-41 | a managed definition carries the given name, parameters and return type, and no address |
| ModelFunction.SignatureTextParts | src/model/function.rs:63-65 | the full signature text starts with the call signature's display and ends with the return type's display, e.g. `main() Int32` |
| ModelFunction.EntryPointExactly | src/model/function.rs:75-80 | a definition is the entry point iff it is the managed `main` with no parameters returning `Int32`, whatever its address; an external one never is |
| ModelFunction.Function.constructor | src/model/function.rs:92-103 | a new function keeps its definition, locals and instructions, has one empty operand-type list per instruction, and an operand stack size of 0 |
| ModelFunction.Function.SetOperandStackSize | src/model/function.rs:117-119 | sets the operand stack size and leaves every other field unchanged |
| ModelFunction.Function.SetOperandTypes | src/model/function.rs:129-131 | replaces the operand types recorded for one instruction and leaves every other entry and field unchanged |
| ModelClass.NewClass | src/model/class.rs:35-49 | the loop records under each field name the total size of the fields before it, and makes the class size the total of all field sizes |
| ModelClass.GetField | src/model/class.rs:59-61 | a field is found iff some field has the name, and then it is the first field with that name |
| ModelClass.OffsetOfLastField | src/model/class.rs:38-41 | a name is in the offset table with the offset of the LAST field of that name, which is the total size of the fields before that field |
| ModelClass.OffsetTableKeys | src/model/class.rs:38-41 | the offset table's names are exactly the field names |
| ModelClass.PrefixSizeSplit | src/model/class.rs:37-47 | every field ends within the class size |
| ModelClass.LayoutDisjoint | src/model/class.rs:37-47 | the fields do not overlap: a later field starts at or after the end of an earlier one, and every field ends within the class |
| ModelClass.PrefixMonotone | src/model/class.rs:37-41 | the running offset never decreases |
| ModelClass.DuplicateFieldNames | src/model/class.rs:38-41 | with two fields named alike, the offset table has the second field's offset while `get_field` returns the first field |
| ModelClass.ClassProvider.constructor | src/model/class.rs:73-77 | a new provider has no classes |
| ModelClass.ClassProvider.Get | src/model/class.rs:79-85 | a class is found iff it is defined, and then it is the class stored under that name |
| ModelClass.ClassProvider.Define | src/model/class.rs:87-90 | the class is stored under its own name, replacing any earlier one, and can be found again at once |
| EngineBinder.Binder.constructor | src/engine/binder.rs:10-14 | a new binder has no functions |
| EngineBinder.Binder.Define | src/engine/binder.rs:16-18 | the definition is stored under its call signature, replacing any earlier one |
| EngineBinder.Binder.Get | src/engine/binder.rs:20-22 | a definition is found iff one is stored under the signature, and it is the one whose call signature that is |
| EngineBinder.Binder.SetAddress | src/engine/binder.rs:24-26 | the stored definition gets the address and nothing else changes; the signature must be defined, because the source unwraps the lookup |
| EngineBinder.DefineThenGet | src/engine/binder.rs:16-22 | `get` right after `define(d)` returns `d`, and every other signature keeps what it had |
| ModelBinder.Binder.constructor | src/model/binder.rs:11-31 | a new binder holds exactly the two garbage-collector entry points, under their signatures |
| ModelBinder.Binder.Define | src/model/binder.rs:33-35 | the declaration is stored under its signature, replacing any earlier one |
| ModelBinder.Binder.Get | src/model/binder.rs:37-39 | a declaration is found iff one is stored under the signature, and it is the one whose signature that is |
| ModelBinder.Binder.SetAddress | src/model/binder.rs:41-43 | the stored declaration gets the address and nothing else changes; the signature must be defined |
| ModelBinder.GcCollect | src/model/binder.rs:16-21 | `std.gc.collect` is external, without parameters, returning `Void` |
| ModelBinder.GcPrintStackFrame | src/model/binder.rs:23-28 | `std.gc.print_stack_frame` is external, without parameters, returning `Void` |
| ModelBinder.NewBinderThenDefine | src/model/binder.rs:11-39 | after `new` and one `define(d)`, `get` finds `d` and still finds each entry point whose signature `d` does not share |
| StackLayout.StackSize | src/compiler/stack_layout.rs:6-8 | the frame holds one 8-byte entry per argument, local and operand-stack slot, so its size is a multiple of 8 |
| StackLayout.SlotsOneEntryApart | src/compiler/stack_layout.rs:10-20 | consecutive arguments, locals and operand slots are one 8-byte entry apart, towards lower addresses |
| StackLayout.SlotsDecrease | src/compiler/stack_layout.rs:10-20 | within each region a higher index has a lower offset, so no two slots of a region share an offset |
| StackLayout.RegionsApart | src/compiler/stack_layout.rs:10-20 | every operand slot lies below every local, and every local below every argument |
| StackLayout.SlotsInFrame | src/compiler/stack_layout.rs:3-20 | every argument, local and operand slot lies inside the frame, between minus the stack size and minus one entry, at a multiple of 8 |
| Heaps.TiledDisjoint | src/runtime/memory/heap.rs:27-35 | blocks laid end to end from 0 do not overlap and all end by the last block's end |
| Heaps.TiledBelowEnd | src/runtime/memory/heap.rs:27-35 | every block of a tiling ends at or before the tiling's end |
| Heaps.Heap.constructor | src/runtime/memory/heap.rs:12-17 | a new heap is a zero-filled buffer of the given size with offset 0 and nothing allocated |
| Heaps.Heap.Allocate | src/runtime/memory/heap.rs:27-35 | a request is served iff it fits below the buffer's end; it is served at the old offset, which advances by the size, and otherwise nothing changes |
| Heaps.Heap.Inside | src/runtime/memory/heap.rs:37-40 | an address is inside iff it is at or after the buffer's start and before its LAST byte; an empty buffer is the panic of `last().unwrap()` |
| Heaps.AllocationsDisjoint | src/runtime/memory/heap.rs:27-35 | the blocks handed out never overlap and all lie inside the buffer |
| Heaps.AllocateTwice | src/runtime/memory/heap.rs:27-35 | two successful allocations are adjacent; if the first fails the second fails too unless it is smaller |
| Heaps.LastByteOutside | src/runtime/heap.rs:24-27 | the last byte of the buffer is not counted as inside the heap |
| Heaps.Overwrite | src/runtime/memory/manager.rs:50-57 | writing bytes at an offset changes exactly those positions of the buffer |
| Heaps.LittleEndianRoundTrip | src/runtime/object.rs:15-20 | a value written as little-endian bytes of a width it fits in reads back unchanged |
| Heaps.ReadLittleEndianBound | src/runtime/object.rs:15-20 | bytes read as a little-endian number give a value below 256 to the number of bytes |
| Heaps.WriteBytes | src/runtime/memory/manager.rs:50-57 | the byte loop leaves the buffer as `Overwrite` of its old contents |
| Heaps.SpanStep | src/runtime/memory/heap.rs:60-78 | one more block advances the iterator's offset by that block's full width, and adds an object only when the block is live |
| Heaps.SpanGrows | src/runtime/memory/heap.rs:65-75 | when every block has a positive width the offset strictly increases block after block |
| Heaps.LayoutAt | src/runtime/memory/heap.rs:65-75 | the heap layout finds each block at the offset the iterator reaches it at |
| Heaps.HeapObjectsIterator.constructor | src/runtime/memory/heap.rs:49-54 | a new iterator starts at offset 0, with every live object of the heap still to come, in heap order |
| Heaps.HeapObjectsIterator.Next | src/runtime/memory/heap.rs:60-78 | `next` returns the first object still to come and moves past it, skipping deleted blocks; at the heap's offset it returns `None` and stays |
| Heaps.ObjectsFromStep | src/runtime/memory/heap.rs:65-75 | the objects from a block on are that block's object, if it is live, followed by the objects after it |
| Heaps.NothingPastEnd | src/runtime/memory/heap.rs:61-63 | once the iterator's offset reaches the heap's offset no object remains |
| Heaps.ObjectsSplit | src/runtime/memory/heap.rs:60-78 | the objects before a block followed by the objects from it are all the objects |
| Heaps.AllObjects | src/runtime/memory/heap.rs:57-78 | draining the iterator yields exactly the live objects of the heap, in heap order |
| Heaps.ObjectsAreTheObjectBlocks | src/runtime/memory/heap.rs:60-78 | the iterator yields one object per live block and nothing else, each found at its block's header offset |
| Objects.FullSize | src/runtime/object.rs:52-54 | an object's full size is its payload size plus the 9-byte header |
| Objects.PayloadPointer | src/runtime/object.rs:21 | the pointer handed out is the header's address plus the 9-byte header |
| Objects.TypePointerAt | src/runtime/object.rs:16-19 | the 8-byte type pointer can be read iff the header fits in the buffer, and it is below 2^64 |
| Objects.AsUsize | src/runtime/memory/manager.rs:29 | `length as usize` keeps a non-negative length and sign-extends a negative one to a huge value |
| Objects.ArraySize | src/runtime/memory/manager.rs:29 | an array's size is the 4-byte length field plus length times element size, and `None` where that overflows 64 bits |
| Objects.ArraySizeOfLength | src/runtime/memory/manager.rs:29 | for a non-negative length the size is 4 plus length times the element size |
| Objects.NegativeLengthOverflows | src/runtime/memory/manager.rs:29 | a negative length gives either an overflowing size or one of at least 2^64 - 2^31 bytes, which no heap can hold; a zero-size element gives just the length field |
| Objects.PayloadSize | src/runtime/object.rs:23-31 | an array's payload is its length field and elements, a class instance's its class size, any other type's zero |
| Objects.FromPointer | src/runtime/object.rs:15-38 | reading an object back from its header gives the payload pointer, the type found through the header's type pointer, and the payload size that type gives |
| Objects.LengthRoundTrip | src/runtime/memory/manager.rs:33 | the 4-byte length written into an array reads back as the same `i32`, and as a `usize` equal to the length when it is non-negative |
| Runtimes.Runtime.constructor | src/runtime/mod.rs:11-15 | a new runtime has an empty 8 MiB heap |
| Runtimes.Runtime.NewArray | src/runtime/mod.rs:17-30 | an array of a fitting size is allocated at the old offset with only its length written; a non-array type or an exhausted heap is the panic and leaves everything as it was |
| EarlyMemory.ZeroedAsWritten | src/runtime/memory.rs:29-32 | the zeroing loop as written covers a whole array size starting after the length field |
| EarlyMemory.ZeroedElements | src/runtime/memory.rs:24-32 | the intended zeroing covers the elements, from after the length field to the block's end |
| EarlyMemory.ZeroingOverrunsBlock | src/runtime/memory.rs:29-32 | as written, the zeroing ends 4 bytes past the block |
| EarlyMemory.FullHeapArrayOverrunsBuffer | src/runtime/memory.rs:20-37 | an array that exactly fills the 8 MiB heap is accepted by `allocate`, and as written its zeroing runs 4 bytes past the heap buffer |
| EarlyMemory.MemoryManager.constructor | src/runtime/memory.rs:10-14 | a new manager has an empty 8 MiB heap |
| EarlyMemory.MemoryManager.IsOwned | src/runtime/memory.rs:16-18 | an address is owned iff it is inside the heap, which excludes the last byte |
| EarlyMemory.MemoryManager.NewArray | src/runtime/memory.rs:20-37 | an array of a fitting size is allocated at the old offset with its length written and its elements zeroed, and no byte outside its block changes; otherwise it is the panic and nothing changes |
| MemoryManagers.MemoryManager.constructor | src/runtime/memory/manager.rs:15-20 | a new manager has an empty, zero-filled 8 MiB heap |
| MemoryManagers.MemoryManager.IsOwned | src/runtime/memory/manager.rs:22-24 | an address is owned iff it is inside the heap, which excludes the last byte |
| MemoryManagers.MemoryManager.NewObject | src/runtime/memory/manager.rs:47-61 | a block of payload size plus header is allocated; the header holds the type pointer and the mark byte is 0, the payload is all zero, and the payload pointer is returned; an exhausted heap is the panic and changes nothing |
| MemoryManagers.MemoryManager.NewArray | src/runtime/memory/manager.rs:26-38 | an array object is allocated with its length written; it reads back through its header as an array of that type and size, with zeroed elements |
| MemoryManagers.MemoryManager.NewClass | src/runtime/memory/manager.rs:40-45 | a class instance of the class's size is allocated with a zeroed payload and reads back through its header as that class |
| MemoryManagers.ObjectBytes | src/runtime/memory/manager.rs:47-61 | on zeroed memory, the zeroing and the header write leave the type pointer in the header and zeros after it |
| MemoryManagers.ArrayReadsBack | src/runtime/memory/manager.rs:26-38 | the bytes a new array leaves read back through `from_ptr` as that array, with the size its length gives |
| MemoryManagers.NewObjectTwice | src/runtime/memory/manager.rs:47-61 | two objects allocated one after the other are adjacent: the second's header follows the first's payload |
| ExecutableAllocators.PageRounded | src/compiler/allocator.rs:20-21 | a new page's size is the request rounded up to a whole number of 4 KiB pages |
| ExecutableAllocators.ExecutablePage.constructor | src/compiler/allocator.rs:35-58 | a mapped page starts at the mapping's address, has the requested size and nothing handed out |
| ExecutableAllocators.ExecutablePage.TryAllocate | src/compiler/allocator.rs:60-69 | a request is served iff it fits in what is left of the page; it is served at the current offset, which advances by the request, and otherwise nothing changes |
| ExecutableAllocators.FirstFit | src/compiler/allocator.rs:13-17 | the first page with room for the request, or none when no page has room |
| ExecutableAllocators.ExecutableMemoryAllocator.constructor | src/compiler/allocator.rs:6-10 | a new allocator has no pages |
| ExecutableAllocators.ExecutableMemoryAllocator.AllocateFromPages | src/compiler/allocator.rs:13-17 | the first page with room serves the request and only that page's offset advances; without one nothing changes and no address is returned |
| ExecutableAllocators.ExecutableMemoryAllocator.Allocate | src/compiler/allocator.rs:12-25 | the first page with room serves the request; otherwise a new page of the rounded size is mapped, appended, and serves the request at its start; a failed mapping is the panic, with no page added |
| ExecutableAllocators.FirstAllocation | src/compiler/allocator.rs:12-25 | the first request of a new allocator maps one page of the rounded size and is served at its start |
| GarbageCollection.ElementValues | src/runtime/memory/gc.rs:93-106 | an array's elements are visited with the element type as their type |
| GarbageCollection.ReferenceFields | src/runtime/memory/gc.rs:108-119 | a class instance's visited fields are exactly its reference-typed fields |
| GarbageCollection.ReachSelf | src/runtime/memory/gc.rs:84-125 | every object reaches itself |
| GarbageCollection.ReachStep | src/runtime/memory/gc.rs:92-121 | an object reaches whatever its children reach |
| GarbageCollection.ClosedHoldsReachable | src/runtime/memory/gc.rs:84-125 | a set closed under taking children that holds the start of a path holds its end |
| GarbageCollection.ManagedHeap.constructor | src/runtime/memory/heap.rs:6-41 | a heap of the given objects in iteration order, none marked and none deleted |
| GarbageCollection.Swept | src/runtime/memory/gc.rs:127-137 | the objects sweeping deletes, in heap order: at most one entry per object |
| GarbageCollection.GarbageCollector.constructor | src/runtime/memory/gc.rs:14-18 | a new collector has deleted nothing |
| GarbageCollection.GarbageCollector.MarkValue | src/runtime/memory/gc.rs:84-125 | marking a non-null reference marks its object and everything reachable from it that was unmarked, and nothing else; a non-reference or null marks nothing |
| GarbageCollection.GarbageCollector.MarkObjects | src/runtime/memory/gc.rs:69-82 | after marking from the frame values every root object is marked, and everything newly marked is reachable from the roots and has its children marked |
| GarbageCollection.GarbageCollector.SweepObjects | src/runtime/memory/gc.rs:127-137 | every live unmarked object is deleted and recorded with its type, in heap order; marked objects are unmarked; nothing else changes |
| GarbageCollection.GarbageCollector.SweepObject | src/runtime/memory/gc.rs:128-136 | one object: recorded and deleted if live and unmarked, otherwise only unmarked |
| GarbageCollection.GarbageCollector.Collect | src/runtime/memory/gc.rs:24-67 | a collection deletes exactly the live objects not reachable from the roots, records them in heap order, leaves every object unmarked, and keeps the surviving heap closed under references |
| GarbageCollection.SurvivorsClosed | src/runtime/memory/gc.rs:59-60 | deleting everything outside a set closed under children leaves no live object pointing at a deleted one |
| GarbageCollection.SweptRecords | src/runtime/memory/gc.rs:127-137 | a record is swept iff it is an object of the heap that is neither deleted nor marked, with that object's type |
| GarbageCollection.SweptAppend | src/runtime/memory/gc.rs:127-137 | sweeping one more object appends its record exactly when it is live and unmarked |
| GarbageCollection.MarkedIsReachable | src/runtime/memory/gc.rs:59-60 | a marked set that holds the roots, is closed under children and holds only reachable objects is exactly the set reachable from the roots |
| GarbageCollection.ReachedIsMarked | src/runtime/memory/gc.rs:84-125 | every object reachable from the roots is in any root-holding set closed under children |
| GarbageCollection.FirstStep | src/runtime/memory/gc.rs:92-121 | a path of more than one object starts with a step from an object to one of its children |
| GarbageCollection.ReachesOnlyItself | src/runtime/memory/gc.rs:92-121 | an object without references reaches only itself |
| StackWalker.FirstBracket | src/runtime/stack_walker.rs:266-276 | the first entry, from a given one on, whose offset and the next entry's offset bracket the offset; none when no later entry does |
| StackWalker.InstructionIndexFromOffset | src/runtime/stack_walker.rs:266-276 | an instruction index is found iff some entry and its successor bracket the offset (both ends included) |
| StackWalker.FirstBracketWins | src/runtime/stack_walker.rs:267-272 | the instruction of the first bracketing entry is returned |
| StackWalker.FewEntriesNoInstruction | src/runtime/stack_walker.rs:268 | a table of fewer than two entries brackets nothing |
| StackWalker.SharedBoundaryGoesEarlier | src/runtime/stack_walker.rs:269 | an offset equal to the boundary between two entries is bracketed by both, and the earlier entry's instruction wins |
| StackWalker.LastEntryNeverChosen | src/runtime/stack_walker.rs:267-272 | the instruction returned always comes from an entry before the last one |
| StackWalker.Parent | src/runtime/stack_walker.rs:28-55 | the parent is the next activation down the stack, and `main` has none |
| StackWalker.Walked | src/runtime/stack_walker.rs:57-68 | the walk starts with the frame itself |
| StackWalker.Walk | src/runtime/stack_walker.rs:57-68 | the loop applies the callback to the frame and then to each parent in turn, exactly the frames of `Walked` |
| StackWalker.WalkedConsecutive | src/runtime/stack_walker.rs:57-68 | the walk visits consecutive activations from the starting one, and only its last frame may be `main` |
| StackWalker.WalkFromMain | src/runtime/stack_walker.rs:29-31 | a walk that starts in `main` visits only that frame |
| Jit.I32Bytes | src/compiler/jit.rs:104-107 | an `i32` written to code memory is four little-endian bytes |
| Jit.DecodeEncode | src/compiler/jit.rs:104-107 | the four bytes of an `i32` decode back to it |
| Jit.WriteBytesAt | src/compiler/jit.rs:61-66 | copying code to an address changes exactly the bytes from that address over the code's length, to the code's bytes |
| Jit.ReadAfterWrite | src/compiler/jit.rs:104-107 | an `i32` stored in code memory reads back unchanged |
| Jit.WriteI32Elsewhere | src/compiler/jit.rs:104-107 | storing an `i32` changes no byte outside its four |
| Jit.ReadAfterWriteElsewhere | src/compiler/jit.rs:104-107 | storing an `i32` changes no `i32` that does not overlap it |
| Jit.CodeMemory.constructor | src/compiler/jit.rs:61-66 | code memory starts empty |
| Jit.CodeMemory.StoreI32 | src/compiler/jit.rs:104-107 | stores the four bytes of the value at the address |
| Jit.CodeMemory.CopyFrom | src/compiler/jit.rs:61-66 | copies the code bytes to the address |
| Jit.CallDisplacement | src/compiler/jit.rs:101-102 | the displacement of a relative call, truncated to `i32`, lands on the callee from the end of the 5-byte call instruction, and does so exactly when the distance fits in 32 bits |
| Jit.BranchDisplacement | src/compiler/jit.rs:122 | the branch displacement, computed in wrapping `i32` arithmetic, lands on the target from the end of the branch instruction, exactly when every value fits in 32 bits |
| Jit.WrapsCombine | src/compiler/jit.rs:122 | truncating each operand to `i32` before subtracting gives the same displacement modulo 2^32 |
| Jit.NativeDisplacement | src/compiler/jit.rs:137 | the displacement of a native branch lands on the native target from the end of the 6-byte instruction, exactly when the distance fits in 32 bits |
| Jit.ApplyOne | src/compiler/jit.rs:96-113 | writing one more of a set of non-overlapping patches keeps every patch written so far in place |
| Jit.ApplyOneOutside | src/compiler/jit.rs:96-113 | writing a patch changes no byte outside the patches |
| Jit.ApplyStep | src/compiler/jit.rs:96-113 | one more patch written extends the progress of the patch loop by that patch |
| Jit.StorePatch | src/compiler/jit.rs:104-107 | stores one patch and records it as done |
| Jit.AllApplied | src/compiler/jit.rs:96-113 | once every patch is written, each patch site reads the patch's value |
| Jit.CompilationData.constructor | src/compiler/jit.rs:47 | the compilation data starts with the code generator's unresolved calls, branches, native branches, branch targets and instruction offsets |
| Jit.ProgressComplete | src/compiler/jit.rs:96-147 | when the patch loop has written every patch, the code bytes are the old bytes with exactly the patches written |
| Jit.PatchCalls | src/compiler/jit.rs:96-113 | the call loop succeeds iff every call's callee is defined, relative and has an address; then every call site holds its displacement and nothing else changed |
| Jit.ResolveCalls | src/compiler/jit.rs:93-116 | resolving calls succeeds iff the caller has an address (or there are no calls) and every call resolves; then the call list is cleared and the code patched; the other tables are unchanged |
| Jit.PatchBranches | src/compiler/jit.rs:119-129 | the branch loop succeeds iff every branch's label has a target; then every branch site holds its displacement and nothing else changed |
| Jit.PatchBranch | src/compiler/jit.rs:120-128 | one branch: its site is patched iff its label has a target |
| Jit.ResolveBranches | src/compiler/jit.rs:118-132 | resolving branches succeeds iff the function has an address (or there are no branches) and every label has a target; then the branch table is cleared and the code patched |
| Jit.PatchNativeBranches | src/compiler/jit.rs:136-144 | every native branch site holds the displacement to its native target and nothing else changes |
| Jit.ResolveNativeBranches | src/compiler/jit.rs:134-147 | resolving native branches succeeds iff the function has an address; then the table is cleared and the code patched |
| Jit.PatchedCallLands | src/compiler/jit.rs:101-107 | a patched call, executed, continues at the callee whenever the distance fits in 32 bits |
| Jit.PatchedBranchLands | src/compiler/jit.rs:119-128 | a patched branch continues at its label's target, modulo 2^32 |
| Jit.PatchedNativeBranchLands | src/compiler/jit.rs:136-143 | a patched native branch continues at its native target, modulo 2^32 |
| Jit.JitCompiler.constructor | src/compiler/jit.rs:28-37 | a new JIT has an allocator without pages and no compiled functions |
| Jit.JitCompiler.GetCompilationData | src/compiler/jit.rs:73-75 | a function's data is found iff it was compiled, and it is the data recorded for it |
| Jit.JitCompiler.PlaceCode | src/compiler/jit.rs:59-66 | the code is copied to the address the executable allocator serves for its length |
| Jit.JitCompiler.CompileFunction | src/compiler/jit.rs:39-71 | compiling succeeds iff the allocator serves the code and the function is declared; then the code sits at the served address, the data is recorded under the signature, and the binder has the address; code generation is a parameter |
| Jit.JitCompiler.Record | src/compiler/jit.rs:68 | the generated data is recorded under the signature, replacing any earlier entry |
| Jit.JitCompiler.ResolveCallsAndBranches | src/compiler/jit.rs:77-91 | resolution succeeds iff every compiled function's calls, branches and native branches resolve; then every function is fully resolved, and the code memory is the old memory with every fix-up of every function written at its site, readable back when no two sites overlap, and no other byte changed |
| Jit.ResolveEntry | src/compiler/jit.rs:78-90 | one function: each non-empty table is resolved, and the function ends fully resolved iff all of them resolve; then the code memory is the old memory with that function's call, branch and native-branch fix-ups written and no other byte changed |
| Jit.JitCompiler.PatchAll | src/compiler/jit.rs:78-90 | the loop over the compiled functions succeeds iff each function's open sites resolve; then every function is resolved and the memory is patched with the fix-ups of all of them, from the memory the loop started with |
| Jit.JitCompiler.ResolveEntryTracked | src/compiler/jit.rs:79-89 | resolving one more function in the loop succeeds iff its open sites resolve; then it leaves the pending set, and the chain of memory states grows by that function's patched memory |
| Jit.JitCompiler.OpenSitesOf | src/compiler/jit.rs:78 | the open call, branch and native-branch tables of every compiled function, keyed by its signature |
| Jit.AllPatchesOf | src/compiler/jit.rs:77-91 | a site key is among all fix-ups of the compilation iff its owner is compiled and the key is among the owner's own fix-ups, with the same patch |
| Jit.Compose | src/compiler/jit.rs:78-90 | progress of the loop followed by one function's patching is progress with that function's sites added |
| Jit.ReadKept | src/compiler/jit.rs:78-90 | patching sites that do not overlap a given site leaves the `i32` at that site unchanged |
| Jit.Owners | src/compiler/jit.rs:23 | distinct compiled functions have distinct data records, so each record has one owning signature |
| Jit.AllSplit | src/compiler/jit.rs:77-91 | all fix-ups of the compilation are exactly the union of the per-function fix-ups, each under its owner |
| Jit.AllInParts | src/compiler/jit.rs:77-91 | every fix-up of the compilation belongs to its owner's fix-ups |
| Jit.PartsInAll | src/compiler/jit.rs:77-91 | every function's fix-up is one of the compilation's fix-ups, owned by it, with the same patch |
| Jit.PartInAll | src/compiler/jit.rs:78-90 | one function's fix-ups are among the compilation's, each owned by that function |
| Jit.ChainStep | src/compiler/jit.rs:79-89 | patching the next function's sites on the last memory state extends the chain of states by that function |
| Jit.ChainedProgress | src/compiler/jit.rs:78-90 | a chain of per-function patchings, in loop order, is progress over the sites of the functions visited so far |
| Jit.ChainLink | src/compiler/jit.rs:79-89 | progress up to the previous function followed by the last function's patching is progress over the sites of all the functions visited |
| Jit.OwnedByStep | src/compiler/jit.rs:79-89 | the sites owned by the visited functions are those owned before the last one plus the last one's sites |
| Jit.ChainedPatched | src/compiler/jit.rs:77-91 | once the chain has visited every function, the last memory state is the first one with every fix-up written |
| Jit.ChainedAll | src/compiler/jit.rs:77-91 | the chain built by the loop, having visited every compiled function, patches all fix-ups of the compilation |
| Jit.ProgressKeys | src/compiler/jit.rs:96-113 | progress depends only on which of the fix-ups are done |
| Jit.NothingDone | src/compiler/jit.rs:96-113 | before any fix-up is written, the patch loop has made progress over none of them with memory unchanged |
| Jit.EntryOwned | src/compiler/jit.rs:78-90 | every fix-up of a function is keyed under that function |
| Jit.NothingPatched | src/compiler/jit.rs:78-80 | an empty table patches nothing and changes no byte |
| Jit.EntryComposed | src/compiler/jit.rs:78-90 | patching the calls, then the branches, then the native branches of one function is patching all three under their tags |
| Jit.TaggedUnchanged | src/compiler/jit.rs:78-90 | the three patch loops of one function change no byte outside its fix-up sites |
| Jit.CallReadsBack | src/compiler/jit.rs:104-107 | when no two sites of the function overlap, each call site reads back its displacement after all three loops |
| Jit.BranchReadsBack | src/compiler/jit.rs:120-128 | when no two sites of the function overlap, each branch site reads back its displacement after all three loops |
| Jit.NativeReadsBack | src/compiler/jit.rs:136-143 | when no two sites of the function overlap, each native branch site reads back its displacement after all three loops |
| Jit.TaggedParts | src/compiler/jit.rs:78-90 | the tagged fix-ups of a function hold its calls, branches and native branches under its keys |
| Jit.TaggedCalls | src/compiler/jit.rs:96-113 | each call fix-up appears under its call key |
| Jit.TaggedBranches | src/compiler/jit.rs:119-129 | each branch fix-up appears under its branch key |
| Jit.TaggedNatives | src/compiler/jit.rs:136-144 | each native-branch fix-up appears under its native key |
| OperandStacks.OperandStack.Depth | src/compiler/mod.rs:36-38 | the stack is empty exactly when there is no top index |
| OperandStacks.OperandStack.constructor | src/compiler/mod.rs:41-45 | a new operand stack is empty |
| OperandStacks.OperandStack.PushRegister | src/compiler/mod.rs:47-54 | pushing deepens the stack by one and stores the register into the frame slot of the new top |
| OperandStacks.OperandStack.PushI32 | src/compiler/mod.rs:56-62 | pushing deepens the stack by one and stores the constant into the frame slot of the new top |
| OperandStacks.OperandStack.PopRegister | src/compiler/mod.rs:64-79 | popping loads the top slot into the register and makes the stack one shallower; popping an empty stack is the `unwrap` panic |
| OperandStacks.FunctionCompilationData.constructor | src/compiler/mod.rs:17-22 | new compilation data has no unresolved calls and an empty operand stack |
| OperandStacks.Contents | src/compiler/mod.rs:36-79 | the values of the operand stack, bottom first, read from its frame slots |
| OperandStacks.PushStores | src/compiler/mod.rs:47-54 | running the pushed store appends the register's value to the stack contents and changes no register |
| OperandStacks.PushI32Stores | src/compiler/mod.rs:56-62 | running the pushed move appends the constant to the stack contents |
| OperandStacks.PopLoads | src/compiler/mod.rs:64-79 | running the popped load puts the top value into the register and leaves the rest of the stack as it was |
| OperandStacks.PushThenPop | src/compiler/mod.rs:47-79 | a push followed by a pop moves the value from one register to the other and leaves the stack contents as they were |
| Branches.BranchTarget | src/ir/branches.rs:25 | an instruction has a branch target iff it is a branch, and the target is the branch's own |
| Branches.TargetsOfStep | src/ir/branches.rs:24-34 | the loop meets the branch targets in instruction order, one per branch |
| Branches.LabelTargetsStep | src/ir/branches.rs:28-32 | a target already labelled keeps its label; a new one gets the next label, and the counter advances |
| Branches.LabelTargetsKeys | src/ir/branches.rs:23-35 | afterwards exactly the earlier targets and the new ones have labels |
| Branches.LabelsByFirstAppearance | src/ir/branches.rs:23-35 | from a fresh manager, the labels are 0, 1, 2, ... given to the distinct targets in order of first appearance, and the counter ends at the number of distinct targets |
| Branches.LabelsInjective | src/ir/branches.rs:23-35 | two different targets never share a label |
| Branches.BranchManager.constructor | src/ir/branches.rs:15-21 | a new manager has no targets, no labels and the next label 0 |
| Branches.BranchManager.DefineBranchLabels | src/ir/branches.rs:23-35 | the loop adds every branch target of the code to the target set and labels each new target with the next label |
| Branches.BranchManager.IsBranch | src/ir/branches.rs:37-44 | an instruction index has a label iff it is a branch target, and it is that target's label |
| Branches.BranchManager.GetLabel | src/ir/branches.rs:46-48 | a target's label is found iff it was labelled |
| Branches.NewBranchManager | src/ir/branches.rs:15-35 | after `new` and `define_branch_labels`, the i-th distinct target in order of first appearance is a branch with label i |
| Branches.LabelMappingMeaning | src/ir/branches.rs:51-61 | a label is mapped iff some instruction is that label's marker, and it maps to the LAST such instruction |
| Branches.CreateLabelMapping | src/ir/branches.rs:51-61 | the loop builds exactly that label mapping |
| BasicBlocks.MidFlows | src/analysis/basic_block.rs:66-77 | the control-flow role of each instruction, in order |
| BasicBlocks.BasicBlock.First | src/analysis/basic_block.rs:20-22 | the first instruction of a non-empty block; an empty block is the `unwrap` panic |
| BasicBlocks.BasicBlock.Last | src/analysis/basic_block.rs:24-26 | the last instruction of a non-empty block; an empty block is the `unwrap` panic |
| BasicBlocks.Below | src/analysis/basic_block.rs:85 | the leader set's elements below the code length, in ascending order as a `BTreeSet` yields them |
| BasicBlocks.ScanMeaning | src/analysis/basic_block.rs:54-86 | the leader scan succeeds iff every branch after the first instruction has a mapped label; its leaders are then exactly instruction 0, the targets of those branches, and each instruction after a branch or return that is itself neither |
| BasicBlocks.ScanUpToStep | src/analysis/basic_block.rs:60-83 | the scan of one more instruction is one step of the loop |
| BasicBlocks.ScanFailureStays | src/analysis/basic_block.rs:68 | once an unmapped label has panicked the scan, it stays failed |
| BasicBlocks.LabelsInCode | src/ir/branches.rs:51-61 | every mapped label points inside the code |
| BasicBlocks.LeadersExist | src/analysis/basic_block.rs:54-86 | leaders are found iff every branch after the first instruction targets a label marked in the code |
| BasicBlocks.LeadersElements | src/analysis/basic_block.rs:54-86 | the leaders are exactly the instructions the leader rule names |
| BasicBlocks.LeadersOrdered | src/analysis/basic_block.rs:85 | the leaders are strictly ascending, inside the code, and start with 0 for non-empty code |
| BasicBlocks.MappedLabelMarked | src/ir/branches.rs:51-61 | a label is mapped iff the code holds its marker |
| BasicBlocks.UnmarkedLabelFails | src/analysis/basic_block.rs:68 | a branch after the first instruction to a label without a marker panics the leader scan |
| BasicBlocks.BranchAtZeroIgnored | src/analysis/basic_block.rs:61-64 | a branch as the very first instruction adds neither its target nor the next instruction as leaders |
| BasicBlocks.SortedSingleton | src/analysis/basic_block.rs:85 | an ascending sequence of one distinct value is that value alone |
| BasicBlocks.FindLeaders | src/analysis/basic_block.rs:54-86 | the loop computes exactly the leaders the scan defines, or the panic |
| BasicBlocks.CreateBlocks | src/analysis/basic_block.rs:28-52 | the loop builds one block per leader, running to the next leader or to the end of the code |
| BasicBlocks.Linearize | src/analysis/basic_block.rs:88-96 | the instructions of the blocks, put back together in block order |
| BasicBlocks.ConcatPrefix | src/analysis/basic_block.rs:32-49 | the first k blocks together hold the instructions from the first leader to the end of block k, in order |
| BasicBlocks.BlocksPartition | src/analysis/basic_block.rs:28-96 | linearizing the blocks gives every instruction index once and in order |
| BasicBlocks.BlockShape | src/analysis/basic_block.rs:32-49 | block i starts at leader i, its first instruction is that leader and its last is the one before the next leader (or the last instruction) |
| BasicBlocks.StraightLineLeaders | src/analysis/basic_block.rs:54-86 | code without branches, and without a return before its last instruction, has the single leader 0 |
| BasicBlocks.StraightLineOneBlock | src/analysis/basic_block.rs:103-129 | such code is one block holding every instruction, as `test_no_branches1` checks |
| BasicBlocks.TwoWayBranchLabels | src/analysis/basic_block.rs:131-148 | the label mapping of the two-way branch code of `test_branches1` |
| BasicBlocks.TwoWayBranchScanFirstHalf | src/analysis/basic_block.rs:131-148 | the scan of that code's first six instructions finds leaders 0, 3, 6 and 9 |
| BasicBlocks.TwoWayBranchScan | src/analysis/basic_block.rs:131-148 | the scan of the whole code finds leaders 0, 3, 6 and 9 |
| BasicBlocks.BelowIsAscending | src/analysis/basic_block.rs:85 | the ascending listing of a set is the unique ascending sequence of its elements |
| BasicBlocks.TwoWayBranchLeadersInOrder | src/analysis/basic_block.rs:85 | the leaders of that code in ascending order |
| BasicBlocks.TwoWayBranchFourBlocks | src/analysis/basic_block.rs:157-159 | that code has four blocks, as `test_branches1` checks |
| BasicBlocks.SortedByElements | src/analysis/basic_block.rs:85 | two strictly ascending sequences with the same elements are equal |
| ControlFlowGraphs.StartOffsetsMeaning | src/analysis/control_flow_graph.rs:30-33 | an offset is mapped iff some block starts there, and it maps to the last such block |
| ControlFlowGraphs.NewGraph | src/analysis/control_flow_graph.rs:26-62 | the loop builds exactly the graph `GraphOf` defines, or the panic of an unmapped label or fall-through |
| ControlFlowGraphs.EdgesFailureStays | src/analysis/control_flow_graph.rs:40-56 | once a lookup has panicked, the graph construction stays failed |
| ControlFlowGraphs.AddEdgesMeaning | src/analysis/control_flow_graph.rs:35-38 | adding edges creates the source's edge set if needed and adds exactly the new edges, leaving other blocks' sets alone |
| ControlFlowGraphs.EdgesExist | src/analysis/control_flow_graph.rs:40-56 | the edges are built iff every block's successor lookups succeed |
| ControlFlowGraphs.EdgesMeaning | src/analysis/control_flow_graph.rs:40-56 | a block has an edge set iff it has a successor, and its edges are exactly those to its successors |
| ControlFlowGraphs.GraphVertices | src/analysis/control_flow_graph.rs:27 | the vertices are the block indices in order |
| ControlFlowGraphs.GraphEdges | src/analysis/control_flow_graph.rs:26-62 | in the graph, each block's edges are exactly those to its successors, and only blocks with successors have an entry |
| ControlFlowGraphs.BranchSuccessor | src/analysis/control_flow_graph.rs:42-45 | a block ending in a jump has one successor, the block starting at the label's instruction |
| ControlFlowGraphs.ConditionalSuccessors | src/analysis/control_flow_graph.rs:46-50 | a block ending in a conditional branch has two successors: the label's block and the fall-through block |
| ControlFlowGraphs.ReturnNoSuccessor | src/analysis/control_flow_graph.rs:51 | a block ending in a return has no successor |
| ControlFlowGraphs.FallThroughSuccessor | src/analysis/control_flow_graph.rs:52-54 | any other block has the fall-through block as its one successor, and the lookup panics when no block starts there |
| ControlFlowGraphs.DuplicateEdgesCollapse | src/analysis/control_flow_graph.rs:46-50 | a conditional branch to its own fall-through block gives one edge, because the edges form a set |
| ControlFlowGraphs.Predecessors | src/analysis/liveness.rs:160-175 | a block's predecessors are exactly the blocks with an edge to it |
| ControlFlowGraphs.BackEdges | src/analysis/liveness.rs:160-175 | the reversed graph: an edge from b to p for every edge from p to b, each kept under b |
| Liveness.KillAtMeaning | src/analysis/liveness.rs:146-155 | the backward scan stops at the nearest instruction at or above which the register is written without being read, and runs to the block's start when there is none |
| Liveness.KillAtBelow | src/analysis/liveness.rs:146-155 | with no kill above an offset, the scan from higher up stops where the scan from that offset stops |
| Liveness.ScanAliveBounds | src/analysis/liveness.rs:146-158 | the scan marks its starting instruction and only instructions of the block from its start up to there |
| Liveness.ScanBlock | src/analysis/liveness.rs:145-158 | the backward loop marks exactly the scan's instructions, including the killing write, and reports whether it stopped at a kill |
| Liveness.WalkBlock | src/analysis/liveness.rs:132-177 | the recursive walk as written: it marks the block visited, scans it, and without a kill walks into each back edge's block from its last instruction; a visited block is not walked again |
| Liveness.WalkStepClosed | src/analysis/liveness.rs:162-175 | walking one more predecessor keeps every block visited so far closed |
| Liveness.PathPrepend | src/analysis/liveness.rs:160-175 | a kill-free scan of a block extends a kill-free path through any of its predecessors |
| Liveness.WalkStepTraced | src/analysis/liveness.rs:162-175 | walking one more predecessor only visits blocks a kill-free backward path reaches |
| Liveness.WalkStepCovered | src/analysis/liveness.rs:162-175 | every index marked while walking one more predecessor comes from the scan of a visited block |
| Liveness.ScanScanned | src/analysis/liveness.rs:146-158 | every index the scan marks is a scanned index |
| Liveness.WalkUse | src/analysis/liveness.rs:118-129 | the walk for one read, corrected so that a block whose partial scan started the walk is scanned again in full when a loop leads back into it: it marks the read's scan and, if that met no kill, a region closed under predecessors that holds the block's predecessors; the set it adds is exactly the read's scan plus the full scan of every block a kill-free backward path from the read reaches |
| Liveness.UseStep | src/analysis/liveness.rs:162-175 | walking one more predecessor extends a region closed under predecessors |
| Liveness.MarksAlive | src/analysis/liveness.rs:118-129 | whatever meets the liveness requirement for a read holds everything the walk for that read marks, so the walk marks the least such set |
| Liveness.UseStepMarks | src/analysis/liveness.rs:162-175 | one walk into a predecessor of the read's block visits only reached blocks and marks only what the read's walk marks |
| Liveness.LiveFromUseGrows | src/analysis/liveness.rs:118-129 | what was marked for earlier reads stays marked as later reads are walked |
| Liveness.ComputeLivenessForRegister | src/analysis/liveness.rs:112-130 | walking from each read meets the liveness requirement for every read, and the alive set ends up holding exactly what it held plus what some read's walk marks |
| Liveness.KillFreePathAlive | src/analysis/liveness.rs:132-177 | along any backward path with no kill from a read, the last block's instructions from its end are alive: the value is live wherever it can still reach the read |
| Liveness.SelfLoopAsWritten | src/analysis/liveness.rs:140-176 | as written, on a block that loops back to itself and reads the register first, the walk from the read marks the read and the write before the loop but not the rest of the loop block |
| Liveness.SelfLoopShape | src/analysis/liveness.rs:140-176 | the self-loop example is a valid two-block context whose second block is its own predecessor |
| Liveness.SelfLoopScans | src/analysis/liveness.rs:146-158 | the scans in the self-loop example: only the first block's write kills |
| Liveness.SelfLoopWalk | src/analysis/liveness.rs:140-176 | any walk that closes the self-loop block after its partial scan marks only the read and the write |
| Liveness.SelfLoopCorrected | src/analysis/liveness.rs:140-176 | the corrected walk marks the whole loop block of the self-loop example, from the read to the jump back |
| Liveness.SelfLoopUse | src/analysis/liveness.rs:140-176 | anything meeting the liveness requirement for the read in the self-loop example marks all four instructions |
| Liveness.ContextOf | src/analysis/liveness.rs:22-35 | the liveness context built from the MIR code: each instruction's written and read registers, the blocks and the graph's vertices |
| Liveness.ContextPreds | src/analysis/liveness.rs:162 | the predecessors the walk follows are the graph's back edges |
| Liveness.LiveIntervalOf | src/analysis/liveness.rs:73-87 | the loop summarises the alive set as its least and greatest index, and an empty set as `usize::MAX` to 0 |
| Liveness.Push | src/analysis/liveness.rs:198-208 | recording a site adds exactly that site under the register |
| Liveness.RegisterUsage | src/analysis/liveness.rs:187-214 | the loop records every read site and every write site of each register, block by block in vertex order, and each recorded register has at least one site |
| Liveness.BeforeStep | src/analysis/liveness.rs:194-210 | one more instruction scanned adds its site |
| Liveness.BeforeNext | src/analysis/liveness.rs:193-211 | finishing a block's instructions moves the scan to the next vertex |
| Liveness.BeforeAll | src/analysis/liveness.rs:193-211 | after every vertex every site has been scanned |
| Liveness.VirtualRegisters | src/analysis/liveness.rs:89-110 | the registers read or written anywhere, each once, sorted by number |
| Liveness.SortByNumber | src/analysis/liveness.rs:107-109 | sorting keeps exactly the registers, without repeats, in ascending number order |
| Liveness.LowestExists | src/analysis/liveness.rs:107-109 | a non-empty set of registers has one of least number |
| Liveness.LocalsReferences | src/analysis/liveness.rs:26-31 | the numbers of the reference-typed local registers |
| Liveness.AssignPositions | src/analysis/liveness.rs:57-60 | the instruction positions of the given write sites |
| Liveness.ScannedInCode | src/analysis/liveness.rs:146-158 | every scanned index is an instruction index |
| Liveness.ComputeLiveness | src/analysis/liveness.rs:22-71 | one interval per register mentioned in the code, in register-number order without repeats; each is the least and greatest index of the register's exact alive set: what the walks from its reads mark, or the positions of its writes if it is never read, plus every instruction for a reference-typed local |
| Liveness.RegisterInterval | src/analysis/liveness.rs:37-67 | one register's interval summarises its exact alive set: from its reads' walks or from its writes, widened to the whole code for a reference-typed local |
| Liveness.UsedAlive | src/analysis/liveness.rs:38-53 | for a register that is read, the walks and the local widening give exactly its alive set, inside the code |
| Liveness.UnusedAlive | src/analysis/liveness.rs:54-67 | for a register only written, its write positions (and the local widening) give exactly its alive set, inside the code |
| Liveness.UseInsideInterval | src/analysis/liveness.rs:37-71 | every read of a register lies inside its interval |
| Liveness.LiveAcrossBackEdges | src/analysis/liveness.rs:160-176 | a register read after a kill-free backward path is live at the end of the path's last block |
| Liveness.ReferenceLocalSpansCode | src/analysis/liveness.rs:49-51 | a reference-typed local's interval spans the whole code |
| Liveness.AliveInCode | src/analysis/liveness.rs:37-67 | every alive index is an instruction index |
| Liveness.WrittenOnlyInterval | src/analysis/liveness.rs:54-67 | a register that is only written lives from its first write to its last |
| Liveness.MentionedIntervalNonEmpty | src/analysis/liveness.rs:37-67 | a mentioned register's interval is never empty |
| Liveness.WalkMarksInCode | src/analysis/liveness.rs:146-158 | every index a walk marks is an instruction index |
| Liveness.AliveSetUnique | src/analysis/liveness.rs:37-67 | a register's alive set is determined: two sets meeting its definition are equal |
| Liveness.IntervalDetermined | src/analysis/liveness.rs:37-71 | a register's interval is determined by the code and the locals, so the computed intervals are the only ones possible |
| Liveness.WalkedIsUseMarked | src/analysis/liveness.rs:38-48 | the union of the walks from a register's listed reads is the set of indices some read's walk marks |
| Liveness.UseMarkedInCode | src/analysis/liveness.rs:38-48 | every index some read's walk marks is an instruction index |
| RegisterAllocations.HardwareRegisterOf | src/optimization/register_allocation/mod.rs:25-30 | a hardware register exactly for a register kept in hardware, and that register |
| RegisterAllocations.HardwareFor | src/optimization/register_allocation/mod.rs:41-44 | a float register exactly for a `Float32` interval and an integer register otherwise, with the granted number |
| RegisterAllocations.RegisterAllocation.constructor | src/optimization/register_allocation/mod.rs:38-56 | every granted interval's register maps to its hardware register, and then every spilled interval's register maps to the stack, overriding a grant |
| RegisterAllocations.RegisterAllocation.NumAllocated | src/optimization/register_allocation/mod.rs:58-60 | the number of registers kept in hardware |
| RegisterAllocations.RegisterAllocation.NumSpilled | src/optimization/register_allocation/mod.rs:62-64 | the number of registers kept on the stack |
| RegisterAllocations.RegisterAllocation.CountsAddUp | src/optimization/register_allocation/mod.rs:58-64 | the two counts add up to the number of registers |
| RegisterAllocations.RegisterAllocation.GetRegister | src/optimization/register_allocation/mod.rs:66-68 | a register's allocation exactly when it was allocated, and the allocation is for that register; the missing key is the `None` case |
| RegisterAllocations.RegisterAllocation.AliveRegistersAt | src/optimization/register_allocation/mod.rs:70-80 | one hardware register per hardware-kept register whose interval covers the index, and exactly those registers |
| RegisterAllocations.AliveApart | src/optimization/register_allocation/mod.rs:70-80 | from an allocation without overlap, two registers alive at one index never share a hardware register |
| RegisterAllocations.SpilledWins | src/optimization/register_allocation/mod.rs:49-51 | a spilled interval's register ends up on the stack |
| RegisterAllocations.AssignedIsHardware | src/optimization/register_allocation/mod.rs:40-47 | a granted, unspilled interval's register ends up in hardware of its own class |
| LinearScan.EndPointOrder | src/optimization/register_allocation/linear_scan.rs:169-187 | the order of the active set, by end, then start, then register, is a strict total order |
| LinearScan.InsertKeepsOrder | src/optimization/register_allocation/linear_scan.rs:57 | inserting into the active set keeps it ordered, adds exactly the interval and counts it once in its class |
| LinearScan.RemoveKeepsOrder | src/optimization/register_allocation/linear_scan.rs:127-129 | removing from the active set keeps it ordered, removes exactly the interval and uncounts it |
| LinearScan.Smallest | src/optimization/register_allocation/linear_scan.rs:104 | the least member of a non-empty set of free registers |
| LinearScan.FreeRegisters.constructor | src/optimization/register_allocation/linear_scan.rs:72-79 | registers 0 to n-1 free in each class, and the class sizes |
| LinearScan.FreeRegisters.GetFreeRegister | src/optimization/register_allocation/linear_scan.rs:102-107 | the least free register of the type's class, removed from that class only; when the class is empty the `unwrap` panic is the `None` case |
| LinearScan.FreeRegisters.Release | src/optimization/register_allocation/linear_scan.rs:122-124 | the register becomes free again in its class only |
| LinearScan.ExpireOldIntervals | src/optimization/register_allocation/linear_scan.rs:110-130 | the active intervals that end before the current start are the ordered prefix; their registers are freed and the rest stays active |
| LinearScan.ExpiredCountFacts | src/optimization/register_allocation/linear_scan.rs:115-118 | the expired prefix ends before the current start and every later active interval does not |
| LinearScan.SplitAtInterval | src/optimization/register_allocation/linear_scan.rs:132-154 | the victim is the last active interval of the current one's type; if it ends later the current one takes its register and the victim is spilled, otherwise the current one is spilled; with no victim the `unwrap` panic is the `None` case |
| LinearScan.LastMatchingFacts | src/optimization/register_allocation/linear_scan.rs:136-140 | the victim is none exactly when no active interval matches, and otherwise the last matching one |
| LinearScan.AllocateInterval | src/optimization/register_allocation/linear_scan.rs:33-58 | one loop step: expire, then split when the type's count reaches the class size, or else take the least free register |
| LinearScan.ScanIntervals | src/optimization/register_allocation/linear_scan.rs:32-59 | the loop over the start-sorted intervals computes the step-by-step scan, failing where a step panics |
| LinearScan.Allocate | src/optimization/register_allocation/linear_scan.rs:23-62 | sorts by start and scans, yielding the grants, the spills and the active set |
| LinearScan.SortByStartFacts | src/optimization/register_allocation/linear_scan.rs:28-29 | the sorted intervals are in start order and a permutation of the input |
| LinearScan.ExpireKeeps | src/optimization/register_allocation/linear_scan.rs:110-130 | expiring keeps the scan invariant: active intervals hold distinct registers, free and held registers account for each class, grants stay in range and never overlap |
| LinearScan.StepPanics | src/optimization/register_allocation/linear_scan.rs:42-58 | with the capacity check corrected, a step fails exactly when the interval's class has no registers |
| LinearScan.StepKeeps | src/optimization/register_allocation/linear_scan.rs:33-58 | with the capacity check corrected, every step keeps the scan invariant |
| LinearScan.ScanKeeps | src/optimization/register_allocation/linear_scan.rs:32-59 | with the capacity check corrected, the scan of any prefix succeeds exactly when every class used has registers, and keeps the invariant |
| LinearScan.AllocationSound | src/optimization/register_allocation/linear_scan.rs:23-62 | the corrected allocation succeeds exactly when every class used has registers; every interval is then granted or spilled and not both, spills are distinct, and the grants are in range with no two overlapping intervals of one class sharing a register |
| LinearScan.StepOneType | src/optimization/register_allocation/linear_scan.rs:42-47 | while every active interval has the current one's type, the step as written and the corrected step agree |
| LinearScan.ScanOneType | src/optimization/register_allocation/linear_scan.rs:32-59 | on intervals of one type the scan as written and the corrected scan agree |
| LinearScan.AllocateOneType | src/optimization/register_allocation/linear_scan.rs:23-62 | on intervals of one type the allocation as written equals the corrected one, so every soundness fact carries over |
| LinearScanExamples.FirstTakesRegister | src/optimization/register_allocation/linear_scan.rs:54-58 | with one register the first interval takes register 0 and becomes active |
| LinearScanExamples.ShorterTakesOver | src/optimization/register_allocation/linear_scan.rs:142-149 | an interval ending before the holder of the only register takes it over and the holder is spilled |
| LinearScanExamples.ExpiredHandsOver | src/optimization/register_allocation/linear_scan.rs:110-130 | after the holder's interval ends, the next interval gets the freed register |
| LinearScanExamples.ChainAllocation | src/optimization/register_allocation/linear_scan.rs:222-263 | the chain-of-additions intervals on one register: the operand keeps the register and the accumulator is spilled, one allocated and one spilled |
| LinearScanExamples.LocalsSorted | src/optimization/register_allocation/linear_scan.rs:28-29 | sorting the locals' intervals by start |
| LinearScanExamples.LocalsFirstThree | src/optimization/register_allocation/linear_scan.rs:266-302 | after three of the locals' intervals, the shortest holds the register and the two longer ones are spilled |
| LinearScanExamples.LocalsAllocation | src/optimization/register_allocation/linear_scan.rs:266-302 | the locals' intervals on one register: two grants and two spills |
| LinearScanExamples.MixedFirst | src/optimization/register_allocation/linear_scan.rs:54-58 | in the mixed example the integer interval takes the integer register and the float register stays free |
| LinearScanExamples.MixedAsWrittenPanics | src/optimization/register_allocation/linear_scan.rs:42-47 | as written, a float interval starting while one integer interval is active, with one register of each class, makes the allocation panic |
| LinearScanExamples.MixedCorrectedAllocates | src/optimization/register_allocation/linear_scan.rs:42-47 | with the count restricted to the class, the same intervals each get register 0 of their class |
| NullStatuses.Apply | src/optimization/null_check_elision.rs:96-147 | an instruction's effect on the status map: a marked register becomes may-be-null or non-null, a copy takes the source's status, and a copy from a register with no status, like the map index `register_is_null[source]`, fails |
| NullStatuses.Run | src/optimization/null_check_elision.rs:89-150 | one recorded status per instruction, the first being the starting status, and the exit status; an empty block records nothing and exits with the start |
| NullStatuses.RunPrefix | src/optimization/null_check_elision.rs:91-148 | the statuses recorded for a prefix of the block are the prefix of the statuses, and the status before an instruction is the prefix's exit |
| NullStatuses.RunFailure | src/optimization/null_check_elision.rs:91-148 | a block's analysis fails exactly when some instruction's effect fails on the status before it |
| NullCheckElision.BlockEffects | src/optimization/null_check_elision.rs:91-96 | one effect per block instruction, that instruction's own effect |
| NullCheckElision.InitialStatus | src/optimization/null_check_elision.rs:77-80 | exactly the local registers are known, all may-be-null |
| NullCheckElision.RunStopsOnFailure | src/optimization/null_check_elision.rs:91-148 | once a prefix of a block fails, the whole block fails |
| NullCheckElision.Transfer | src/optimization/null_check_elision.rs:96-147 | the match over the instruction applies exactly that instruction's effect to the status map |
| NullCheckElision.TransferOnlyTouchesDestination | src/optimization/null_check_elision.rs:96-147 | an instruction changes at most the status of the register it assigns, and one that assigns none changes nothing |
| NullCheckElision.TransferRules | src/optimization/null_check_elision.rs:96-147 | allocations make their destination non-null; null loads, reference element, field and call results and reference arguments make it may-be-null; a reference move copies the source's status; only a move or an argument load out of range fails |
| NullCheckElision.ComputeForBlockInternal | src/optimization/null_check_elision.rs:85-151 | the loop records the status before each instruction and returns the block's statuses and exit, as the block run defines them |
| NullCheckElision.ComputeForBlock | src/optimization/null_check_elision.rs:74-83 | the block analysed from every local may-be-null |
| NullCheckElision.MergeAllMeaning | src/optimization/null_check_elision.rs:168-177 | the merged map knows exactly the registers some input knows, and marks one may-be-null exactly when some input does |
| NullCheckElision.MergeAllOrderFree | src/optimization/null_check_elision.rs:153-180 | the merge depends only on the set of inputs, not on the order of the predecessors |
| NullCheckElision.JoinInto | src/optimization/null_check_elision.rs:170-176 | the loop over one input computes the pointwise join: may-be-null if either input says so, a missing entry counting as non-null |
| NullCheckElision.JoinIsMergeSet | src/optimization/null_check_elision.rs:170-176 | joining two maps is merging the set of the two |
| NullCheckElision.MergeResults | src/optimization/null_check_elision.rs:153-180 | the per-instruction statuses merged column by column and the exit statuses merged, a single input being returned unchanged |
| NullCheckElision.GatherPredecessors | src/optimization/null_check_elision.rs:35-50 | walks the predecessors in the order the back edges are iterated: stops with "not analysed" exactly when the walk meets a predecessor at or after the block before any failing run, fails exactly when it meets a failing run first, and otherwise returns each predecessor's run in visit order |
| NullCheckElision.AnalyseBlock | src/optimization/null_check_elision.rs:28-60 | one block's result, with the back edges in their iteration order: from the locals when it has no back edges, the stop or the failure whichever the walk over its predecessors meets first, a merge of its predecessors' runs otherwise |
| NullCheckElision.Visit | src/optimization/null_check_elision.rs:35 | the predecessors in the order the block's back edges are iterated, one per back edge, each the block the edge leads to |
| NullCheckElision.VisitedArePreds | src/optimization/null_check_elision.rs:35 | the visit order lists exactly the blocks the back edges lead to |
| NullCheckElision.ClearMeaning | src/optimization/null_check_elision.rs:35-50 | the walk over the predecessors gets through exactly when every one is analysed already and analyses the block without failing |
| NullCheckElision.UnprocessedMeaning | src/optimization/null_check_elision.rs:35-49 | the walk gives up exactly when, in visit order, a predecessor at or after the block comes before any failing run |
| NullCheckElision.FailureMeaning | src/optimization/null_check_elision.rs:35-44 | the walk panics exactly when, in visit order, a predecessor whose run fails comes before any predecessor at or after the block |
| NullCheckElision.ClearOrderFree | src/optimization/null_check_elision.rs:35-50 | whether the walk gets through does not depend on the visit order |
| NullCheckElision.VisitOrderMatters | src/optimization/null_check_elision.rs:35-50 | which of the panic and giving up happens does depend on the visit order: a failing earlier predecessor and the block itself give the panic in one order and all-unknown in the other |
| NullCheckElision.BlockStepMeaning | src/optimization/null_check_elision.rs:28-60 | a block with back edges fails exactly when it has none to merge or a failing run comes first in visit order, gives up exactly when a predecessor at or after it comes first, and is computed exactly when every predecessor is analysed and runs |
| NullCheckElision.WriteBlock | src/optimization/null_check_elision.rs:62-65 | the block's statuses written at its instruction indices |
| NullCheckElision.ScatterMeaning | src/optimization/null_check_elision.rs:62-65 | with distinct indices, each index gets its block status and every other index is unchanged |
| NullCheckElision.ScatterAllMeaning | src/optimization/null_check_elision.rs:62-67 | with disjoint blocks, each block instruction's index holds that block's status for it and every index outside the analysed blocks keeps its initial value |
| NullCheckElision.CreatedBlocksDisjoint | src/analysis/basic_block.rs:28-52 | the blocks created from the MIR never share an instruction |
| NullCheckElision.AnalyseAndWrite | src/optimization/null_check_elision.rs:27-67 | one iteration of the block loop: a failure or a stop decides the whole result, and a computed block extends the results and writes its statuses |
| NullCheckElision.AnalyseBlocks | src/optimization/null_check_elision.rs:22-70 | the block-by-block loop computes its specification for back edges in any iteration order: a panic when a block's walk meets a failing run first, all unknown when it meets a later predecessor first, otherwise each instruction's merged status |
| NullCheckElision.ComputeNullCheckElision | src/optimization/null_check_elision.rs:16-72 | a single block is analysed alone from the locals; several blocks are analysed block by block, each walking its predecessors in the order its back edges are iterated |
| NullCheckElision.TransferSound | src/optimization/null_check_elision.rs:96-147 | if the map describes the registers' values before a well-typed instruction, the new map describes them after it, whatever value it produces: a register marked non-null holds an object reference |
| NullCheckElision.BlockSound | src/optimization/null_check_elision.rs:85-151 | from a start that describes the registers, a register the statuses mark non-null before an instruction holds an object reference at that point, and the exit describes the end of the block |
| NullCheckElision.SingleBlockSound | src/optimization/null_check_elision.rs:20-21 | for a single-block function the elided null checks are safe: a reference register marked non-null before an instruction holds an object there |
| NullCheckElision.SingleBlockStatusBefore | src/optimization/null_check_elision.rs:20-21 | for a single block, the status of each instruction is the run of the block up to it from the locals, the first being the initial status |
| NullCheckElision.RunningIsForward | src/optimization/null_check_elision.rs:35-49 | while analysis goes on, every analysed block's predecessors come before it |
| NullCheckElision.ComputedHasEarlierPreds | src/optimization/null_check_elision.rs:35-49 | a block is computed only when every one of its predecessors comes before it |
| NullCheckElision.UnprocessedPredecessorGivesUnknown | src/optimization/null_check_elision.rs:46-49 | a predecessor at or after a block makes the whole result all-unknown (or a failure), so every register may be null everywhere |
| NullCheckElision.MergedSound | src/optimization/null_check_elision.rs:52-56 | after the merge, a register marked non-null is non-null along every predecessor that knows it, so it holds an object when entering from any of them |
| NullCheckElision.StepsMeaning | src/optimization/null_check_elision.rs:62-70 | when every block is computed, each block instruction's status in the result is its block's status |
| NullCheckElision.BlockByBlockMeaning | src/optimization/null_check_elision.rs:25-70 | when all blocks are analysed, each instruction holds its block's computed status, and an instruction in no block keeps the empty map |
| NullCheckExamples.StraightLineEffectsAre | src/optimization/null_check_elision.rs:386-456 | the effects of the straight-line test function's compiled instructions |
| NullCheckExamples.StraightLineRun | src/optimization/null_check_elision.rs:386-456 | from the local may-be-null, the run marks it non-null after the array allocation's store and may-be-null again after the null store |
| NullCheckExamples.StraightLineStatuses | src/optimization/null_check_elision.rs:386-456 | the whole analysis of the straight-line function gives exactly those per-instruction statuses |
| NullCheckExamples.JoinRun | src/optimization/null_check_elision.rs:499-589 | the join block loads the local into the temporary, copying its status |
| NullCheckExamples.MergeAtJoin | src/optimization/null_check_elision.rs:52-56 | merging the two paths at the join gives the local the status of the path that may leave it null |
| NullCheckExamples.TwoPathsPreds | src/analysis/control_flow_graph.rs:26-62 | in the branching functions, both paths come from the entry block and the join comes from both paths |
| NullCheckExamples.TwoPathsDisjoint | src/analysis/basic_block.rs:28-52 | the four blocks of the branching functions share no instruction |
| NullCheckExamples.TwoPathsAtReturn | src/optimization/null_check_elision.rs:499-589 | before the final load, the local may be null when one path stores null into it, and is non-null when both paths store a new array |
| NullCheckAnalysis.BlockEffects | src/analysis/null_check_elision.rs:38-43 | one effect per block instruction, that instruction's own effect |
| NullCheckAnalysis.InitialStatus | src/analysis/null_check_elision.rs:31-34 | exactly the local registers are known, all may-be-null |
| NullCheckAnalysis.Transfer | src/analysis/null_check_elision.rs:43-84 | the match over the older IR's instruction applies exactly that instruction's effect |
| NullCheckAnalysis.ComputeForBlock | src/analysis/null_check_elision.rs:28-88 | the loop records the status before each instruction of the block, as the block run defines them |
| NullCheckAnalysis.ComputeNullCheckElision | src/analysis/null_check_elision.rs:15-26 | a single block is analysed from the locals; any other number of blocks gives an empty map per instruction |
| NullCheckAnalysis.SeveralBlocksUnknown | src/analysis/null_check_elision.rs:23-25 | with several blocks every instruction's map is empty, so every register may be null |
| NullCheckAnalysis.StatusBefore | src/analysis/null_check_elision.rs:38-42 | each instruction's status is the run of the block up to it, the first being the initial status |
| NullCheckAnalysis.FaultsOnlyOnMoveOrArgument | src/analysis/null_check_elision.rs:46-66 | an instruction's analysis panics exactly on a reference move from a register with no status or an argument index out of range |
| NullCheckAnalysis.BlockFailure | src/analysis/null_check_elision.rs:38-85 | the block's analysis fails exactly when some instruction fails on the status before it |
| NullCheckAnalysis.TransferRules | src/analysis/null_check_elision.rs:43-84 | new arrays are non-null; null loads, reference element loads, reference call results and reference arguments may be null; a reference move copies the source's status |
| NullCheckAnalysis.TransferOnlyTouchesDestination | src/analysis/null_check_elision.rs:43-84 | an instruction changes at most the status of the register it assigns |
| NullCheckAnalysis.NewArrayStaysNonNull | src/analysis/null_check_elision.rs:71-73 | a new array's register stays non-null at every later instruction of the block until it is written again |
| NullCheckAnalysisExamples.ReturnNullStatuses | src/analysis/null_check_elision.rs:91-117 | for `ldnull; ret` the return sees the loaded register may-be-null |
| NullCheckAnalysisExamples.LoadFromNewArrayStatuses | src/analysis/null_check_elision.rs:150-185 | after `newarr` the array register is non-null until the return, and the loaded element may be null only when it is a reference |
| Peephole.WithOperands | src/optimization/peephole.rs:44-56 | the same arithmetic instruction and destination with the new operands |
| Peephole.Invalidate | src/optimization/peephole.rs:38-43 | a pending load survives exactly when neither it nor its local is read or written by the instruction, and is then unchanged |
| Peephole.PassUpTo | src/optimization/peephole.rs:35-60 | the pass over a block's first instructions keeps the code's length |
| Peephole.Without | src/optimization/peephole.rs:62 | the block keeps exactly the indices not marked for removal |
| Peephole.PassBlock | src/optimization/peephole.rs:29-63 | the pass over one block keeps the code's length |
| Peephole.PassBlocks | src/optimization/peephole.rs:15-17 | passing the blocks in turn keeps the code's length and the number of blocks |
| Peephole.Retain | src/optimization/peephole.rs:19-26 | keeping a subset of the instructions never lengthens the code |
| Peephole.CompilationResult.constructor | src/optimization/peephole.rs:13 | the compilation result holds the given instructions and local registers |
| Peephole.RewriteInstruction | src/optimization/peephole.rs:37-59 | one iteration of the block loop, with the pending loads checked: a load from a local records its target, an arithmetic instruction takes its pending operands and marks their loads for removal, and any instruction drops the pending loads it reads or overwrites |
| Peephole.RemoveLoadLocalForBlock | src/optimization/peephole.rs:29-63 | the instructions and the block become those of the checked block pass; every other block and the locals are unchanged |
| Peephole.KeepUnremoved | src/optimization/peephole.rs:62 | the loop keeps exactly the block's indices not marked for removal, in order |
| Peephole.RetainInstructions | src/optimization/peephole.rs:21-26 | the loop keeps exactly the instructions whose positions are kept, in order |
| Peephole.RemoveLoadLocal | src/optimization/peephole.rs:13-27 | every block is passed, with the pending loads checked, and the instructions no block holds any more are dropped |
| Peephole.RetainPicks | src/optimization/peephole.rs:19-26 | retaining is picking the kept positions in increasing order |
| Peephole.OneBlockRemoval | src/optimization/peephole.rs:13-27 | for a single block holding every instruction, the result is the rewritten code with the removed loads left out |
| Peephole.PassOnlyRewritesOperands | src/optimization/peephole.rs:35-60 | the pass changes nothing but the operands of arithmetic instructions it has reached, keeping their operation, destination and index |
| Peephole.StepRewritesOperands | src/optimization/peephole.rs:37-59 | one step leaves a non-arithmetic instruction alone and changes only the operands of an arithmetic one |
| Peephole.PassLoadsAreMoves | src/optimization/peephole.rs:38-40 | every pending load the pass records comes from an earlier move out of a local into its target |
| Peephole.PassRemovesOnlyLoads | src/optimization/peephole.rs:48-56 | only instructions that are moves out of a local are ever marked for removal |
| Peephole.StepLoads | src/optimization/peephole.rs:38-43 | a pending load after a step was pending before it, or was just recorded by a move out of a local |
| Peephole.StepRemoves | src/optimization/peephole.rs:48-56 | a removal after a step was marked before it, or is the load of a pending operand |
| Peephole.CheckedStepLoads | src/optimization/peephole.rs:38-43 | with the check, a pending load that survives a step is untouched by that instruction |
| Peephole.CheckedPendingIsQuiet | src/optimization/peephole.rs:35-60 | with the check, no instruction between a pending load and now touches its target or its local |
| Peephole.QuietKeepsCopy | src/optimization/peephole.rs:38-56 | after a move, the target and its source hold the same value as long as neither is written |
| Peephole.PendingHoldsLocal | src/optimization/peephole.rs:35-60 | with the check, a pending target holds its local's value at every point of the block |
| Peephole.CheckedOperandsKeepValues | src/optimization/peephole.rs:44-56 | with the check, the rewritten arithmetic instruction reads the same values as the original one |
| PeepholeExamples.LoadReturnKept | src/optimization/peephole.rs:66-99 | `ldloc 0; ret` keeps both instructions |
| PeepholeExamples.ConstantPlusLocalCombined | src/optimization/peephole.rs:102-141 | `ldc 4711; ldloc 0; add; ret` loses the local's load and the addition reads the local directly |
| PeepholeExamples.LocalPlusLocalCombined | src/optimization/peephole.rs:144-183 | `ldloc 0; ldloc 1; add; ret` loses both loads and adds the two locals |
| PeepholeExamples.StoreThenAddCombined | src/optimization/peephole.rs:186-244 | after two stores, both additions read the locals directly and the three loads are gone, nine instructions becoming seven |
| PeepholeExamples.LocalTwiceCombined | src/optimization/peephole.rs:247-286 | `ldloc 0; ldloc 0; add; ret` adds the local to itself |
| PeepholeExamples.AddAfterStoreAsWritten | src/optimization/peephole.rs:38-43 | as written, in `ldloc 0; ldc 1; stloc 0; ldc 2; add; ret` the loaded value's move is removed and the addition reads the local after the store overwrote it |
| PeepholeExamples.AddAfterStoreChecked | src/optimization/peephole.rs:38-43 | with the pending load dropped at the store, the same code is left unchanged |
| PeepholeExamples.AddAfterStoreValues | src/optimization/peephole.rs:38-43 | in that code the addition's first operand holds the local's old value while the local itself already holds the stored one |
| PeepholeExamples.AddAfterStoreReadsStore | src/optimization/peephole.rs:38-56 | starting from the local 0, the addition as rewritten computes 3 where the original computes 2 |
| Verifier.SameType | src/model/verifier.rs:134-140 | succeeds exactly when the types are equal, and otherwise reports the expected and the actual type |
| Verifier.Verifier.constructor | src/model/verifier.rs:34-40 | a verifier over the function and the binder, with an empty operand stack |
| Verifier.Verifier.PopOperandStack | src/model/verifier.rs:130-132 | pops and returns the top type, or reports an empty stack and leaves it empty |
| Verifier.Verifier.VerifyInstruction | src/model/verifier.rs:66-122 | one instruction's check: the new operand stack, or the error, is the one the typing step gives |
| Verifier.Verifier.VerifyArithmetic | src/model/verifier.rs:82-96 | an addition or subtraction pops two operands and pushes the first back when both are `Int32` or both `Float32`, and fails otherwise |
| Verifier.Verifier.VerifyInstructions | src/model/verifier.rs:58-128 | the loop types every instruction in turn and stops at the first error; on success each instruction's recorded operand types are the stack before it, and the function's stack size is the deepest of those stacks |
| Verifier.Verifier.Verify | src/model/verifier.rs:42-56 | rejects a `Void` parameter first, then the instructions' errors, then a non-empty stack at the end; on success the recorded operand types and stack size are those of the typing |
| Verifier.PrefixFailureIsFinal | src/model/verifier.rs:62-123 | once an instruction fails, the verification of the whole body fails with that error |
| Verifier.ArithmeticTyping | src/model/verifier.rs:82-96 | fewer than two operands is an empty stack error; otherwise success exactly when the two operands have the same non-`Void` type, which replaces them, and `WrongArithmeticOperands` otherwise |
| Verifier.CheckArgumentsMeaning | src/model/verifier.rs:103-106 | the arguments are accepted exactly when each matches its parameter, leaving the stack below them; otherwise the error names the last mismatching parameter, the first one popped |
| Verifier.MaxDepthIsMaximum | src/model/verifier.rs:59-64 | the recorded stack size bounds every operand stack before an instruction and is reached by one of them |
| Verifier.VoidParameterRejectedFirst | src/model/verifier.rs:43-47 | a function with a `Void` parameter is rejected before any instruction is looked at |
| Verifier.AddPrefixes | src/model/verifier.rs:144-157 | the stack after each instruction of `ldc 4711; ldc 1337; add; ret` |
| Verifier.AddRecordsBothOperands | src/model/verifier.rs:144-157 | that function verifies, the addition sees two `Int32` operands and the stack size is 2 |
| Verifier.ReturnChecks | src/model/verifier.rs:198-249 | a `Void` function returning with values left is rejected, and so is returning an `Int32` from a `Float32` function |
| Verifier.StoreToMissingLocal | src/model/verifier.rs:271-286 | storing to a local that does not exist is `LocalIndexOutOfRange` |
| Verifier.CallWithTooFewOperands | src/model/verifier.rs:329-347 | calling a five-parameter function with three operands reports the expected count |
| Verifier.WrongArgumentTypeCall | src/model/verifier.rs:350-370 | a `Float32` argument where an `Int32` parameter is expected is reported with both types |
| Verifier.CallWithWrongArgumentType | src/model/verifier.rs:350-370 | the whole function with that call is rejected with the same error |
| Text.DigitRoundTrip | src/parser/mod.rs:74-101 | a decimal digit's character reads back as that digit |
| Text.NatToString | src/parser/mod.rs:74-101 | the decimal numeral of a natural number is a non-empty run of digits |
| Text.DecimalValueOfNatToString | src/parser/mod.rs:101 | reading the numeral of a number gives the number back |
| Text.ToLower | src/parser/mod.rs:271 | lowercasing keeps the length and lowercases each character on its own |
| Parser.WordEnd | src/parser/mod.rs:56-65 | a word runs on while the characters are letters, digits or underscores, and stops at the first that is not |
| Parser.NumberEnd | src/parser/mod.rs:79-96 | a number runs on over digits and dots and stops at the first other character; a second dot is `AlreadyHasDot`; without a dot only digits were read |
| Parser.ScanAt | src/parser/mod.rs:51-137 | each step of the tokenizer consumes at least one character and yields at most one token |
| Parser.ThenThen | src/parser/mod.rs:48-142 | prepending tokens in two steps is prepending them together |
| Parser.ScanWord | src/parser/mod.rs:52-65 | the loop reads the word up to its end, as the word scan defines it |
| Parser.ScanNumber | src/parser/mod.rs:74-96 | the loop reads the number up to its end, or stops at a second dot |
| Parser.ScanToken | src/parser/mod.rs:51-137 | one character's branch of the tokenizer: a keyword or identifier, a number literal, a modifier, a punctuation token, or nothing for anything else |
| Parser.Tokenize | src/parser/mod.rs:47-143 | the loop over the text gives the tokens of the lexer, failing at the first bad number or modifier |
| ParserProperties.ScanAtWellFormed | src/parser/mod.rs:51-137 | every token a step yields is well formed (identifiers start with a letter and are not keywords, integers are not negative) and none is the end token |
| ParserProperties.LexEndsWithEnd | src/parser/mod.rs:140-142 | the tokens end with exactly one `End`, at the end, and all are well formed |
| ParserProperties.LexDropsIgnored | src/parser/mod.rs:135-137 | text of only ignored characters gives just the end token |
| ParserProperties.LexMnemonicExample | src/parser/mod.rs:52-101 | `ldint 12` is an identifier and an integer |
| ParserProperties.LexFieldExample | src/parser/mod.rs:52-134 | `Point::x` is an identifier, two colons and an identifier |
| ParserProperties.LexSecondDotExample | src/parser/mod.rs:84-87 | `1.2.3` is `AlreadyHasDot` |
| ParserProperties.LexOverflowExample | src/parser/mod.rs:101 | `2147483648` does not fit an `i32` and is `IntConvertError` |
| ParserProperties.LexModifierExample | src/parser/mod.rs:118-124 | `.global` is an undefined modifier |
| ParserProperties.LexKeywordExample | src/parser/mod.rs:67-73 | `func` is the keyword but `funcs` is an identifier |
| Parser.ParseType | src/parser/mod.rs:458-460 | an unknown type name is `NotDefinedType` with that name |
| Parser.NextAt | src/parser/mod.rs:448-455 | advancing succeeds exactly when a token remains, and otherwise is `ReachedEndOfTokens` |
| Parser.NextIdentifierAt | src/parser/mod.rs:414-422 | an identifier is read from an identifier token and advances by one; any other token is `ExpectedIdentifier` |
| Parser.NextI32At | src/parser/mod.rs:424-432 | an integer is read from an integer token and advances by one; any other token is `ExpectedInt32` |
| Parser.NextF32At | src/parser/mod.rs:434-442 | a float is read from a float token and advances by one; any other token is `ExpectedFloat32` |
| Parser.NextTypeIdAt | src/parser/mod.rs:410-412 | a type is an identifier token naming a known type, and advances by one |
| Parser.TypeListAt | src/parser/mod.rs:196-209 | a type list ends after its `)` and moves forward |
| ParserProperties.TypeListMeaning | src/parser/mod.rs:196-209 | a parsed type list is one known type per identifier up to the `)` that closes it, after those already parsed |
| ParserProperties.TypeListRejects | src/parser/mod.rs:203-207 | a token that is neither a name nor `)` gives the list's own error, and an unknown name gives `NotDefinedType` |
| Parser.OperandsAt | src/parser/mod.rs:272-406 | an instruction's operands never move the parser back |
| Parser.ParseInstructionAt | src/parser/mod.rs:268-408 | parsing an instruction moves the parser forward |
| ParserProperties.MnemonicCaseInsensitive | src/parser/mod.rs:271 | two mnemonics equal up to case parse the same, except that an unknown one is reported with its own spelling |
| ParserProperties.UnknownMnemonic | src/parser/mod.rs:406 | an unknown mnemonic is `NotDefinedInstruction` with the name as written |
| ParserProperties.ReturnInstruction | src/parser/mod.rs:341 | `ret` in any case is `Return` and takes no operand |
| ParserProperties.LoadIntInstruction | src/parser/mod.rs:276-279 | `ldint` reads one integer operand |
| ParserProperties.NewObjectInstruction | src/parser/mod.rs:342-345 | `newobj` reads one class name |
| ParserProperties.LoadFieldInstruction | src/parser/mod.rs:346-361 | `ldfield` reads `Class::field`, and a missing second colon is `ExpectedColon` |
| Parser.Resize | src/parser/mod.rs:232 | resizing the locals keeps the first slots and fills new ones with `None` |
| Parser.StatementAt | src/parser/mod.rs:222-245 | a statement of a body moves the parser forward |
| Parser.BodyAt | src/parser/mod.rs:221-246 | a body moves the parser forward |
| Parser.CheckLocalsPrefixMeaning | src/parser/mod.rs:248-255 | the locals are accepted exactly when all are typed, giving their types in order; otherwise the error names the first untyped slot |
| Parser.HeaderAt | src/parser/mod.rs:187-216 | a header moves the parser forward |
| Parser.ParseFunctionAt | src/parser/mod.rs:187-266 | a function moves the parser forward |
| Parser.TopLevelAt | src/parser/mod.rs:173-185 | a top-level item never moves the parser back |
| ParserProperties.MissingLeftParentheses | src/parser/mod.rs:191-194 | a name not followed by `(` is `ExpectedLeftParentheses` |
| ParserProperties.MissingBraceExample | src/parser/mod.rs:213-216 | a header without `{` is `ExpectedLeftCurlyParentheses` |
| ParserProperties.LiteralParameterExample | src/parser/mod.rs:207 | a literal among the parameters is `ExpectedRightParentheses` |
| ParserProperties.UnknownParameterTypeExample | src/parser/mod.rs:204 | an unknown parameter type is `NotDefinedType` |
| ParserProperties.BodyEndsAtBrace | src/parser/mod.rs:224-227 | a parsed body ends just after its `}` |
| ParserProperties.HeaderShape | src/parser/mod.rs:188-194 | a parsed header is `func`, the function's name and `(` |
| ParserProperties.FunctionShape | src/parser/mod.rs:187-266 | a parsed function carries the name after `func`, is a managed function with no address, is well formed with empty operand types, and ends at `}` |
| ParserProperties.FunctionLocals | src/parser/mod.rs:248-263 | the parsed function's locals are exactly the body's typed local slots |
| ParserProperties.LocalsExamples | src/parser/mod.rs:228-255 | `.locals 1 .local 0 Int }` declares one `Int` local, and an untyped slot 1 is `UntypedLocal(1)` |
| ParserProperties.InstructionStatement | src/parser/mod.rs:241-243 | an instruction statement appends the parsed instruction |
| ParserProperties.BodyStep | src/parser/mod.rs:221-246 | a body is a statement followed by the rest of the body |
| ParserProperties.BodyClose | src/parser/mod.rs:224-227 | `}` ends the body with what was parsed |
| ParserProperties.OneStatementBody | src/parser/mod.rs:221-246 | a body of one instruction holds just that instruction and no locals |
| ParserProperties.EmptyHeader | src/parser/mod.rs:187-216 | `func name() T {` is a header with no parameters and return type `T` |
| ParserProperties.ReturnOnlyFunction | src/parser/mod.rs:187-266 | `func name() Int { ret }` parses to a managed `Int` function whose only instruction is `Return` |
| ParserProperties.ReturnOnlyItem | src/parser/mod.rs:173-179 | such a function is one top-level item |
| ParserProperties.OneFunctionAccepted | src/parser/mod.rs:160-171 | a text of one function parses to that function, and the corrected loop agrees |
| ParserProperties.TwoFunctionsRejected | src/parser/mod.rs:160-171 | as written, two functions in a row are rejected with `ExpectedFunctionOrClass`, because the loop's `next` skips the `func` of the second |
| ParserProperties.LastFunctionItem | src/parser/mod.rs:160-171 | with the corrected loop, a function followed by `End` is the last item |
| ParserProperties.FirstFunctionItem | src/parser/mod.rs:160-171 | with the corrected loop, a first function is followed by the items after it |
| ParserProperties.TwoFunctionsAccepted | src/parser/mod.rs:160-171 | with the corrected loop, two functions in a row parse to both, in order |
| Parser.Parser.constructor | src/parser/mod.rs:152-158 | a parser over the tokens, before the first one, with no functions |
| Parser.Parser.Next | src/parser/mod.rs:448-455 | advances by one and fails exactly when no token remains |
| Parser.Parser.NextIdentifier | src/parser/mod.rs:414-422 | reads an identifier as the token rule says |
| Parser.Parser.NextI32 | src/parser/mod.rs:424-432 | reads an integer as the token rule says |
| Parser.Parser.NextF32 | src/parser/mod.rs:434-442 | reads a float as the token rule says |
| Parser.Parser.NextTypeId | src/parser/mod.rs:410-412 | reads a type as the token rule says |
| Parser.Parser.TypeList | src/parser/mod.rs:196-209 | the loop reads the type list as its rule says |
| Parser.Parser.FieldReference | src/parser/mod.rs:347-359 | reads `Class::field` as its rule says |
| Parser.Parser.ParseInstruction | src/parser/mod.rs:268-408 | reads an instruction as its rule says |
| Parser.Parser.ParseOperands | src/parser/mod.rs:271-406 | reads a mnemonic's operands as its rule says |
| Parser.Parser.ParseStatement | src/parser/mod.rs:222-245 | reads a body statement as its rule says |
| Parser.Parser.ParseBody | src/parser/mod.rs:218-246 | the loop reads the body as its rule says |
| Parser.Parser.ParseHeader | src/parser/mod.rs:187-216 | reads the header as its rule says |
| Parser.Parser.ParseFunction | src/parser/mod.rs:187-266 | reads a function as its rule says |
| Parser.Parser.ParseTopLevel | src/parser/mod.rs:173-185 | reads a top-level item and appends its function |
| Parser.Parser.Parse | src/parser/mod.rs:160-171 | the loop as written parses items until the token after one is `End`, and hands over the functions |
| CallingConventions.IntArgument | src/compiler/calling_conventions.rs:249-267 | gives a register exactly for the first six integer-class positions (RDI, RSI, RDX, RCX, R8, R9); past them `get_argument` panics, modelled as `None` |
| CallingConventions.FloatArgument | src/compiler/calling_conventions.rs:296-318 | gives a register exactly for the first eight float positions (XMM0 to XMM7); past them it is the panic, modelled as `None` |
| CallingConventions.ArgumentRegistersApart | src/compiler/calling_conventions.rs:249-318 | two different positions of one class never share a register, and no integer argument register is a float argument register |
| CallingConventions.IntRelativeIndex | src/compiler/calling_conventions.rs:269-285 | the loop returns the number of non-float parameters before the given position |
| CallingConventions.FloatRelativeIndex | src/compiler/calling_conventions.rs:320-333 | the loop returns the number of `Float32` parameters before the given position |
| CallingConventions.RelativeIndicesAddUp | src/compiler/calling_conventions.rs:269-285 | the two class counts before a position add up to that position, so every parameter is counted in exactly one class (also lines 320-333 of the same file) |
| CallingConventions.RelativeIndexIncreases | src/compiler/calling_conventions.rs:269-285 | a later parameter has a strictly larger relative index within the class of an earlier one, so relative indices within a class are distinct (also lines 320-333 of the same file) |
| CallingConventions.GetCallRegister | src/compiler/calling_conventions.rs:225-242 | returns a register exactly when the argument's relative index within its class (float or integer) is below that class's register count |
| CallingConventions.CallRegistersApart | src/compiler/calling_conventions.rs:225-242 | two different parameters passed in registers are given different registers |
| CallingConventions.StackArgumentHasNoRegister | src/compiler/calling_conventions.rs:143-169 | a parameter is read from the stack exactly when `get_call_register` gives it no register (also lines 225-242 of the same file) |
| CallingConventions.StackArgumentsByClass | src/compiler/calling_conventions.rs:171-218 | the number of stack parameters before a position is the integer parameters past the sixth plus the float parameters past the eighth |
| CallingConventions.GetStackArgumentIndex | src/compiler/calling_conventions.rs:171-197 | the loop, which stops at the given position, returns the number of stack parameters before that position (all of them when the position is past the end) |
| CallingConventions.NumStackArguments | src/compiler/calling_conventions.rs:199-218 | the loop returns the number of parameters passed on the stack |
| CallingConventions.IntegerStackArguments | src/compiler/calling_conventions.rs:199-218 | with only `Int` parameters the stack takes all past the sixth: two of eight, three of nine |
| CallingConventions.StackAlignment | src/compiler/calling_conventions.rs:220-222 | the padding is 0 or one entry, and the stack arguments, the saved registers and the padding together fill a multiple of 16 bytes |
| CallingConventions.ArgumentSource | src/compiler/calling_conventions.rs:143-169 | an argument is read from frame memory exactly when it is a stack argument, at offset 16 + 8 times the stack arguments before it, and otherwise from the register `get_call_register` names |
| CallingConventions.SourceAboveSlots | src/compiler/calling_conventions.rs:143-169 | a stack argument is read at a positive offset, above the frame base and never in a local slot |
| CallingConventions.FindArgument | src/compiler/calling_conventions.rs:67-98 | the per-parameter step picks the source that `ArgumentSource` defines, by the parameter's class |
| CallingConventions.MoveArgumentsToStack | src/compiler/calling_conventions.rs:67-98 | appends one move per parameter into its argument slot of the frame and returns, for each parameter, its source as `ArgumentSource` defines it |
| CallingConventions.ArgumentsLanded | src/compiler/calling_conventions.rs:67-98 | running the emitted moves leaves every argument source unchanged and puts each parameter's value in that parameter's frame slot |
| CallingConventions.CallFunctionArgument | src/compiler/calling_conventions.rs:34-65 | appends the code for one argument: a move into its call register, or a push when it goes on the stack |
| CallingConventions.CallFunctionArguments | src/compiler/calling_conventions.rs:20-32 | appends the code for every argument, from the last parameter to the first |
| CallingConventions.CallArgumentMoves | src/compiler/calling_conventions.rs:34-65 | running one argument's code either pushes its value or writes it into its call register and nothing else |
| CallingConventions.ArgumentsPassed | src/compiler/calling_conventions.rs:20-65 | running all argument code leaves the arguments unchanged, pushes exactly the stack arguments and leaves each register argument in its call register |
| CallingConventions.PushedInCalleeOrder | src/compiler/calling_conventions.rs:20-65 | the k-th stack argument the callee reads at offset 16 + 8k is the value the caller pushed k-th from the top, so caller and callee agree on the stack arguments (also lines 143-197 of the same file) |
| CallingConventions.ReturnRegister | src/compiler/calling_conventions.rs:100-141 | `Void` has no result register, `Float32` returns in XMM0 and every other type in RAX (also lines 287-288, line 335 of the same file) |
| CallingConventions.MakeReturnValue | src/compiler/calling_conventions.rs:122-141 | appends the move of the result into the return register, and nothing for `Void` |
| CallingConventions.HandleReturnValue | src/compiler/calling_conventions.rs:100-120 | appends the move from the return register into the destination, and nothing for `Void` |
| CallingConventions.ResultTravels | src/compiler/calling_conventions.rs:100-141 | the callee's return code followed by the caller's handling code delivers the callee's result into the caller's destination |
| CompilerIr.HardwareOrder | src/compiler/ir/mod.rs:8-14 | the derived ordering on hardware registers is a strict total order (irreflexive, transitive, total, asymmetric) |
| CompilerIr.HardwareClassesOrdered | src/compiler/ir/mod.rs:8-14 | the derived ordering goes by variant first (`Int` before `IntSpill` before `Float` before `FloatSpill`), then by register number |
| CompilerIr.InstructionBuffer.constructor | src/compiler/ir/mod.rs:43-114 | an instruction list starts empty |
| CompilerIr.InstructionBuffer.Append | src/compiler/ir/mod.rs:43-114 | pushing onto an instruction list appends the given instructions and keeps the earlier ones |
| CompilerIr.MoveToRegisterInto | src/compiler/ir/mod.rs:43-55 | appends the one instruction that moves the variable into a hardware register |
| CompilerIr.MoveToExplicitInto | src/compiler/ir/mod.rs:57-69 | appends the one instruction that moves the variable into a machine register |
| CompilerIr.MoveToStackInto | src/compiler/ir/mod.rs:71-84 | appends a push of the variable, loading a frame slot into the integer spill register first |
| CompilerIr.MoveToStackFrameInto | src/compiler/ir/mod.rs:86-99 | appends a store of the variable into a frame slot, going through the integer spill register for a frame-to-frame copy |
| CompilerIr.MoveFromExplicitInto | src/compiler/ir/mod.rs:102-114 | appends the one instruction that moves a machine register into the variable |
| CompilerIr.Write | src/compiler/ir/mod.rs:36-40 | writing a variable makes it hold the value and leaves the operand stack alone |
| CompilerIr.RunAppend | src/compiler/ir/mod.rs:133 | running two instruction lists one after the other is running their concatenation |
| CompilerIr.MoveToRegisterMoves | src/compiler/ir/mod.rs:43-55 | the emitted instruction copies the variable's value into the destination and changes nothing else |
| CompilerIr.MoveToExplicitMoves | src/compiler/ir/mod.rs:57-69 | the emitted instruction copies the variable's value into the machine register and changes nothing else |
| CompilerIr.MoveToStackPushes | src/compiler/ir/mod.rs:71-84 | the emitted code pushes the variable's value; only for a frame slot does it also leave the value in the integer spill register |
| CompilerIr.MoveToStackFrameStores | src/compiler/ir/mod.rs:86-99 | the emitted code stores the variable's value into the frame slot; only for a frame slot source does it also leave it in the integer spill register |
| CompilerIr.MoveFromExplicitWrites | src/compiler/ir/mod.rs:102-114 | the emitted instruction writes the machine register's value into the variable and changes nothing else |
| CompilerIr.ExplicitRoundTrip | src/compiler/ir/mod.rs:57-69 | moving a variable into a machine register and back leaves the variable's value unchanged (also lines 102-114 of the same file) |
| CompilerIrOld.AsLater | src/compiler/ir.rs:32-35 | the older variable maps onto the later one with the same variant, never onto a machine register |
| CompilerIrOld.MoveToExplicitInto | src/compiler/ir.rs:38-47 | appends the one instruction that moves the older variable into a machine register |
| CompilerIrOld.MoveToStackInto | src/compiler/ir.rs:49-59 | appends a push of the older variable, loading a frame slot into the integer spill register first |
| CompilerIrOld.MoveFromExplicitInto | src/compiler/ir.rs:61-70 | appends the one instruction that moves a machine register into the older variable |
| CompilerIrOld.MoveToExplicitMoves | src/compiler/ir.rs:38-47 | the emitted instruction copies the older variable's value into the machine register |
| CompilerIrOld.MoveToStackPushes | src/compiler/ir.rs:49-59 | the emitted code pushes the older variable's value, using the integer spill register only for a frame slot |
| CompilerIrOld.MoveFromExplicitWrites | src/compiler/ir.rs:61-70 | the emitted instruction writes the machine register's value into the older variable |
| IrHelpers.VirtualRegisterStackOffset | src/compiler/ir/helpers.rs:393-399 | a virtual register's frame slot is a negative, entry-aligned offset below every argument slot |
| IrHelpers.VirtualSlotsApart | src/compiler/ir/helpers.rs:393-399 | distinct virtual registers never share a frame slot |
| IrHelpers.Location | src/compiler/ir/helpers.rs:62-117 | a virtual register lives in its allocated hardware register when it has one and in its own frame slot otherwise |
| IrHelpers.BuiltIsSpillFree | src/compiler/ir/helpers.rs:119-155 | the register allocation hands out only numbered registers, so the spill registers the helpers borrow are never a virtual register's home |
| IrHelpers.WriteValue | src/compiler/ir/helpers.rs:62-117 | writing one location changes that location's value and no other |
| IrHelpers.RunWithAppend | src/compiler/ir/helpers.rs:10-12 | running two pieces of appended code one after the other is running their concatenation |
| IrHelpers.PushAliveRegisters | src/compiler/ir/helpers.rs:14-22 | appends, in list order, a store of each alive register into its virtual register's frame slot |
| IrHelpers.PopAliveRegisters | src/compiler/ir/helpers.rs:24-40 | appends, in reverse order, a reload of each alive register from its slot, skipping the register that receives the call's result |
| IrHelpers.SavedInSlots | src/compiler/ir/helpers.rs:14-22 | after saving, every alive register's value is in its virtual register's slot and only the frame has changed |
| IrHelpers.RestoredFromSlots | src/compiler/ir/helpers.rs:24-40 | after restoring, each alive register other than the result register holds its slot's value, the result register keeps the callee's result, and the frame and the machine registers are unchanged |
| IrHelpers.RestoredMissing | src/compiler/ir/helpers.rs:24-40 | restoring leaves a register that no alive entry names as it was |
| IrHelpers.AliveSurviveCall | src/compiler/ir/helpers.rs:14-40 | when the call leaves the save slots alone, every register alive across it except the result register holds after the restore the value it had before the save |
| IrHelpers.PushIfAlive | src/compiler/ir/helpers.rs:42-60 | reports a push exactly when the operand lives on the stack and its borrowed register is alive, and appends the save and the load |
| IrHelpers.PushIfAliveLoads | src/compiler/ir/helpers.rs:42-60 | for a stack operand the register ends up holding the operand's slot value and its old value is pushed exactly when it was alive; otherwise nothing happens |
| IrHelpers.MoveRegister | src/compiler/ir/helpers.rs:62-87 | appends the code `move_register` emits for each pair of register and stack locations |
| IrHelpers.MoveFromHardwareRegister | src/compiler/ir/helpers.rs:89-102 | appends the move of a hardware register into a virtual register's location |
| IrHelpers.MoveToHardwareRegister | src/compiler/ir/helpers.rs:104-117 | appends the move of a virtual register's location into a hardware register |
| IrHelpers.MoveRegisterMoves | src/compiler/ir/helpers.rs:62-87 | the emitted code copies the source's value into the destination's location and changes nothing else but the integer spill register |
| IrHelpers.MoveFromHardwareMoves | src/compiler/ir/helpers.rs:89-102 | the emitted code writes the hardware register's value into the virtual register's location and changes nothing else |
| IrHelpers.MoveToHardwareMoves | src/compiler/ir/helpers.rs:104-117 | the emitted code writes the virtual register's value into the hardware register and changes nothing else |
| IrHelpers.RegReg | src/compiler/ir/helpers.rs:176-204 | the register-register form of every operation combines the second register into the first |
| IrHelpers.RegMem | src/compiler/ir/helpers.rs:176-204 | the register-memory form of every operation combines a frame slot into a register |
| IrHelpers.MemReg | src/compiler/ir/helpers.rs:176-204 | the memory-register form, which only the integer operations have, combines a register into a frame slot |
| IrHelpers.OperandAtLocation | src/compiler/ir/helpers.rs:130-131 | the (register, offset) pair handed to the internal helpers names the virtual register's own location |
| IrHelpers.BinaryInternalComputes | src/compiler/ir/helpers.rs:176-204 | whatever the operation, the emitted code leaves its result on the two operands in the first operand's location and changes nothing else but the integer spill register |
| IrHelpers.NoMemoryStoreInternalComputes | src/compiler/ir/helpers.rs:240-269 | for operations without a memory-destination form, the code computes into the first operand through the spill register of its class and changes nothing else but that register (also lines 362-391 of the same file) |
| IrHelpers.BinaryWithDestinationComputes | src/compiler/ir/helpers.rs:119-155 | the destination receives the operation on the two operands in both branches (destination is the first operand, or the first operand goes through the integer spill register), and nothing else changes but that register |
| IrHelpers.NoMemoryStoreWithDestinationComputes | src/compiler/ir/helpers.rs:206-238 | the same for the integer operations without a memory form (through `IntSpill`) and for the float operations (through `FloatSpill`) (also lines 312-344 of the same file) |
| IrHelpers.BinaryComputes | src/compiler/ir/helpers.rs:157-174 | the in-place form leaves the operation's result in the first operand's location and changes nothing else but the integer spill register |
| IrHelpers.BinaryOperatorInternal | src/compiler/ir/helpers.rs:176-204 | appends the code chosen by which operands have hardware registers, going through the integer spill register when neither has one |
| IrHelpers.NoMemoryStoreInternal | src/compiler/ir/helpers.rs:240-269 | appends the code chosen by which operands have registers, loading and storing the first operand through the spill register when it has none (also lines 362-391 of the same file) |
| IrHelpers.BinaryOperatorWithDestination | src/compiler/ir/helpers.rs:119-155 | appends the in-place code when the destination is the first operand and otherwise the code through the integer spill register |
| IrHelpers.NoMemoryStoreWithDestination | src/compiler/ir/helpers.rs:206-238 | the same for operations without a memory-destination form, through the given spill register (also lines 312-344 of the same file) |
| IrHelpers.RegConst | src/compiler/ir/helpers.rs:271-310 | the register-constant form combines the immediate into the register |
| IrHelpers.MemConst | src/compiler/ir/helpers.rs:271-310 | the memory-constant form combines the immediate into the frame slot |
| IrHelpers.ConstantWithDestination | src/compiler/ir/helpers.rs:271-310 | appends the constant operation in place when the destination is the first operand and otherwise through the integer spill register |
| IrHelpers.ConstantWithDestinationComputes | src/compiler/ir/helpers.rs:271-310 | the destination receives the operation on the first operand and the constant, and nothing else changes but the integer spill register |
| IrHelpers.LargestTemp | src/compiler/ir/helpers.rs:429-438 | picks the largest free temporary in the register order, and none exactly when the pool is empty |
| IrHelpers.TempRegisters.constructor | src/compiler/ir/helpers.rs:408-421 | a new pool holds `Int(3)`, `Int(4)` and `Int(5)` |
| IrHelpers.TempRegisters.TryRemove | src/compiler/ir/helpers.rs:423-427 | an operand in a hardware register takes that register out of the pool; a stack operand leaves the pool alone |
| IrHelpers.TempRegisters.GetRegister | src/compiler/ir/helpers.rs:429-438 | a hardware operand gets its own register without borrowing; a stack operand borrows and removes the largest free temporary, and an empty pool is the `unwrap` panic (`None`) |
| IrHelpers.TempRegistersExhaust | src/compiler/ir/helpers.rs:408-438 | three stack operands borrow `Int(5)`, `Int(4)` and `Int(3)` in that order and a fourth one panics |
| LowIr.RunAppend | src/ir/low/mod.rs:48-84 | running two instruction lists one after the other is running their concatenation |
| LowIr.RunPopOperand | src/ir/low/mod.rs:56 | popping an operand into a register moves the top of the operand stack into that register and drops it |
| LowIr.RunPushOperand | src/ir/low/mod.rs:55 | pushing a register puts its value on top of the operand stack |
| LowIr.OperationEffect | src/ir/low/mod.rs:68-71 | an add or subtract of either class writes the operation on the two registers into the first register and changes nothing else |
| LowIr.RunLoadOperateStore | src/ir/low/mod.rs:63-71 | loading two slots, combining them and storing the result writes the combination into the destination slot and no other slot |
| LowIr.RunLoadStore | src/ir/low/mod.rs:63-64 | a load followed by a store copies one slot into another and changes no other slot |
| LowIr.RunMoveConstant | src/ir/low/mod.rs:72 | storing an immediate writes it into the slot and changes no other slot |
| LowCompiler.ZeroLocals | src/ir/low/compiler.rs:49-56 | one store per local |
| LowCompiler.StackArgumentsAll | src/ir/low/compiler.rs:124-127 | every call argument is taken from the operand stack |
| LowCompiler.InstructionIRCompiler.constructor | src/ir/low/compiler.rs:20-28 | a new compiler holds its inputs, an empty instruction list and a branch manager with no labels |
| LowCompiler.InstructionIRCompiler.Push | src/ir/low/compiler.rs:20-28 | appends one instruction to the list |
| LowCompiler.InstructionIRCompiler.PushAll | src/ir/low/compiler.rs:20-28 | appends a piece of code to the list |
| LowCompiler.InstructionIRCompiler.CompileInitializeFunction | src/ir/low/compiler.rs:39-58 | appends the prologue: frame set-up, the aligned frame allocation when the frame is not empty, the argument moves, and the zeroing of the locals |
| LowCompiler.InstructionIRCompiler.CompileArithmetic | src/ir/low/compiler.rs:90-123 | succeeds exactly for `Int` and `Float` operands and then appends the pop-pop-operate-push code of that class |
| LowCompiler.InstructionIRCompiler.CompileArray | src/ir/low/compiler.rs:148-191 | appends the array code: operands popped into fixed registers, the null check unless the array is known non-null, the bounds check before an element access, and the result pushed from the return register |
| LowCompiler.InstructionIRCompiler.CompileNullCheck | src/ir/low/compiler.rs:160-162 | appends a null check exactly when the operand is not known to be non-null |
| LowCompiler.InstructionIRCompiler.CompileBranchCondition | src/ir/low/compiler.rs:195-239 | succeeds exactly when the target has a label, an operand type is known and the type is `Int` or `Float`, and then appends the two pops and the compare-and-jump |
| LowCompiler.InstructionIRCompiler.CompileConstant | src/ir/low/compiler.rs:70-79 | appends the push of the constant (the float's bits, or zero for null) |
| LowCompiler.InstructionIRCompiler.CompileSlot | src/ir/low/compiler.rs:80-89 | appends the move between the operand stack and the local's or the argument's frame slot (also lines 135-139 of the same file) |
| LowCompiler.InstructionIRCompiler.CompileCall | src/ir/low/compiler.rs:124-134 | fails exactly when the callee is not bound (the `unwrap` panic) and otherwise appends the call with stack arguments and the return-value handling |
| LowCompiler.InstructionIRCompiler.CompileBody | src/ir/low/compiler.rs:69-239 | the dispatch over the instruction succeeds and appends exactly what the reference translation `Body` gives |
| LowCompiler.InstructionIRCompiler.CompileValueBody | src/ir/low/compiler.rs:70-139 | the same for constants, slots, arithmetic and calls |
| LowCompiler.InstructionIRCompiler.CompileControlBody | src/ir/low/compiler.rs:140-239 | the same for return, the array instructions and the branches |
| LowCompiler.InstructionIRCompiler.CompileBranch | src/ir/low/compiler.rs:192-239 | the same for the branches: an unconditional jump to the target's label or a conditional one |
| LowCompiler.InstructionIRCompiler.CompileInstruction | src/ir/low/compiler.rs:60-239 | appends the instruction's marker, its label when it is a branch target, and its body, failing exactly when the body does |
| LowCompiler.InstructionIRCompiler.CompileHeader | src/ir/low/compiler.rs:60-66 | appends the marker and, at a branch target, its label |
| LowCompiler.InstructionIRCompiler.Compile | src/ir/low/compiler.rs:30-37 | succeeds exactly when the reference translation of the whole function does, and then appends exactly that code |
| LowCompiler.InstructionIRCompiler.CompileInstructions | src/ir/low/compiler.rs:33-36 | the loop over the instructions appends the translation of every instruction in order, failing exactly when one of them does |
| LowCompiler.InstructionIRCompiler.CompileNext | src/ir/low/compiler.rs:33-36 | one loop step extends the code of the first i instructions to the first i + 1, and a failure means the whole translation fails |
| LowCompiler.InstructionIRCompiler.Done | src/ir/low/compiler.rs:241-243 | hands back the instructions emitted so far |
| LowCompiler.CodeStopsAtPanic | src/ir/low/compiler.rs:33-36 | once one instruction's translation panics, the translation of every longer prefix fails |
| LowCompiler.CompileFunction | src/ir/low/compiler.rs:20-37 | a fresh compiler run over a function gives exactly the reference translation `Compiled` |
| LowCompiler.PrologueShape | src/ir/low/compiler.rs:39-58 | the prologue starts with the frame set-up, allocates a 16-byte aligned amount at least the frame size and less than 16 more when the frame is not empty, then moves the arguments and zeroes each local |
| LowCompiler.LocalsZeroed | src/ir/low/compiler.rs:49-56 | the zeroing stores leave every local slot zero and every other slot, the registers and the operand stack unchanged |
| LowCompiler.ZeroingCodeZeroes | src/ir/low/compiler.rs:49-56 | loading zero into `Int(0)` and then storing it into each local zeroes all of them |
| LowCompiler.InstructionStartsWithHeader | src/ir/low/compiler.rs:60-66 | every instruction's code starts with the marker of its index, followed by its label exactly when it is a branch target |
| LowCompiler.BodyHasNoLabel | src/ir/low/compiler.rs:69-239 | no instruction body starts with a label, so the labels come only from the header |
| LowCompiler.IntArithmeticOnStack | src/ir/low/compiler.rs:90-97 | an `Int` add or subtract replaces the top two operands by their 32-bit wrapped sum or difference, in operand order (also lines 107-114 of the same file) |
| LowCompiler.FloatArithmeticOnStack | src/ir/low/compiler.rs:98-105 | a `Float` add or subtract replaces the top two operands by the float operation on them, in operand order (also lines 115-122 of the same file) |
| LowCompiler.ArithmeticTypes | src/ir/low/compiler.rs:90-123 | arithmetic is translated exactly for `Int` and `Float` operands; any other type is the panic |
| LowCompiler.LocalAccessOnStack | src/ir/low/compiler.rs:80-89 | loading a local pushes its slot's value leaving the frame alone, and storing one pops the top into the slot |
| LowCompiler.ConstantsOnStack | src/ir/low/compiler.rs:70-79 | each constant instruction pushes its value: the integer, the float's bit pattern, or zero for null |
| LowCompiler.ArrayChecks | src/ir/low/compiler.rs:153-191 | a null check is emitted exactly when the array operand is not known to be non-null, every element access is directly preceded by its bounds check, and the length query has none |
| LowCompiler.BranchOperandsInOrder | src/ir/low/compiler.rs:195-239 | a conditional branch pops the two operands so that the compare sees them in push order, uses the condition the instruction names, compares with the operand type and jumps to the target's label |
| Mid.DefUsePartition | src/ir/mid.rs:72-124 | for every instruction, the written register followed by the read ones are exactly its register operands in field order (the table as intended) |
| Mid.LoadArrayLengthAsWritten | src/ir/mid.rs:87 | as written, the table names the array operand of `LoadArrayLength` as the written register and records no read, so the destination is never defined and the array is never used (also line 114 of the same file) |
| Mid.AssignRegisterPresence | src/ir/mid.rs:72-93 | an instruction writes no register exactly when it is a return, an element store, a label, a branch, or a call without a result |
| Mid.NameIdentifiesVariant | src/ir/mid.rs:49-70 | two instructions with the same name are the same variant |
| MidCompiler.Arguments | src/ir/mid/compiler.rs:119-126 | the call's argument registers are the top stack registers, in parameter order and with the parameter types |
| MidCompiler.LocalRegisters | src/ir/mid/compiler.rs:39-42 | local i gets the register numbered counter + i, with the local's type |
| MidCompiler.LoadFollowsStack | src/ir/mid/compiler.rs:59-67 | a load pushes one register numbered at the old counter and moves the counter up by one (also lines 136-143 of the same file) |
| MidCompiler.LocalAccessFollowsStack | src/ir/mid/compiler.rs:68-77 | a local load pushes one stack register and a local store pops one, each a move to or from the local's register |
| MidCompiler.ArithmeticFollowsStack | src/ir/mid/compiler.rs:78-109 | an add or subtract pops two registers and pushes the result, so the counter goes down by one |
| MidCompiler.CallFollowsStack | src/ir/mid/compiler.rs:119-135 | a call pops one register per parameter and pushes one exactly when the callee returns a value |
| MidCompiler.ArrayFollowsStack | src/ir/mid/compiler.rs:144-165 | each array instruction pops its operands and pushes its result register as the stack discipline says |
| MidCompiler.ControlFollowsStack | src/ir/mid/compiler.rs:110-118 | a return pops the result when the function returns a value, and a conditional branch pops its two operands (also lines 166-196 of the same file) |
| MidCompiler.EmitFollowsStack | src/ir/mid/compiler.rs:49-198 | every instruction of the older instruction set that translates keeps the counter equal to the operand-stack depth: it pops what it reads and pushes what it produces |
| MidCompiler.FloatLoadedAsBits | src/ir/mid/compiler.rs:63-67 | a float constant becomes an integer load of its reinterpreted bit pattern, which reinterprets back to the same bits |
| MidCompiler.PopAtZeroPanics | src/ir/mid/compiler.rs:200-208 | any instruction that pops with an empty operand stack is the "Invalid stack virtual register" panic |
| MidCompiler.AdvanceMarkers | src/ir/mid/compiler.rs:49-57 | one step appends the instruction's marker, then its label when it is a branch target, then its translation, and keeps the earlier code |
| MidCompiler.StepMarkers | src/ir/mid/compiler.rs:49-57 | each translated instruction adds exactly one marker, carrying its own index |
| MidCompiler.RunMarkers | src/ir/mid/compiler.rs:44-46 | after k instructions, the markers are 0 up to k - 1, in order |
| MidCompiler.InstructionMidCompiler.constructor | src/ir/mid/compiler.rs:24-34 | a new compiler has no instructions, no local registers and a zero counter |
| MidCompiler.InstructionMidCompiler.UseStackRegister | src/ir/mid/compiler.rs:200-208 | pops the stack: the counter goes down by one and the register numbered at the new counter is returned |
| MidCompiler.InstructionMidCompiler.AssignStackRegister | src/ir/mid/compiler.rs:210-214 | pushes the stack: the register numbered at the old counter is returned and the counter goes up by one |
| MidCompiler.InstructionMidCompiler.Push | src/ir/mid/compiler.rs:49-57 | appends one entry to the instruction list |
| MidCompiler.InstructionMidCompiler.CompileLoad | src/ir/mid/compiler.rs:59-67 | appends the translation `EmitLoad` gives and moves the counter to its new value (also lines 136-143 of the same file) |
| MidCompiler.InstructionMidCompiler.CompileLocal | src/ir/mid/compiler.rs:68-77 | appends the translation `EmitLocal` gives and moves the counter to its new value |
| MidCompiler.InstructionMidCompiler.CompileArithmetic | src/ir/mid/compiler.rs:78-109 | appends the translation `EmitArithmetic` gives and moves the counter to its new value |
| MidCompiler.InstructionMidCompiler.PopArguments | src/ir/mid/compiler.rs:122-126 | pops one register per parameter, from the last to the first, and returns them in parameter order |
| MidCompiler.InstructionMidCompiler.CompileCall | src/ir/mid/compiler.rs:119-135 | appends the translation `EmitCall` gives and moves the counter to its new value |
| MidCompiler.InstructionMidCompiler.CompileArray | src/ir/mid/compiler.rs:144-165 | appends the translation `EmitArray` gives and moves the counter to its new value |
| MidCompiler.InstructionMidCompiler.CompileControl | src/ir/mid/compiler.rs:110-118 | appends the translation `EmitControl` gives and moves the counter to its new value (also lines 166-196 of the same file) |
| MidCompiler.InstructionMidCompiler.CompileOp | src/ir/mid/compiler.rs:58-197 | the dispatch appends exactly what the reference translation `Emit` gives |
| MidCompiler.InstructionMidCompiler.CompileInstruction | src/ir/mid/compiler.rs:49-198 | the new code and counter are exactly one `StepAt` from the old ones |
| MidCompiler.InstructionMidCompiler.AssignLocals | src/ir/mid/compiler.rs:39-42 | gives local i the register numbered counter + i and moves the counter past the locals |
| MidCompiler.InstructionMidCompiler.Compile | src/ir/mid/compiler.rs:36-47 | assigns the local registers, then leaves code and counter exactly as the reference run over all instructions gives them |
| MidCompiler.InstructionMidCompiler.CompileInstructions | src/ir/mid/compiler.rs:44-46 | the loop leaves code and counter as the reference run over all instructions gives them |
| MidCompiler.InstructionMidCompiler.Done | src/ir/mid/compiler.rs:216-218 | hands back the instructions emitted so far |
| MidCompiler.CompiledMarkers | src/ir/mid/compiler.rs:36-57 | the code of a whole function carries exactly one marker per bytecode instruction, 0 up to n - 1 in order |
| MidCompiler.CompileFunction | src/ir/mid/compiler.rs:24-47 | a fresh compiler run over a function gives the locals registers 0 up to the number of locals and exactly the reference translation |
| MidIrCompiler.ZeroStores | src/ir/mid/ir_compiler.rs:46-53 | one store per register that needs zeroing |
| MidIrCompiler.ArgumentSlots | src/ir/mid/ir_compiler.rs:109-112 | one call argument source per argument register |
| MidIrCompiler.InstructionIRCompiler.constructor | src/ir/mid/ir_compiler.rs:19-25 | a new compiler holds its environment and no instructions |
| MidIrCompiler.InstructionIRCompiler.Push | src/ir/mid/ir_compiler.rs:56-214 | appends one instruction |
| MidIrCompiler.InstructionIRCompiler.PushAll | src/ir/mid/ir_compiler.rs:56-214 | appends a piece of code |
| MidIrCompiler.InstructionIRCompiler.CompileInitializeFunction | src/ir/mid/ir_compiler.rs:35-54 | appends the prologue: frame set-up, the rounded frame allocation when not empty, the argument moves, and the zeroing of the registers that need it |
| MidIrCompiler.InstructionIRCompiler.CompileArithmetic | src/ir/mid/ir_compiler.rs:71-94 | appends the load-load-operate-store code of the instruction's class |
| MidIrCompiler.InstructionIRCompiler.CompileValueMove | src/ir/mid/ir_compiler.rs:60-70 | appends the direct store of a constant, or the load and store of a copy through `Int(0)` (also lines 125-134 of the same file) |
| MidIrCompiler.InstructionIRCompiler.CompileArray | src/ir/mid/ir_compiler.rs:135-179 | appends the array code with its null and bounds checks and the result stored from the return register |
| MidIrCompiler.InstructionIRCompiler.ArgumentSources | src/ir/mid/ir_compiler.rs:109-112 | each argument is passed from its register's frame slot |
| MidIrCompiler.InstructionIRCompiler.CompileControl | src/ir/mid/ir_compiler.rs:95-124 | for return, call, label and branches succeeds exactly when the reference translation does, and appends exactly that code (also lines 180-212 of the same file) |
| MidIrCompiler.InstructionIRCompiler.CompileInstruction | src/ir/mid/ir_compiler.rs:56-214 | appends the marker and the translation, failing exactly when the reference translation panics |
| MidIrCompiler.InstructionIRCompiler.Compile | src/ir/mid/ir_compiler.rs:27-33 | succeeds exactly when the reference translation of the whole function does, and appends exactly that code |
| MidIrCompiler.InstructionIRCompiler.CompileInstructions | src/ir/mid/ir_compiler.rs:30-32 | the loop appends each instruction's translation in order, failing exactly when one panics |
| MidIrCompiler.InstructionIRCompiler.CompileNext | src/ir/mid/ir_compiler.rs:30-32 | one loop step extends the code of the first k instructions to k + 1, and a failure means the whole translation fails |
| MidIrCompiler.InstructionIRCompiler.Done | src/ir/mid/ir_compiler.rs:220-222 | hands back the instructions emitted so far |
| MidIrCompiler.CodeStopsAtPanic | src/ir/mid/ir_compiler.rs:30-32 | once one instruction panics, every longer prefix fails |
| MidIrCompiler.CompileFunction | src/ir/mid/ir_compiler.rs:19-33 | a fresh compiler run over a function gives exactly the reference translation |
| MidIrCompiler.PrologueReservesAligned | src/ir/mid/ir_compiler.rs:35-45 | the prologue reserves a 16-byte aligned amount at least the frame size and less than 16 more when the frame is not empty, then moves the arguments and zeroes |
| MidIrCompiler.ZeroStoresAt | src/ir/mid/ir_compiler.rs:46-53 | the k-th zeroing store writes `Int(0)` to the k-th register's slot |
| MidIrCompiler.ZeroStoresZero | src/ir/mid/ir_compiler.rs:46-53 | with `Int(0)` zero, the stores zero every listed slot and leave other slots, the registers and the operand stack unchanged |
| MidIrCompiler.ZeroingZeroes | src/ir/mid/ir_compiler.rs:46-53 | the zeroing code zeroes every register that needs it, changes no other slot, and touches only `Int(0)`, and only when there is something to zero |
| MidIrCompiler.ArithmeticComputes | src/ir/mid/ir_compiler.rs:71-94 | an arithmetic instruction writes the operation on its operands' slots into its destination's slot and no other slot |
| MidIrCompiler.ValueMoveStores | src/ir/mid/ir_compiler.rs:60-70 | a constant, copy, argument load or null load writes its value (a float as its bits, null as 0) into the destination's slot and no other slot (also lines 125-134 of the same file) |
| MidIrCompiler.LoadElementChecked | src/ir/mid/ir_compiler.rs:143-155 | an element load always checks the array for null and the index's bounds, with the array and index loaded from their slots, and stores the result to the destination's slot |
| MidIrCompiler.StoreElementChecked | src/ir/mid/ir_compiler.rs:156-170 | an element store always checks null and bounds before storing, with array, index and value loaded from their slots |
| MidIrCompiler.LoadArrayLengthChecked | src/ir/mid/ir_compiler.rs:171-179 | a length query always checks the array for null and stores the length to the destination's slot |
| MidIrCompiler.BranchConditionTyped | src/ir/mid/ir_compiler.rs:186-212 | a conditional branch translates exactly for `Int32` and `Float32`, loading its operands in order into registers of the compared class |
| MidIrCompiler.ArgumentSlotsAt | src/ir/mid/ir_compiler.rs:109-112 | the k-th argument source is the k-th argument register's frame slot |
| MidIrCompiler.InstructionCompilesUnlessPanic | src/ir/mid/ir_compiler.rs:56-214 | an instruction fails to compile exactly when it panics (an unbound callee or a branch on another type); otherwise its code starts with its marker, and a call passes each argument from its slot |
| MidIrCompiler.CompilesUnlessSomePanic | src/ir/mid/ir_compiler.rs:27-33 | the first k instructions compile exactly when none of them panics |
| Mir.ToVirtual | src/mir/mod.rs:132-134 | the analysis register carries the same number and type as the IR register |
| Mir.AssignVirtualRegister | src/mir/mod.rs:132-134 | present exactly when the instruction writes a register, and then that register's analysis identity |
| Mir.UseVirtualRegisters | src/mir/mod.rs:163-165 | the analysis identities of the read registers, one for one and in order |
| Mir.SimplePartitioned | src/mir/mod.rs:105-161 | for constants, moves and labels, the written register followed by the read registers are the register operands |
| Mir.ThreeRegisterPartitioned | src/mir/mod.rs:105-161 | the same for the three-register arithmetic, logic and compare instructions |
| Mir.ConstantOperandPartitioned | src/mir/mod.rs:105-161 | the same for the constant-operand forms |
| Mir.CallOrReturnPartitioned | src/mir/mod.rs:105-161 | the same for calls, instance calls and returns, with or without a result |
| Mir.MemoryAccessPartitioned | src/mir/mod.rs:105-161 | the same for object and array creation and for field and array accesses, the array-length query included, in the table as intended |
| Mir.DefUsePartition | src/mir/mod.rs:105-161 | for every instruction, the written register followed by the read ones are exactly its register operands in field order (the table as intended) |
| Mir.LoadArrayLengthAsWritten | src/mir/mod.rs:125 | as written, the table names the array operand of `LoadArrayLength` as the written register and records no read, so the destination is never defined and the array never used (also line 152 of the same file) |
| Mir.AsWrittenElsewhere | src/mir/mod.rs:105-161 | for every other instruction the table as written and the intended one agree |
| Mir.AssignRegisterPresence | src/mir/mod.rs:105-130 | an instruction writes no register exactly when it is a return, a store, a collection, a frame dump, a label, a branch, or a call without a result |
| MirCompiler.Arguments | src/mir/compiler.rs:257-261 | a call's arguments are its parameters' registers, numbered consecutively below the counter, the first parameter deepest |
| MirCompiler.OperandEntry | src/mir/compiler.rs:102-108 | the operand entry recorded for an instruction gives the `i`-th operand type the register numbered past the locals by `i` |
| MirCompiler.LocalRegisters | src/mir/compiler.rs:79-85 | locals take consecutive registers from the counter, one per local and with its type, in declaration order |
| MirCompiler.BinaryNumbering | src/mir/compiler.rs:137-236 | a binary operator pops the right then the left operand and its result reuses the left operand's number, so the counter falls by one |
| MirCompiler.BinaryRejectsType | src/mir/compiler.rs:150 | arithmetic on an operand type other than Int32 or Float32 panics (no translation) (also line 166, line 182, lines 198 of the same file) |
| MirCompiler.CallArgumentOrder | src/mir/compiler.rs:254-272 | a non-macro call's `i`-th argument is the register of its `i`-th parameter from the popped ones, and it pushes a result register exactly when the callee is not void |
| MirCompiler.MacroCalls | src/mir/compiler.rs:49-67 | calls of the collector and of the stack-frame printer expand to their own instruction and leave the operand counter unchanged (also lines 249-253 of the same file) |
| MirCompiler.CallNumbering | src/mir/compiler.rs:248-274 | every register of a call is popped from below the counter or is the one it pushes, numbered by the new counter minus one (also lines 401-416 of the same file) |
| MirCompiler.BinaryWellNumbered | src/mir/compiler.rs:137-236 | the same numbering discipline for the binary operators (also lines 401-416 of the same file) |
| MirCompiler.ArrayNumbering | src/mir/compiler.rs:284-313 | the same numbering discipline for array creation, element access and length |
| MirCompiler.ObjectNumbering | src/mir/compiler.rs:315-336 | the same numbering discipline for object creation and field access |
| MirCompiler.LoadNumbering | src/mir/compiler.rs:111-126 | the same numbering discipline for constants, arguments and null (also lines 276-283 of the same file) |
| MirCompiler.LocalAccessNumbering | src/mir/compiler.rs:127-136 | the same numbering discipline for local loads and stores, whose other register is a local |
| MirCompiler.ControlNumbering | src/mir/compiler.rs:239-247 | the same numbering discipline for return, branches and compares (also lines 338-399 of the same file) |
| MirCompiler.EmitNumbering | src/mir/compiler.rs:94-399 | every instruction that compiles follows the numbering discipline: pushed register is the new counter minus one, nothing else is above the old counter except locals |
| MirCompiler.MacroTableWithoutRegisters | src/mir/compiler.rs:49-67 | neither built-in macro expansion mentions any register |
| MirCompiler.AdvanceBounded | src/mir/compiler.rs:97-108 | appending a well-numbered translation, its optional label and its operand entry keeps every register below the maximum and adds as many operand entries as instructions (also lines 411-416 of the same file) |
| MirCompiler.StepBounded | src/mir/compiler.rs:94-399 | compiling one instruction keeps every register below the recorded maximum |
| MirCompiler.RunBounded | src/mir/compiler.rs:88-91 | compiling any prefix keeps every register below the maximum, so the maximum is a correct register count, with one operand entry per emitted instruction |
| MirCompiler.LabelBeforeTarget | src/mir/compiler.rs:97-100 | a branch target gets its label instruction, with an empty operand entry, before its own code |
| MirCompiler.EmitEffect | src/mir/compiler.rs:94-399 | each instruction that compiles pops exactly its stack effect's pops and pushes its pushes, and never pops below zero |
| MirCompiler.CounterIsDepth | src/mir/compiler.rs:88-91 | after a prefix the counter has moved by exactly the prefix's operand-stack depth |
| MirCompiler.OperandEntryIsStack | src/mir/compiler.rs:102-108 | when the recorded operand types match the stack depth, the operand entry names exactly the registers between the locals and the counter (also lines 401-416 of the same file) |
| MirCompiler.RunPrefixStep | src/mir/compiler.rs:88-91 | the run to `k + 1` is the run to `k` followed by compiling instruction `k` |
| MirCompiler.RunPrefixSome | src/mir/compiler.rs:88-91 | a run that compiles the whole body compiles every prefix of it |
| Sequences.Reverse | src/mir/compiler.rs:257-261 | the reversed sequence has the same length and the elements in the opposite order |
| MirCompiler.CompiledBounded | src/mir/compiler.rs:76-92 | a compiled function's register count covers its locals and every register of its code, with one operand entry per instruction (also lines 418-426 of the same file) |
| MirCompiler.RunMaxGrows | src/mir/compiler.rs:411-416 | the recorded maximum register count never falls |
| MirCompiler.CompileFunction | src/mir/compiler.rs:36-92 | a fresh compiler gives locals registers 0 to k-1 in order as the registers to zero, and returns the code, register count and operand entries of the compiled form (also lines 418-426 of the same file) |
| MirCompiler.InstructionMirCompiler.constructor | src/mir/compiler.rs:36-70 | a fresh compiler has empty code, no locals, counters at zero and the two built-in macros registered |
| MirCompiler.InstructionMirCompiler.MakeMacro | src/mir/compiler.rs:72-74 | registers (or replaces) one macro expansion and changes no other entry |
| MirCompiler.InstructionMirCompiler.UseStackRegister | src/mir/compiler.rs:401-409 | pops the top operand register: the counter falls by one and the register carries the new counter and the given type |
| MirCompiler.InstructionMirCompiler.AssignStackRegister | src/mir/compiler.rs:411-416 | pushes a register numbered by the old counter, raises the counter by one and keeps the maximum at least the counter |
| MirCompiler.InstructionMirCompiler.Push | src/mir/compiler.rs:246 | appends exactly one instruction at the end of the code |
| MirCompiler.InstructionMirCompiler.CompileBinary | src/mir/compiler.rs:137-236 | the state after a binary operator is the reference translation's: code, counter and maximum |
| MirCompiler.InstructionMirCompiler.ExpandMacro | src/mir/compiler.rs:249-253 | a macro call appends its expansion and the table afterwards is the same as before |
| MirCompiler.InstructionMirCompiler.PopArguments | src/mir/compiler.rs:257-261 | pops one register per parameter and returns them in parameter order, the reference arguments |
| MirCompiler.InstructionMirCompiler.CompileCall | src/mir/compiler.rs:248-274 | the state after a call is the reference translation's, and the macro table is unchanged |
| MirCompiler.InstructionMirCompiler.CompileMemory | src/mir/compiler.rs:284-336 | the state after an array or object instruction is the reference translation's |
| MirCompiler.InstructionMirCompiler.CompileLoad | src/mir/compiler.rs:111-126 | the state after a constant, argument or null load is the reference translation's (also lines 276-283 of the same file) |
| MirCompiler.InstructionMirCompiler.CompileLocal | src/mir/compiler.rs:127-136 | the state after a local load or store is the reference translation's |
| MirCompiler.InstructionMirCompiler.CompileControl | src/mir/compiler.rs:239-247 | the state after a return, branch or compare is the reference translation's (also lines 338-399 of the same file) |
| MirCompiler.InstructionMirCompiler.CompileOp | src/mir/compiler.rs:110-398 | the state after any instruction body is the reference translation's, with the macro table unchanged |
| MirCompiler.InstructionMirCompiler.CompileInstruction | src/mir/compiler.rs:94-399 | the whole state (code, operand entries, counter, maximum) after one instruction is the reference step's |
| MirCompiler.InstructionMirCompiler.AssignLocals | src/mir/compiler.rs:78-84 | appends one register per local, numbered consecutively from the counter, and advances the counter past them |
| MirCompiler.InstructionMirCompiler.Compile | src/mir/compiler.rs:76-92 | after defining labels and locals, the state after the body is the reference run over every instruction |
| MirCompiler.InstructionMirCompiler.CompileInstructions | src/mir/compiler.rs:88-91 | compiling a list of instructions leaves the state of the reference run and does not touch locals or macros |
| MirCompiler.InstructionMirCompiler.Done | src/mir/compiler.rs:418-426 | the result's register count is the maximum and the registers to zero are the locals |
| FrameCompiler.ZeroStores | src/compiler/ir/compiler.rs:58-63 | one zeroing store per listed register |
| FrameCompiler.BinaryOperatorOf | src/compiler/ir/compiler.rs:86-159 | exactly the two-register arithmetic and logic instructions have an operation, and it is a float operation exactly for the float ones |
| FrameCompiler.ConstantOperatorOf | src/compiler/ir/compiler.rs:92-96 | exactly the constant-operand instructions have an operation, and a Boolean constant is lowered as 1 or 0 (also lines 103-107, lines 144-148, lines 155-159 of the same file) |
| FrameCompiler.ArgumentSlots | src/compiler/ir/compiler.rs:174-177 | one argument source per call argument |
| FrameCompiler.CanBeNull | src/compiler/ir/compiler.rs:390-393 | panics (no answer) exactly for a non-reference register or a position without statuses, and a register without a recorded status may be null |
| FrameCompiler.InstructionIRCompiler.constructor | src/compiler/ir/compiler.rs:24-37 | a fresh compiler over the given inputs with no instructions |
| FrameCompiler.InstructionIRCompiler.CompileInitializeFunction | src/compiler/ir/compiler.rs:47-66 | appends exactly the reference prologue: entry, frame reservation when not empty, argument copies, zeroing |
| FrameCompiler.InstructionIRCompiler.CompileZeroing | src/compiler/ir/compiler.rs:57-65 | appends the zeroing code: one zeroing of the register, then its store into each listed slot, nothing when the list is empty |
| FrameCompiler.InstructionIRCompiler.CompileArithmetic | src/compiler/ir/compiler.rs:86-159 | appends the reference code of a two-register or constant-operand instruction |
| FrameCompiler.InstructionIRCompiler.CompileValueMove | src/compiler/ir/compiler.rs:72-85 | appends the reference code of a constant, copy, argument load or null load (also lines 190-199 of the same file) |
| FrameCompiler.InstructionIRCompiler.CompileReturn | src/compiler/ir/compiler.rs:160-170 | appends the return-value move, when there is a value, then the return |
| FrameCompiler.InstructionIRCompiler.CompileCall | src/compiler/ir/compiler.rs:171-189 | fails exactly when the callee is unbound, and otherwise appends the reference call code |
| FrameCompiler.InstructionIRCompiler.ArgumentSources | src/compiler/ir/compiler.rs:174-177 | the argument sources are the arguments' slots, in order |
| FrameCompiler.InstructionIRCompiler.CanBeNullAt | src/compiler/ir/compiler.rs:390-393 | the answer of the reference null-status lookup, including its panics |
| FrameCompiler.InstructionIRCompiler.CompileNullCheck | src/compiler/ir/compiler.rs:212-214 | appends a null check exactly when the reference may be null |
| FrameCompiler.InstructionIRCompiler.CompileAllocation | src/compiler/ir/compiler.rs:200-207 | appends the reference code of an array or object allocation (also lines 266-272 of the same file) |
| FrameCompiler.InstructionIRCompiler.CompileArrayCode | src/compiler/ir/compiler.rs:208-265 | appends the reference code of an element load, element store or length load for the given null status |
| FrameCompiler.InstructionIRCompiler.CompileFieldCode | src/compiler/ir/compiler.rs:273-322 | appends the reference code of a field load or store for the given layout and null status |
| FrameCompiler.InstructionIRCompiler.CompileHeap | src/compiler/ir/compiler.rs:200-322 | fails exactly when a field is unknown or a null status cannot be read, and otherwise appends the reference heap code |
| FrameCompiler.InstructionIRCompiler.CompileCompareOperands | src/compiler/ir/compiler.rs:335-359 | appends the operand loads and compare of the operands' class and reports whether the condition is signed |
| FrameCompiler.InstructionIRCompiler.CompileControl | src/compiler/ir/compiler.rs:323-386 | fails exactly for a comparison of `Void`, and otherwise appends the reference code of a runtime call, label, branch or compare |
| FrameCompiler.InstructionIRCompiler.CompileBody | src/compiler/ir/compiler.rs:71-387 | succeeds exactly when the reference body exists, and then appends it |
| FrameCompiler.InstructionIRCompiler.CompileInstruction | src/compiler/ir/compiler.rs:68-388 | succeeds exactly when the instruction does not panic, and then appends its marker and its code |
| FrameCompiler.InstructionIRCompiler.Compile | src/compiler/ir/compiler.rs:39-45 | succeeds exactly when no instruction panics, and then the code is the prologue followed by every instruction's code |
| FrameCompiler.InstructionIRCompiler.CompileInstructions | src/compiler/ir/compiler.rs:42-44 | the loop appends every instruction's code in order, or reports the panic of the whole compilation |
| FrameCompiler.InstructionIRCompiler.CompileNext | src/compiler/ir/compiler.rs:42-44 | one loop turn extends the prefix's code by the next instruction, or its panic leaves the whole function without code |
| FrameCompiler.InstructionIRCompiler.Done | src/compiler/ir/compiler.rs:399-401 | hands back the instruction list built |
| FrameCompiler.CodeGrows | src/compiler/ir/compiler.rs:42-44 | the code of one more instruction extends the prefix's code |
| FrameCompiler.CodeStopsAtPanic | src/compiler/ir/compiler.rs:42-44 | a panic at one instruction leaves every longer prefix without code |
| FrameCompiler.CompileFunction | src/compiler/ir/compiler.rs:24-45 | a fresh compiler's code is the reference compiled function, `None` exactly when it panics (also lines 399-401 of the same file) |
| FrameCompiler.ZeroStoresAt | src/compiler/ir/compiler.rs:58-63 | the `k`-th zeroing store writes the zeroed register into the `k`-th listed register's slot |
| FrameCompiler.ZeroingShape | src/compiler/ir/compiler.rs:57-65 | the zeroing is empty when no register needs it, and otherwise starts by zeroing the register once and then stores into each slot in order |
| FrameCompiler.PrologueReserves | src/compiler/ir/compiler.rs:48-53 | the prologue enters the function first and reserves the frame exactly when it is not empty, right after the entry and nowhere else |
| FrameCompiler.NoReserveAppend | src/compiler/ir/compiler.rs:48-55 | concatenating code that never reserves the frame never reserves it |
| FrameCompiler.PrologueEndsZeroing | src/compiler/ir/compiler.rs:55-65 | after the argument copies the prologue ends with zeroing the spill register once and storing it into each listed slot in order |
| FrameCompiler.ArgumentsNeverReserve | src/compiler/ir/compiler.rs:55 | the argument copies never reserve the frame |
| FrameCompiler.ZeroStoresZero | src/compiler/ir/compiler.rs:58-63 | with the zeroed register holding 0, the stores write 0 into every listed slot and change no other slot, register or the operand stack |
| FrameCompiler.ZeroingZeroes | src/compiler/ir/compiler.rs:57-65 | running the zeroing leaves 0 in every listed slot, changes no other slot, and the only register it changes is the zeroed one |
| FrameCompiler.RunWithFour | src/compiler/ir/compiler.rs:86-91 | running four instructions is running each in turn |
| FrameCompiler.BinaryComputes | src/compiler/ir/compiler.rs:86-159 | a two-register operation leaves its result on the two operand slots in the destination's slot and no other slot or the operand stack changes |
| FrameCompiler.LoadOperands | src/compiler/ir/compiler.rs:87-88 | the two operand loads put the two slots' values into the first two registers of the class |
| FrameCompiler.OperateAndStore | src/compiler/ir/compiler.rs:89-90 | the operation combines the first two registers into the first and the store writes it into the slot |
| FrameCompiler.ConstantComputes | src/compiler/ir/compiler.rs:92-96 | a constant-operand operation leaves its result on the operand's slot and the constant in the destination's slot and changes no other slot (also lines 103-107, lines 144-148, lines 155-159 of the same file) |
| FrameCompiler.ValueMoveStores | src/compiler/ir/compiler.rs:72-85 | a constant, copy or argument load writes its value (null as 0, a Boolean as 1 or 0, a float as its bits) into the destination's slot only (also lines 190-199 of the same file) |
| FrameCompiler.ReturnMovesValue | src/compiler/ir/compiler.rs:160-170 | a return moves its value from the slot into the return register of its class, changing nothing else, unless the function is void, and then returns |
| FrameCompiler.ArgumentSlotsAt | src/compiler/ir/compiler.rs:174-177 | the call reads its `k`-th argument from the `k`-th argument register's slot |
| FrameCompiler.CallShape | src/compiler/ir/compiler.rs:171-189 | a call panics exactly when the callee is unbound; otherwise it is the call with each argument from its slot, then the result's move into its slot when kept |
| FrameCompiler.NullCheckIffMayBeNull | src/compiler/ir/compiler.rs:208-322 | a dereference panics exactly when the register is not a reference, the position has no statuses or the field is unknown, and otherwise checks for null exactly when it may be null (also lines 390-393 of the same file) |
| FrameCompiler.ElementAccessGuarded | src/compiler/ir/compiler.rs:208-252 | an element access comes right after the bounds check of the reference and index, and before that the null check exactly when the reference may be null |
| FrameCompiler.ArrayCodeGuarded | src/compiler/ir/compiler.rs:208-252 | the same guard for the element code of either null status |
| FrameCompiler.ComparisonSignedness | src/compiler/ir/compiler.rs:335-386 | a comparison of `Void` panics; otherwise it compares the float registers for `Float32` and the integer ones else, signed exactly when not float |
| FrameCompiler.InstructionCompilesUnlessPanic | src/compiler/ir/compiler.rs:68-388 | an instruction compiles exactly when none of its panics applies, and its code then starts with its marker |
| FrameCompiler.CompilesIffEachCompiles | src/compiler/ir/compiler.rs:42-44 | a prefix compiles exactly when each of its instructions compiles |
| FrameCompiler.CompilesUnlessSomePanic | src/compiler/ir/compiler.rs:39-45 | a function compiles exactly when none of its instructions panics at its position |
| AllocatedCompiler.HardwareOf | src/compiler/ir/allocated_compiler.rs:131 | a register has a hardware register exactly when the allocation puts it in one |
| AllocatedCompiler.AliveHardwareAt | src/compiler/ir/helpers.rs:14-22 | the hardware registers of the alive registers, one for one and in the allocation's order |
| AllocatedCompiler.TryRemoveTemp | src/compiler/ir/helpers.rs:424-428 | an operand's own hardware register leaves the pool; nothing else does and nothing is pushed |
| AllocatedCompiler.GetTemp | src/compiler/ir/helpers.rs:430-437 | an operand in a hardware register gets it and borrows nothing; otherwise the largest free temporary, which leaves the pool; it panics only when the pool is exhausted for a stack operand (also src/compiler/ir/allocated_compiler.rs:439) |
| AllocatedCompiler.PopTemps | src/compiler/ir/allocated_compiler.rs:462 | one pop per pushed temporary, the last pushed first |
| AllocatedCompiler.ArgumentSources | src/compiler/ir/allocated_compiler.rs:816-843 | one argument source per argument |
| AllocatedCompiler.Codes | src/compiler/ir/allocated_compiler.rs:57-63 | the code of every instruction at its own position |
| AllocatedCompiler.NeedsSpillStep | src/compiler/ir/allocated_compiler.rs:91-123 | a spill register is needed by a list exactly when its head or its tail needs it |
| AllocatedCompiler.SpillZeroedOnce | src/compiler/ir/allocated_compiler.rs:88-123 | each spill register is zeroed at most once, and exactly once when it did not already hold zero and some used register of the list is of its class |
| AllocatedCompiler.ZeroingStep | src/compiler/ir/allocated_compiler.rs:92-121 | zeroing one register leaves zero in its location and in its spill register, and changes nothing except to zero |
| AllocatedCompiler.WriteZeroOnlyZeroes | src/compiler/ir/allocated_compiler.rs:105-108 | writing zero to a register or slot changes nothing except to zero |
| AllocatedCompiler.ZeroIntoZeroes | src/compiler/ir/allocated_compiler.rs:105-109 | the move or store of the zeroed spill register leaves zero in the register's location and changes nothing except to zero (also lines 116-120 of the same file) |
| AllocatedCompiler.OnlyZeroedTrans | src/compiler/ir/allocated_compiler.rs:91-123 | changing only to zero is preserved across consecutive steps |
| AllocatedCompiler.ZeroingZeroes | src/compiler/ir/allocated_compiler.rs:87-123 | the zeroing leaves zero in the location of every listed register the allocation uses and changes nothing except to zero |
| AllocatedCompiler.OneTemp | src/compiler/ir/allocated_compiler.rs:531-535 | an instruction with one register operand always gets a register for it |
| AllocatedCompiler.TwoTemps | src/compiler/ir/allocated_compiler.rs:466-472 | with two operands both get registers, and a temporary lent to one is neither the other's hardware register nor the one lent to it |
| AllocatedCompiler.ThreeTemps | src/compiler/ir/allocated_compiler.rs:506-514 | with three operands all get registers, and no lent temporary coincides with another operand's register |
| AllocatedCompiler.CompareTemp | src/compiler/ir/allocated_compiler.rs:743-760 | a compare always gets a register for its destination, and a lent one is neither operand's hardware register |
| AllocatedCompiler.NoSaveWithoutAliveTemps | src/compiler/ir/helpers.rs:42-60 | a borrowed temporary is pushed only if it is alive: when no alive register is a temporary none is pushed (also src/compiler/ir/allocated_compiler.rs:439) |
| AllocatedCompiler.ClaimedIff | src/compiler/ir/allocated_compiler.rs:836-838 | a machine register is claimed from an index on exactly when a later argument is passed in it |
| AllocatedCompiler.ArgumentSourceIff | src/compiler/ir/allocated_compiler.rs:820-834 | an argument is read from its hardware register exactly when it has one and no later argument's call register overwrites it; otherwise from its slot |
| AllocatedCompiler.SavingPanics | src/compiler/ir/allocated_compiler.rs:238-247 | a saving instruction panics exactly when its callee is unbound or its instance is missing or of unknown null status (also lines 388-413, lines 433-465, lines 557-582, lines 647-685 of the same file) |
| AllocatedCompiler.CallInstancePanics | src/compiler/ir/allocated_compiler.rs:647-653 | an instance call panics exactly when the callee is unbound, there is no instance argument, or its null status is unknown (also lines 845-848 of the same file) |
| AllocatedCompiler.AccessPanics | src/compiler/ir/allocated_compiler.rs:466-646 | a heap access or control instruction panics exactly on a missing field, an unknown null status or a comparison of `Void` (also lines 686-808 of the same file) |
| AllocatedCompiler.ComputationNeverPanics | src/compiler/ir/allocated_compiler.rs:130-373 | constants, moves and arithmetic never hit any of the panics (also lines 414-432 of the same file) |
| AllocatedCompiler.BodyPanics | src/compiler/ir/allocated_compiler.rs:129-808 | an instruction's body is missing exactly when one of the listed panics applies |
| AllocatedCompiler.InstructionCompilesUnlessPanic | src/compiler/ir/allocated_compiler.rs:126-808 | an instruction compiles exactly when it does not panic, and its code then starts with its marker |
| AllocatedCompiler.JoinedGrows | src/compiler/ir/allocated_compiler.rs:59-62 | one more instruction's code extends the code of the prefix |
| AllocatedCompiler.JoinedStopsAtNone | src/compiler/ir/allocated_compiler.rs:59-62 | a panic at one instruction leaves every longer prefix without code |
| AllocatedCompiler.JoinedIffEach | src/compiler/ir/allocated_compiler.rs:59-62 | a prefix has code exactly when each of its instructions does |
| AllocatedCompiler.CompilesUnlessSomePanic | src/compiler/ir/allocated_compiler.rs:57-63 | a function compiles exactly when none of its instructions panics at its position |
| AllocatedCompiler.ArithmeticCodeComputes | src/compiler/ir/helpers.rs:119-391 | the binary code leaves the operation's result on the operands' values in the destination's location and changes nothing but the spill register |
| AllocatedCompiler.ArithmeticComputes | src/compiler/ir/allocated_compiler.rs:167-237 | a two-register arithmetic or logic instruction leaves its result in the destination, wherever each register lives, changing nothing but the class's spill register (also lines 248-305, lines 322-373 of the same file) |
| AllocatedCompiler.ConstantComputes | src/compiler/ir/allocated_compiler.rs:183-195 | a constant-operand instruction leaves its result on the operand and the constant in the destination, changing nothing but the integer spill register (also lines 212-224, lines 264-276, lines 293-305 of the same file) |
| AllocatedCompiler.ValueLoadWrites | src/compiler/ir/allocated_compiler.rs:130-166 | a constant, copy, argument or null load puts its value into the destination's location and changes nothing but the integer spill register (also lines 414-432 of the same file) |
| AllocatedCompiler.ConstantLoads | src/compiler/ir/allocated_compiler.rs:130-139 | a constant load writes the constant into the destination's location and nothing else |
| AllocatedCompiler.ArgumentLoads | src/compiler/ir/allocated_compiler.rs:414-422 | an argument load puts the argument's slot value into the destination's location, changing nothing but the integer spill register |
| AllocatedCompiler.Decomposes | src/compiler/ir/helpers.rs:14-40 | code laid out as a save, a middle, a reload and a tail has the saved-around shape |
| AllocatedCompiler.AroundCallSaves | src/compiler/ir/helpers.rs:14-40 | the saved call code pushes every alive register first and pops them last |
| AllocatedCompiler.DivideSaves | src/compiler/ir/allocated_compiler.rs:238-247 | an integer division pushes the alive registers first and reloads them all before the quotient moves to the destination |
| AllocatedCompiler.CallSaves | src/compiler/ir/allocated_compiler.rs:388-413 | a call saves the alive registers first and reloads them last, except the result's hardware register |
| AllocatedCompiler.CallInstanceSaves | src/compiler/ir/allocated_compiler.rs:647-685 | an instance call does the same, with the instance's null check after the save |
| AllocatedCompiler.NewArraySaves | src/compiler/ir/allocated_compiler.rs:433-465 | an array allocation never panics, and saves the alive registers first and reloads them last, except the destination's register |
| AllocatedCompiler.NewObjectSaves | src/compiler/ir/allocated_compiler.rs:557-582 | an object allocation saves and reloads the alive registers the same way |
| AllocatedCompiler.PopTempsNeverCheck | src/compiler/ir/allocated_compiler.rs:462 | popping the temporaries checks nothing for null |
| AllocatedCompiler.BorrowNeverChecks | src/compiler/ir/helpers.rs:430-437 | borrowing a register only saves and loads |
| AllocatedCompiler.LoadElementChecksNull | src/compiler/ir/allocated_compiler.rs:466-505 | an element load checks the array reference for null exactly when it may be null |
| AllocatedCompiler.StoreElementChecksNull | src/compiler/ir/allocated_compiler.rs:506-530 | an element store likewise |
| AllocatedCompiler.LoadArrayLengthChecksNull | src/compiler/ir/allocated_compiler.rs:531-556 | a length load likewise |
| AllocatedCompiler.LoadFieldChecksNull | src/compiler/ir/allocated_compiler.rs:583-622 | a field load checks the object reference for null exactly when it may be null |
| AllocatedCompiler.StoreFieldChecksNull | src/compiler/ir/allocated_compiler.rs:623-646 | a field store likewise |
| AllocatedCompiler.CallInstanceChecksNull | src/compiler/ir/allocated_compiler.rs:651-663 | an instance call checks the instance for null exactly when it may be null |
| AllocatedCompiler.HandleReturnNeverChecks | src/compiler/ir/allocated_compiler.rs:667-677 | taking the result of a call checks nothing for null |
| AllocatedCompiler.PushAliveNeverChecks | src/compiler/ir/helpers.rs:14-22 | saving the alive registers checks nothing for null |
| AllocatedCompiler.PopAliveNeverChecks | src/compiler/ir/helpers.rs:24-40 | reloading the alive registers checks nothing for null |
| AllocatedCompiler.InstructionIRCompiler.constructor | src/compiler/ir/allocated_compiler.rs:36-51 | a fresh compiler over the given inputs with no instructions |
| AllocatedCompiler.InstructionIRCompiler.CompileInitializeFunction | src/compiler/ir/allocated_compiler.rs:77-124 | appends exactly the reference prologue: entry, frame reservation when not empty, argument copies, zeroing |
| AllocatedCompiler.InstructionIRCompiler.CompileZeroing | src/compiler/ir/allocated_compiler.rs:87-123 | appends the reference zeroing with neither spill register zeroed yet |
| AllocatedCompiler.InstructionIRCompiler.CompileCall | src/compiler/ir/allocated_compiler.rs:388-413 | fails exactly when the callee is unbound, and otherwise appends the reference saved call |
| AllocatedCompiler.InstructionIRCompiler.CompileCallInstance | src/compiler/ir/allocated_compiler.rs:647-685 | fails exactly when the reference instance call panics, and otherwise appends its code |
| AllocatedCompiler.InstructionIRCompiler.CompileBody | src/compiler/ir/allocated_compiler.rs:129-808 | succeeds exactly when the reference body exists, and then appends it |
| AllocatedCompiler.InstructionIRCompiler.CompileInstruction | src/compiler/ir/allocated_compiler.rs:126-808 | succeeds exactly when the instruction does not panic, and then appends its marker and its code |
| AllocatedCompiler.InstructionIRCompiler.Compile | src/compiler/ir/allocated_compiler.rs:57-63 | succeeds exactly when no instruction panics, and then the code is the prologue followed by every instruction's code |
| AllocatedCompiler.InstructionIRCompiler.CompileInstructions | src/compiler/ir/allocated_compiler.rs:59-62 | the loop appends every instruction's code in order, or reports the panic of the whole compilation |
| AllocatedCompiler.InstructionIRCompiler.CompileNext | src/compiler/ir/allocated_compiler.rs:59-62 | one loop turn extends the prefix's code by the next instruction, or its panic leaves the whole function without code |
| AllocatedCompiler.InstructionIRCompiler.Done | src/compiler/ir/allocated_compiler.rs:53-55 | hands back the instruction list built |
| AllocatedCompiler.CallArgumentSources | src/compiler/ir/allocated_compiler.rs:816-843 | the loop from the last argument to the first, with the claimed call registers, gives the reference argument sources |
| AllocatedCompiler.CompileCallPart | src/compiler/ir/allocated_compiler.rs:393-405 | appends the call with its argument sources and the move of the result, if kept |
| AllocatedCompiler.SavedAround | src/compiler/ir/helpers.rs:14-40 | the save, middle and reload laid end to end are the reference saved code |
| AllocatedCompiler.CompileFunction | src/compiler/ir/allocated_compiler.rs:36-63 | a fresh compiler's code is the reference compiled function, `None` exactly when it panics |
| AllocatedIrCompiler.RegisterAllocate | src/ir/allocated_ir_compiler.rs:61-71 | the linear scan with two registers per class; with distinct intervals it never panics and hands out only the first two registers of each class |
| AllocatedIrCompiler.BuiltBelow | src/ir/allocated_ir_compiler.rs:67-70 | an allocation built from in-range grants uses hardware registers below the class size |
| AllocatedIrCompiler.BelowTempsLeavesPool | src/ir/allocated_ir_compiler.rs:700-704 | with every allocated register below `Int(3)`, removing an operand's register leaves the temporary pool whole and the allocation never uses a spill register |
| AllocatedIrCompiler.ZeroingAgrees | src/ir/allocated_ir_compiler.rs:83-114 | the zeroing compiles exactly when every listed register is allocated, and then equals the later revision's zeroing |
| AllocatedIrCompiler.ZeroingZeroes | src/ir/allocated_ir_compiler.rs:83-114 | when it compiles, the zeroing leaves zero in every listed register's location and changes nothing except to zero |
| AllocatedIrCompiler.OperatorOf | src/ir/allocated_ir_compiler.rs:148-217 | the in-place operation writes memory exactly for integer addition and subtraction |
| AllocatedIrCompiler.InPlaceBody | src/ir/allocated_ir_compiler.rs:148-217 | an allocated addition or subtraction compiles to the in-place code |
| AllocatedIrCompiler.BranchBody | src/ir/allocated_ir_compiler.rs:442-483 | an allocated conditional branch compiles to this revision's branch code |
| AllocatedIrCompiler.Codes | src/ir/allocated_ir_compiler.rs:53-59 | the code of every instruction at its own position |
| AllocatedIrCompiler.AgreesWithLaterLowering | src/ir/allocated_ir_compiler.rs:118-484 | every instruction other than the in-place arithmetic and the conditional branch is lowered exactly as the later revision lowers the same-named instruction |
| AllocatedIrCompiler.BranchConditionAgrees | src/ir/allocated_ir_compiler.rs:442-483 | a conditional branch compiles exactly for `Int32` and `Float32`, then as the later revision does; on any other non-void type it panics where the later one compiles |
| AllocatedIrCompiler.InPlaceComputes | src/ir/allocated_ir_compiler.rs:148-217 | the in-place code leaves the result in the destination and, when the destination is another register, in the first operand too; nothing else but the spill registers changes (also lines 576-668 of the same file) |
| AllocatedIrCompiler.LaterKeepsFirstOperand | src/ir/allocated_ir_compiler.rs:148-217 | when destination and first operand live apart, the later revision leaves the first operand's value while this revision overwrites it with the result |
| AllocatedIrCompiler.BodyPanics | src/ir/allocated_ir_compiler.rs:118-484 | the body is missing exactly on an unallocated register, an unbound callee, an unknown null status or a branch on another type |
| AllocatedIrCompiler.InstructionCompilesUnlessPanic | src/ir/allocated_ir_compiler.rs:118-484 | an instruction compiles exactly when it does not panic, and its code then starts with its marker |
| AllocatedIrCompiler.CompilesUnlessSomePanic | src/ir/allocated_ir_compiler.rs:53-59 | a function compiles exactly when every listed register is allocated and no instruction panics at its position (also lines 73-116 of the same file) |
| AllocatedIrCompiler.InstructionIRCompiler.constructor | src/ir/allocated_ir_compiler.rs:35-47 | a fresh compiler over the given allocation with no instructions |
| AllocatedIrCompiler.InstructionIRCompiler.CompileInitializeFunction | src/ir/allocated_ir_compiler.rs:73-116 | fails exactly when a listed register is unallocated, and otherwise appends the reference prologue |
| AllocatedIrCompiler.InstructionIRCompiler.CompileZeroing | src/ir/allocated_ir_compiler.rs:83-114 | fails exactly when a listed register is unallocated, and otherwise appends the reference zeroing |
| AllocatedIrCompiler.InstructionIRCompiler.CompileCall | src/ir/allocated_ir_compiler.rs:232-257 | fails exactly when the callee is unbound, and otherwise appends the later revision's saved call |
| AllocatedIrCompiler.InstructionIRCompiler.CompileBody | src/ir/allocated_ir_compiler.rs:121-483 | succeeds exactly when the reference body exists, and then appends it |
| AllocatedIrCompiler.InstructionIRCompiler.CompileShared | src/ir/allocated_ir_compiler.rs:122-147 | the cases shared with the later revision succeed exactly when the reference body exists, and then append it (also lines 218-441 of the same file) |
| AllocatedIrCompiler.InstructionIRCompiler.CompileInstruction | src/ir/allocated_ir_compiler.rs:118-484 | succeeds exactly when the instruction does not panic, and then appends its marker and its code |
| AllocatedIrCompiler.InstructionIRCompiler.Compile | src/ir/allocated_ir_compiler.rs:53-59 | succeeds exactly when nothing panics, and then the code is the prologue followed by every instruction's code |
| AllocatedIrCompiler.InstructionIRCompiler.CompileInstructions | src/ir/allocated_ir_compiler.rs:56-58 | the loop appends every instruction's code in order, or reports the panic of the whole compilation |
| AllocatedIrCompiler.InstructionIRCompiler.CompileNext | src/ir/allocated_ir_compiler.rs:56-58 | one loop turn extends the prefix's code by the next instruction, or its panic leaves the whole function without code |
| AllocatedIrCompiler.InstructionIRCompiler.Done | src/ir/allocated_ir_compiler.rs:49-51 | hands back the instruction list built |
| AllocatedIrCompiler.CompileFunction | src/ir/allocated_ir_compiler.rs:35-59 | the allocation panics exactly when the linear scan does; otherwise the code is the reference compilation with that allocation |
| OlderFrameCompiler.InstructionIRCompiler.constructor | src/ir/ir_compiler.rs:24-37 | a fresh compiler over the given inputs with no instructions |
| OlderFrameCompiler.InstructionIRCompiler.CompileInitializeFunction | src/ir/ir_compiler.rs:47-66 | appends this revision's prologue: entry, frame reservation when not empty, argument copies, zeroing through `Int(0)` |
| OlderFrameCompiler.InstructionIRCompiler.CompileAllocation | src/ir/ir_compiler.rs:147-156 | appends a print of the stack frame at the instruction's position, then the allocation code (also lines 215-223 of the same file) |
| OlderFrameCompiler.InstructionIRCompiler.CompileBranchCondition | src/ir/ir_compiler.rs:283-306 | fails exactly when the operands are neither `Int32` nor `Float32`, and otherwise appends the compare and the branch |
| OlderFrameCompiler.InstructionIRCompiler.CompileBody | src/ir/ir_compiler.rs:71-306 | succeeds exactly when this revision's body exists, and then appends it |
| OlderFrameCompiler.InstructionIRCompiler.CompileInstruction | src/ir/ir_compiler.rs:68-307 | succeeds exactly when the instruction does not panic, and then appends its marker and its code |
| OlderFrameCompiler.InstructionIRCompiler.Compile | src/ir/ir_compiler.rs:39-45 | succeeds exactly when no instruction panics, and then the code is the prologue followed by every instruction's code |
| OlderFrameCompiler.InstructionIRCompiler.CompileInstructions | src/ir/ir_compiler.rs:42-44 | the loop appends every instruction's code in order, or reports the panic of the whole compilation |
| OlderFrameCompiler.InstructionIRCompiler.CompileNext | src/ir/ir_compiler.rs:42-44 | one loop turn extends the prefix's code by the next instruction, or its panic leaves the whole function without code |
| OlderFrameCompiler.InstructionIRCompiler.Done | src/ir/ir_compiler.rs:318-320 | hands back the instruction list built |
| OlderFrameCompiler.CodeStopsAtPanic | src/ir/ir_compiler.rs:42-44 | a panic at one instruction leaves every longer prefix without code |
| OlderFrameCompiler.CompileFunction | src/ir/ir_compiler.rs:24-45 | a fresh compiler's code is this revision's compiled function, `None` exactly when it panics (also lines 318-320 of the same file) |
| OlderFrameCompiler.ZeroingThroughFirstRegister | src/ir/ir_compiler.rs:57-65 | this revision's zeroing leaves 0 in every listed slot, changes no other slot, and of the registers changes only `Int(0)`, to 0 |
| OlderFrameCompiler.PrologueAgreesUpToZeroRegister | src/ir/ir_compiler.rs:47-66 | the prologue shares the entry, reservation and argument copies with the newer one and differs only in the register it zeroes through |
| OlderFrameCompiler.AgreesWithNewerLowering | src/ir/ir_compiler.rs:71-306 | whatever this revision compiles the newer one compiles to the same code, except the stack-frame print before an allocation; the newer one accepts nothing of this subset that this one rejects except branches on other non-void types |
| OlderFrameCompiler.BranchConditionSignedness | src/ir/ir_compiler.rs:283-306 | a conditional branch compiles exactly for `Int32` and `Float32`, loading the operands into their class's first two registers, signed exactly for `Int32` |
| OlderFrameCompiler.InstructionCompilesUnlessPanic | src/ir/ir_compiler.rs:68-307 | an instruction compiles exactly when it does not panic, and its code then starts with its marker |
| OlderFrameCompiler.CompilesIffEachCompiles | src/ir/ir_compiler.rs:42-44 | a prefix compiles exactly when each of its instructions compiles |
| OlderFrameCompiler.CompilesUnlessSomePanic | src/ir/ir_compiler.rs:39-45 | a function compiles exactly when none of its instructions panics at its position |
| OldestCompiler.InstructionIRCompiler.constructor | src/ir/compiler.rs:18-25 | a fresh compiler over the given binder, function and conventions with no code |
| OldestCompiler.InstructionIRCompiler.Push | src/ir/compiler.rs:64 | appends exactly one instruction at the end of the code |
| OldestCompiler.InstructionIRCompiler.PushAll | src/ir/compiler.rs:35-57 | appends the given code at the end, in order |
| OldestCompiler.InstructionIRCompiler.CompileInitializeFunction | src/ir/compiler.rs:35-57 | appends the later compiler's prologue: the frame rounded up to 16 bytes, the argument moves, the zeroed locals |
| OldestCompiler.InstructionIRCompiler.CompileArithmetic | src/ir/compiler.rs:80-113 | fails exactly when the first operand type is missing or not a number, and otherwise appends the reference code |
| OldestCompiler.InstructionIRCompiler.CompileCall | src/ir/compiler.rs:114-118 | fails exactly when the signature is unbound, and otherwise appends the call and the result handling |
| OldestCompiler.InstructionIRCompiler.CompileBody | src/ir/compiler.rs:62-128 | succeeds exactly when the reference body exists, and then appends it |
| OldestCompiler.InstructionIRCompiler.CompileInstruction | src/ir/compiler.rs:59-129 | succeeds exactly when the instruction does not panic, and then appends its marker and its code |
| OldestCompiler.InstructionIRCompiler.Compile | src/ir/compiler.rs:27-33 | succeeds exactly when no instruction panics, and then the code is the prologue followed by every instruction's code |
| OldestCompiler.InstructionIRCompiler.CompileInstructions | src/ir/compiler.rs:30-32 | the loop appends every instruction's code in order, or reports the panic of the whole compilation |
| OldestCompiler.InstructionIRCompiler.CompileNext | src/ir/compiler.rs:30-32 | one loop turn extends the prefix's code by the next instruction, or its panic leaves the whole function without code |
| OldestCompiler.InstructionIRCompiler.Done | src/ir/compiler.rs:131-133 | hands back the instruction list built |
| OldestCompiler.CodeGrows | src/ir/compiler.rs:30-32 | the code of one more instruction extends the prefix's code |
| OldestCompiler.CodeStopsAtPanic | src/ir/compiler.rs:30-32 | a panic at one instruction leaves every longer prefix without code |
| OldestCompiler.CompileFunction | src/ir/compiler.rs:18-33 | a fresh compiler's code is the reference compiled function, `None` exactly when it panics (also lines 131-133 of the same file) |
| OldestCompiler.AgreesWithLowCompiler | src/ir/compiler.rs:59-129 | where an instruction of this revision has operand types and is no branch target, the later compiler emits exactly the same code |
| OldestCompiler.InstructionCompilesUnlessPanic | src/ir/compiler.rs:59-129 | an instruction compiles exactly when it does not panic, and its code then starts with its marker |
| OldestCompiler.CompilesIffEachCompiles | src/ir/compiler.rs:30-32 | a prefix compiles exactly when each of its instructions compiles |
| OldestCompiler.CompilesUnlessSomePanic | src/ir/compiler.rs:27-33 | a function compiles exactly when none of its instructions panics at its index |
| OldestCompiler.ArithmeticOnStack | src/ir/compiler.rs:80-113 | with the operand stack ending in `a` under `b`, an addition or subtraction leaves the 32-bit wrapped result for `Int32` and the float result for `Float32` in their place |
| OldestCompiler.LocalsOnStack | src/ir/compiler.rs:70-79 | loading a local pushes its slot's value; storing one pops the top into its slot |
| OldestCompiler.ArgumentOnStack | src/ir/compiler.rs:119-123 | loading an argument pushes its slot's value and changes no slot |
| OldestCompiler.ConstantsOnStack | src/ir/compiler.rs:63-69 | a constant pushes its value, a float as its bit pattern |
| StackLayout.AlignSize | src/ir/compiler.rs:40 | the frame size rounded up to a multiple of 16, less than 16 above the size, and zero only for an empty frame |
| Scalars.ReinterpretRoundTrip | src/ir/compiler.rs:67 | reinterpreting a 32-bit pattern between signed and unsigned loses nothing in either direction (also src/compiler/ir/allocated_compiler.rs:141) |
| Scalars.WrapI32 | src/ir/compiler.rs:85 | the 32-bit two's-complement result is congruent to the exact value modulo 2^32 and equals it when it is in range |
| LivenessExamples.ReadInterval | src/analysis/liveness.rs:73-87 | the interval of a read register that is no reference-typed local runs exactly from the least to the greatest index the walks from its reads mark |
| LivenessExamples.SummaryPinned | src/analysis/liveness.rs:73-87 | an alive set whose least and greatest members are known has exactly that interval |
| LivenessExamples.WrittenInterval | src/analysis/liveness.rs:54-67 | the interval of a register that is only written and is no reference-typed local runs exactly from its first write to its last |
| LivenessExamples.IntervalsPinned | src/analysis/liveness.rs:22-71 | intervals of the right registers that each summarise their register's alive set are the expected ones, when each expected interval is pinned |
| LivenessExamples.Numbered | src/analysis/liveness.rs:89-110 | the registers numbered 0 to n - 1, in order |
| LivenessExamples.NumberedMembers | src/analysis/liveness.rs:89-110 | a register is among the first n numbered ones iff its number is below n |
| LivenessExamples.PinnedLiveness | src/analysis/liveness.rs:22-71 | on a context whose mentioned registers are those numbered below n and whose expected intervals are each pinned, the analysis returns exactly the expected intervals |
| LivenessExamples.MarksInCode | src/analysis/liveness.rs:146-158 | every index a register's walks mark is an instruction index |
| LivenessExamples.ReachesNothing | src/analysis/liveness.rs:160-176 | a scan that kills, or a block without predecessors, reaches no other block |
| LivenessExamples.KillRightBefore | src/analysis/liveness.rs:146-155 | a read right after a write of the same register stops the scan at that write |
| LivenessExamples.InOrder | src/analysis/liveness.rs:107-109 | two repeat-free sequences of the same registers, both in ascending number order, are equal |
| LivenessExamples.EmptyAlike | src/analysis/liveness.rs:107-109 | two sequences of the same registers are empty together |
| LivenessExamples.FirstInOrder | src/analysis/liveness.rs:107-109 | two ordered sequences of the same registers start with the same register and have the same members after it |
| LivenessExamples.RegistersInOrder | src/analysis/liveness.rs:22-71 | the analysis's intervals are for exactly the mentioned registers in ascending number order |
| LivenessExamples.Registers | src/analysis/liveness.rs:22-71 | the registers of a sequence of intervals, in order |
| LivenessExamples.ChainValid | src/analysis/liveness.rs:217-238 | the MIR of the first test is a valid single-block context whose indices are contiguous |
| LivenessExamples.ChainMentioned | src/analysis/liveness.rs:217-238 | the first test's code mentions exactly registers 0 and 1 |
| LivenessExamples.ChainSiteRegister | src/analysis/liveness.rs:217-238 | every read and write in the first test's code is of register 0 or 1 |
| LivenessExamples.ChainAccumulatorMarks | src/analysis/liveness.rs:256-258 | the walks of register 0 in the first test mark index 0 and index 9 and nothing after 9 |
| LivenessExamples.ChainAccumulatorFirst | src/analysis/liveness.rs:257 | the walks of register 0 in the first test mark index 0 |
| LivenessExamples.ChainAccumulatorLast | src/analysis/liveness.rs:258 | the walks of register 0 in the first test mark index 9 |
| LivenessExamples.ChainOperandMarks | src/analysis/liveness.rs:260-262 | the walks of register 1 in the first test mark indices 1 and 8 and nothing outside them |
| LivenessExamples.ChainOperandFirst | src/analysis/liveness.rs:261 | the walks of register 1 in the first test mark index 1 |
| LivenessExamples.ChainOperandLast | src/analysis/liveness.rs:262 | the walks of register 1 in the first test mark index 8 |
| LivenessExamples.ChainOperandMark | src/analysis/liveness.rs:260-262 | every index the walks of register 1 mark in the first test lies from 1 to 8 |
| LivenessExamples.ChainOperandReads | src/analysis/liveness.rs:217-238 | every read of register 1 in the first test comes right after a write of it |
| LivenessExamples.ChainPin | src/analysis/liveness.rs:256-262 | each expected interval of the first test is pinned by its register's marks |
| LivenessExamples.ChainLiveness | src/analysis/liveness.rs:254-262 | the analysis of the first test returns exactly two intervals: register 0 from 0 to 9 and register 1 from 1 to 8 |
| LivenessExamples.ChainPinned | src/analysis/liveness.rs:254-262 | the first test's context meets the conditions under which its expected intervals are the analysis's result |
| LivenessExamples.ChainRegisters | src/analysis/liveness.rs:254-260 | the first test's mentioned registers are those numbered below 2 |
| LivenessExamples.ChainPins | src/analysis/liveness.rs:256-262 | every expected interval of the first test is pinned |
| LivenessExamples.StoredValid | src/analysis/liveness.rs:277-293 | the MIR of the second test is a valid single-block context whose indices are contiguous |
| LivenessExamples.StoredMentioned | src/analysis/liveness.rs:277-293 | the second test's code mentions exactly registers 0, 1 and 2 |
| LivenessExamples.StoredSiteRegister | src/analysis/liveness.rs:277-293 | every read and write in the second test's code is of register 0, 1 or 2 |
| LivenessExamples.StoredLocalWrites | src/analysis/liveness.rs:308-310 | register 0, the local, is never read in the second test and is written only at index 3 |
| LivenessExamples.StoredLocalSite | src/analysis/liveness.rs:277-293 | no instruction of the second test reads the local, and the only one writing it is at index 3 |
| LivenessExamples.StoredSumMarks | src/analysis/liveness.rs:312-314 | the walks of register 1 in the second test mark indices 0 and 5 and nothing after 5 |
| LivenessExamples.StoredSumFirst | src/analysis/liveness.rs:313 | the walks of register 1 in the second test mark index 0 |
| LivenessExamples.StoredSumLast | src/analysis/liveness.rs:314 | the walks of register 1 in the second test mark index 5 |
| LivenessExamples.StoredOperandMarks | src/analysis/liveness.rs:316-318 | the walks of register 2 in the second test mark indices 1 and 2 and nothing outside them |
| LivenessExamples.StoredOperandMark | src/analysis/liveness.rs:316-318 | every index the walks of register 2 mark in the second test lies from 1 to 2 |
| LivenessExamples.StoredReads | src/analysis/liveness.rs:277-293 | the reads of the second test: register 1 at offsets 2, 3 and 5, register 2 at offset 2 |
| LivenessExamples.StoredPin | src/analysis/liveness.rs:308-318 | each expected interval of the second test is pinned by its register's marks or writes |
| LivenessExamples.StoredLiveness | src/analysis/liveness.rs:306-318 | the analysis of the second test returns exactly three intervals: register 0 from 3 to 3, register 1 from 0 to 5 and register 2 from 1 to 2 |
| LivenessExamples.StoredPinned | src/analysis/liveness.rs:306-318 | the second test's context meets the conditions under which its expected intervals are the analysis's result |
| LivenessExamples.StoredRegisters | src/analysis/liveness.rs:306-316 | the second test's mentioned registers are those numbered below 3 |
| LivenessExamples.StoredPins | src/analysis/liveness.rs:308-318 | every expected interval of the second test is pinned |
| LivenessExamples.BranchesValid | src/analysis/liveness.rs:332-352 | the MIR of the third test is a valid four-block context whose indices are contiguous |
| LivenessExamples.BranchesReads | src/analysis/liveness.rs:332-352 | the reads of the third test: register 0 once in the last block, register 1 in every block, register 2 in the first block |
| LivenessExamples.BranchesWrites | src/analysis/liveness.rs:332-352 | every write of the third test is of register 0, 1 or 2 |
| LivenessExamples.BranchesMentioned | src/analysis/liveness.rs:332-352 | the third test's code mentions exactly registers 0, 1 and 2 |
| LivenessExamples.BranchesLocalMarks | src/analysis/liveness.rs:369-371 | the walks of register 0, the local, in the third test mark indices 4 and 10 and nothing outside them |
| LivenessExamples.BranchesLocalPath | src/analysis/liveness.rs:370 | a kill-free backward path leads from the local's read in the last block to the first branch arm |
| LivenessExamples.BranchesLocalScan | src/analysis/liveness.rs:370 | the scan of the first branch arm marks index 4, its write of the local |
| LivenessExamples.BranchesLocalMark | src/analysis/liveness.rs:369-371 | every index the walks of the local mark in the third test lies from 4 to 10 |
| LivenessExamples.BranchesLocalWalk | src/analysis/liveness.rs:369-371 | every index the walk from the local's read marks lies from 4 to 10 |
| LivenessExamples.BranchesArmsStop | src/analysis/liveness.rs:160-176 | from the local's read the walk reaches only the two branch arms, and each arm's scan stops at its write of the local |
| LivenessExamples.BranchesStackMarks | src/analysis/liveness.rs:373-375 | the walks of register 1 in the third test mark indices 0 and 11 and nothing after 11 |
| LivenessExamples.BranchesStackLast | src/analysis/liveness.rs:375 | the walks of register 1 in the third test mark index 11 |
| LivenessExamples.BranchesStackFirst | src/analysis/liveness.rs:374 | the walks of register 1 in the third test mark index 0 |
| LivenessExamples.BranchesOperandMarks | src/analysis/liveness.rs:377-379 | the walks of register 2 in the third test mark indices 1 and 2 and nothing outside them |
| LivenessExamples.BranchesPin | src/analysis/liveness.rs:369-379 | each expected interval of the third test is pinned by its register's marks |
| LivenessExamples.BranchesLiveness | src/analysis/liveness.rs:367-379 | the analysis of the third test returns exactly three intervals: register 0 from 4 to 10, register 1 from 0 to 11 and register 2 from 1 to 2 |
| LivenessExamples.BranchesPinned | src/analysis/liveness.rs:367-379 | the third test's context meets the conditions under which its expected intervals are the analysis's result |
| LivenessExamples.BranchesRegisters | src/analysis/liveness.rs:367-377 | the third test's mentioned registers are those numbered below 3 |
| LivenessExamples.BranchesPins | src/analysis/liveness.rs:369-379 | every expected interval of the third test is pinned |

## Left out

- Parser.Tokenize: characters are classified as ASCII only. The source's `is_alphabetic`, `is_alphanumeric` and `is_numeric` (src/parser/mod.rs:52, 58, 74, 81 and 109) accept every Unicode letter and digit. So on `función` the source reads one identifier, and the model ends the word at `ó`, then splits or rejects the rest. Dafny has no Unicode character tables.
- Parser.ScanWord: for the same reason, a word ends at the first character that is not an ASCII letter, digit or underscore. The source's word continues through any Unicode letter or digit.
- Text.ToLower: `to_lowercase` (src/parser/mod.rs:271) lowercases every Unicode letter; the model lowercases only `A` to `Z`. Mnemonics and type names are ASCII, so the two differ only on identifiers with non-ASCII capitals.
- Liveness.ComputeLiveness: models the intended walk. Liveness.ComputeLivenessForRegister starts every read at Liveness.WalkUse, which scans the read's own block again when a back edge returns to it. The walk as written is Liveness.WalkBlock, and Liveness.SelfLoopAsWritten shows what it misses (see Findings).
- Peephole.RewriteInstruction: models the intended rule, `Peephole.CheckedStep`, which drops a pending load once its local is stored to. The rule as written is `Peephole.Step`; `Peephole.LoadLocalRemoval` with the `AsWritten` version runs it, and PeepholeExamples.AddAfterStoreAsWritten shows the stale operand (see Findings).
- Peephole.RemoveLoadLocalForBlock: models the intended pass over one block, built on `Peephole.CheckedStep`; the as-written rule is `Peephole.Step`.
- Peephole.RemoveLoadLocal: models the intended pass over all blocks, built on `Peephole.CheckedStep`; the as-written rule is `Peephole.Step`.
- EarlyMemory.MemoryManager.NewArray: models the intended zeroing. It zeroes only the elements, `EarlyMemory.ZeroedElements`, up to the block's end. The loop as written is EarlyMemory.ZeroedAsWritten, and it writes 4 bytes past the block (see Findings).
- AllocatedIrCompiler.RegisterAllocate: allocates with the `Corrected` linear scan. `LinearScan.Allocate` takes the version as a parameter, and `AsWritten` follows the source's capacity count and victim filter (see Findings).
- Parser.ParseType: the table of type names is not modelled from the source. `parse_type` (src/parser/mod.rs:458-460) calls `TypeId::from_str`, which is not part of this model because no file of the revision defines it. The parser tests (src/parser/mod.rs:462-582) use only `Int`. The model maps `Int` to Int32 and adds `Void`, `Float` and `Bool` for the other types of the model; every other name is `NotDefinedType`.
- Parser.Parser.Parse: follows the source's loop as written (`Parser.ParseFrom`), which skips the token after each function. The corrected loop is the function `Parser.ParseItemsFrom`; no method implements it (see Findings).
- MirCompiler.InstructionMirCompiler.CompileOp: requires that the reference translation succeeds. This applies to every step-by-step method of `MirCompiler.InstructionMirCompiler`, `MidCompiler.InstructionMidCompiler`, `MirCompiler.CompileFunction` and `MidCompiler.CompileFunction`: their requires are `Emit`, `StepAt`, `RunPrefix` or `Compiled` being `Some`.
  - The inputs on which the source panics (an empty operand stack, a missing local, argument or callee, an `unwrap` of a missing entry) are exactly those where the reference function is `None`.
  - On those inputs the in-place code, which would have panicked part way, is not modelled.
  - The lowering compilers instead return a success flag and are modelled on every input.
- Inputs this revision of the repository reads but does not define, taken as parameters:
  - the registers alive at each instruction (`alive_registers_at`);
  - the machine register of each hardware register (`register_mapping::get`);
  - whether the allocation uses a register (`is_used`);
  - the frame size (`stack_size`, `stack_size_mir`);
  - field layouts (`get_field`);
  - the null statuses before each instruction;
  - the calling-convention code of the low-level IR (`LowCompiler.Conventions`).
- The liveness analysis and null-check elision read back edges that the shown control-flow graph does not build.
  - Liveness takes the predecessor map derived from the graph's edges as input.
  - Null-check elision takes each block's back edges as a sequence, in the order the container yields them. The model follows that order, so whichever of a failing predecessor and a not-yet-analysed one comes first decides between the panic and the all-unknown result.
- Floating point:
  - `f32::from_str` (src/parser/mod.rs:99) is a parameter `floatBits`, so `FloatConvertError` never arises in the model.
  - Float arithmetic and comparison are a parameter of the machines.
  - The `transmute` of `f32` bit patterns is `Scalars.ReinterpretRoundTrip` over 32-bit words.
- Integer width: `i32` values are kept in range and wrap where the source wraps (`Scalars.WrapI32`). Sizes and offsets in `usize` are unbounded, so debug-build overflow panics and release-build wrap-around on sizes beyond the address space are not modelled; a negative array length is a `None`.
- Hash maps and sets are maps and sets. Where the source's result depends on a `HashMap` iteration order, the order is a parameter: the allocation order of `alive_registers_at`, the order in which null-check elision visits a block's back edges, and the order in which branch and call sites are patched (the patches are proved independent of it when their sites are disjoint).
- Native code and memory:
  - the `iced_x86` encoding in src/compiler/code_generator.rs is outside the model; its output is the `Jit.Generated` parameter;
  - the hand-emitted trampolines of src/compiler/error_handling.rs are outside the model;
  - `mmap`/`munmap` (src/compiler/allocator.rs) are outside the model; the mapped address is a parameter;
  - the unsafe writes into code memory are a map from addresses to bytes (`Jit.CodeMemory`).
- `compile_ir` and `optimize_ir` in src/compiler/jit.rs only chain the modelled passes across revisions of their types. They are not modelled as one method; each pass they call is.
- The native stack: `StackFrame::parent` and the frame value iterators of src/runtime/stack_walker.rs read raw stack memory. The model walks a sequence of activations instead.
- Object headers are read from an abstract record of the heap's blocks, not from raw pointers, in `ObjectReference::from_ptr` and the heap-objects iterator. src/runtime/array.rs is the array's stored length.
- Diagnostic output is not modelled: the `println!` lines of `collect`, `new_array` and the allocator, `print_graph`, `print_frame`, and `print_allocation`. `analyze` in linear_scan.rs, which only chains the analyses for such printing, is not modelled either.
- These files have no modelled behaviour:
  - src/runtime/runtime_interface.rs, src/vm.rs, src/engine/execution.rs, src/engine.rs and src/main.rs: foreign entry points, thread-local state, environment variables and file input;
  - the test harnesses, which execute native code.
- The value type `TypeId` with its `size` and `is_reference` comes from a later revision than the shown type system. `TypeIds` gives it the obvious meaning: references are 8-byte pointers.
- A later instruction set's variants are used where the compilers of that revision emit them. Their definition/use entries follow the same pattern as the shown table.
- The collector is non-moving mark-and-sweep; no compaction or forwarding is modelled.
- Heaps.Heap.Allocate: the model requires that no zero-size request is made when the buffer is full. In that case `&self.data[self.offset]` (src/runtime/memory/heap.rs:29) indexes past the end and panics, and the model does not include that panic. Every caller asks for at least 4 bytes, so no call in the repository is excluded. The callers ask for an array's 4-byte length field plus its elements (src/runtime/memory/manager.rs:29, src/runtime/memory.rs:24, src/runtime/mod.rs:19) or for an object plus its 9-byte header (src/runtime/memory/manager.rs:48).
- Liveness.ContextOf: the context is built from the def/use table as intended (`AssignVirtualRegister` and `UseVirtualRegisters` of `Mir`, through `Liveness.MirDefUse`), not from the table as written (`Mir.AssignRegisterAsWritten` and `Mir.UseRegistersAsWritten`). The source reads the written table at src/mir/mod.rs:125 and 152. There, `LoadArrayLength(dest, array)` reports `array` as the written register and lists no read. The MIR compiler emits that instruction with a destination other than the array (src/mir/compiler.rs:313). So on every array-length query the source's intervals differ from the model's. The source counts the query as a write of the array rather than a read, and it never sees the destination written. The as-written table and its difference are `Mir.LoadArrayLengthAsWritten` (see Findings).

## Findings

| source | as written | input that shows it | evidently intended | confidence | as-written member | corrected member |
|---|---|---|---|---|---|---|
| src/parser/mod.rs:160-171 | `parse` calls `next()` before every `parse_top_level`, but a parsed function already leaves the cursor on the token after it, so the `func` of a following function is skipped | two functions in a row that each just return (`func a() Int { ret } func b() Int { ret }`) gives `ExpectedFunctionOrClass` | every function in the text is parsed, in order | not executed | ParserProperties.TwoFunctionsRejected | ParserProperties.TwoFunctionsAccepted |
| src/optimization/register_allocation/linear_scan.rs:42-47 | the capacity check `.map(...).count()` counts every active interval whatever its type, and the spill victim (line 137) is filtered by exact type, so `unwrap` panics when the class looks full but no interval of that type is active | one integer and one float register; an `Int32` interval over 0-5, then a `Float32` interval over 1-3 | count and choose the victim within the register class; here each interval gets register 0 of its class | not executed | LinearScanExamples.MixedAsWrittenPanics | LinearScanExamples.MixedCorrectedAllocates |
| src/analysis/liveness.rs:140-176 | the block of a read is marked visited before only its part up to the read is scanned, so a back edge into that block never scans the rest of it | a block that reads the register and then jumps back to its own start: indices 2 and 3 after the read are not marked alive | the value read at the top of a loop is alive through the whole loop body | not executed | Liveness.SelfLoopAsWritten | Liveness.SelfLoopCorrected |
| src/optimization/peephole.rs:38-43 | a store to a local removes only the entry keyed by the local itself, so a pending load of the local's old value survives, and a later addition is rewritten to read the local after the store | `ldloc 0; ldc 1; stloc 0; ldc 2; add; ret` with local 0 holding 0: the rewritten addition gives 3 instead of 2 | a store to a local drops every pending load of that local | not executed | PeepholeExamples.AddAfterStoreReadsStore | PeepholeExamples.AddAfterStoreChecked |
| src/runtime/memory.rs:29-32 | the zeroing loop starts after the 4-byte length field but runs for the whole array size, ending 4 bytes past the block | an `Int32` array of 2097151 elements fills the 8 MiB heap exactly, and the loop writes 4 bytes past the heap buffer | zero only the elements, up to the block's end | not executed | EarlyMemory.FullHeapArrayOverrunsBuffer | EarlyMemory.MemoryManager.NewArray |
| src/ir/mid.rs:87 | the definition/use table reads `LoadArrayLength(_, register)`, so it names the array operand as the written register (line 87) and lists no read register (line 114) | `LoadArrayLength(dest, array)` with `dest != array`: the written register is `array` and nothing is read | `dest` is written and `array` is read | not executed | Mid.LoadArrayLengthAsWritten | Mid.DefUsePartition |
| src/mir/mod.rs:125 | the same in the later table: `LoadArrayLength(_, register)` names the array operand as the written register (line 125) and lists no read register (line 152); every other entry agrees with the intended table (`Mir.AsWrittenElsewhere`) | `LoadArrayLength(dest, array)` with `dest != array`: the written register is `array` and nothing is read | `dest` is written and `array` is read | not executed | Mir.LoadArrayLengthAsWritten | Mir.DefUsePartition |
