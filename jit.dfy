/**
 * The bookkeeping and the fix-ups of the JIT compiler of `src/compiler/jit.rs`.
 *
 * Executable memory is a map from addresses to bytes; a 32-bit displacement is written into it
 * little-endian, as the x86 target stores an `i32`. Compiling a function copies its bytes to
 * freshly allocated code memory, records its compilation data under its signature and binds the
 * signature to the address. Once every function has an address, the calls, the branches and the
 * branches to native code that the code generator left open are patched with their
 * displacements, and each collection of open sites is emptied.
 *
 * A panic of the source (an `unwrap` of a missing entry, the `unimplemented!` absolute call) is a
 * `false` result; the state after it is unconstrained.
 */
module Jit {
  import opened Wrappers
  import opened Scalars
  import opened Program
  import opened StackMachines
  import opened ModelBinder
  import ExecutableAllocators
  import StackWalker

  type Byte = b: int | 0 <= b < 256

  const Modulus: int := 0x1_0000_0000

  /** The byte at `address`; memory never written reads as zero. */
  function ByteAt(bytes: map<int, Byte>, address: int): Byte {
    if address in bytes then bytes[address] else 0
  }

  /** The four bytes of an `i32` as stored in memory, lowest first. */
  function I32Bytes(v: I32): (r: seq<Byte>)
    ensures |r| == 4
  {
    var u := AsU32(v);
    var q0 := u / 256;
    var q1 := q0 / 256;
    [u % 256, q0 % 256, q1 % 256, q1 / 256]
  }

  /** The `i32` that four bytes, lowest first, encode. */
  function DecodeI32(b0: Byte, b1: Byte, b2: Byte, b3: Byte): I32 {
    var u := b0 + 256 * (b1 + 256 * (b2 + 256 * b3));
    assert u < Modulus;
    AsI32(u)
  }

  /** Decoding the stored bytes gives the value back. */
  lemma DecodeEncode(v: I32)
    ensures var b := I32Bytes(v); DecodeI32(b[0], b[1], b[2], b[3]) == v
  {
    var u := AsU32(v);
    var q0 := u / 256;
    var q1 := q0 / 256;
    HornerStep(u);
    HornerStep(q0);
    HornerStep(q1);
    assert u == u % 256 + 256 * (q0 % 256 + 256 * (q1 % 256 + 256 * (q1 / 256)));
    ReinterpretRoundTrip(v, u);
  }

  lemma HornerStep(x: nat)
    ensures x == x % 256 + 256 * (x / 256)
  {
  }

  /** The `i32` stored at `address`. */
  function ReadI32(bytes: map<int, Byte>, address: int): I32 {
    DecodeI32(ByteAt(bytes, address), ByteAt(bytes, address + 1), ByteAt(bytes, address + 2), ByteAt(bytes, address + 3))
  }

  /** `code` copied to memory from `address` on. */
  function WriteBytes(bytes: map<int, Byte>, address: int, code: seq<Byte>): map<int, Byte>
    decreases |code|
  {
    if |code| == 0 then bytes
    else WriteBytes(bytes[address := code[0]], address + 1, code[1..])
  }

  /** After a copy, the copied range holds the code and every other byte is as it was. */
  lemma {:induction false} WriteBytesAt(bytes: map<int, Byte>, address: int, code: seq<Byte>, x: int)
    ensures ByteAt(WriteBytes(bytes, address, code), x) ==
      if address <= x < address + |code| then code[x - address] else ByteAt(bytes, x)
    decreases |code|
  {
    if |code| > 0 {
      WriteBytesAt(bytes[address := code[0]], address + 1, code[1..], x);
    }
  }

  /** An `i32` stored at `address`. */
  function WriteI32(bytes: map<int, Byte>, address: int, v: I32): map<int, Byte> {
    WriteBytes(bytes, address, I32Bytes(v))
  }

  /** Reading back where an `i32` was stored gives it. */
  lemma ReadAfterWrite(bytes: map<int, Byte>, address: int, v: I32)
    ensures ReadI32(WriteI32(bytes, address, v), address) == v
  {
    var b := I32Bytes(v);
    WriteBytesAt(bytes, address, b, address);
    WriteBytesAt(bytes, address, b, address + 1);
    WriteBytesAt(bytes, address, b, address + 2);
    WriteBytesAt(bytes, address, b, address + 3);
    DecodeEncode(v);
  }

  /** Storing an `i32` changes exactly its four bytes. */
  lemma WriteI32Elsewhere(bytes: map<int, Byte>, address: int, v: I32, x: int)
    requires x < address || address + 4 <= x
    ensures ByteAt(WriteI32(bytes, address, v), x) == ByteAt(bytes, x)
  {
    WriteBytesAt(bytes, address, I32Bytes(v), x);
  }

  /** Two four-byte sites that do not overlap. */
  predicate Apart(a: int, b: int) {
    a + 4 <= b || b + 4 <= a
  }

  /** A store leaves an `i32` at a site apart from its own unchanged. */
  lemma ReadAfterWriteElsewhere(bytes: map<int, Byte>, address: int, v: I32, other: int)
    requires Apart(address, other)
    ensures ReadI32(WriteI32(bytes, address, v), other) == ReadI32(bytes, other)
  {
    WriteI32Elsewhere(bytes, address, v, other);
    WriteI32Elsewhere(bytes, address, v, other + 1);
    WriteI32Elsewhere(bytes, address, v, other + 2);
    WriteI32Elsewhere(bytes, address, v, other + 3);
  }

  /** The process's executable memory. */
  class CodeMemory {
    var bytes: map<int, Byte>

    constructor ()
      ensures bytes == map[]
    {
      bytes := map[];
    }

    /** A store of an `i32` through a `*mut i32`. */
    method StoreI32(address: int, v: I32)
      modifies this
      ensures bytes == WriteI32(old(bytes), address, v)
    {
      bytes := WriteI32(bytes, address, v);
    }

    /** `copy_from`: the code bytes copied to `address` on. */
    method CopyFrom(address: int, code: seq<Byte>)
      modifies this
      ensures bytes == WriteBytes(old(bytes), address, code)
    {
      bytes := WriteBytes(bytes, address, code);
    }
  }

  // --- displacements ---------------------------------------------------------------------------

  /**
   * The displacement of a relative call: `call_offset` is where the five-byte call begins, so
   * the call continues at the callee when the displacement is added to the address after it.
   * The subtraction is done on 64 bits and truncated to 32, which keeps it modulo 2^32.
   */
  function CallDisplacement(callee: nat, caller: nat, callOffset: nat): (d: I32)
    ensures (caller + callOffset + 5 + d - callee) % Modulus == 0
    ensures -0x8000_0000 <= callee - (caller + callOffset + 5) < 0x8000_0000 ==> caller + callOffset + 5 + d == callee
  {
    WrapI32(callee - (caller + callOffset + 5))
  }

  /** A relative call's displacement follows its one-byte opcode. */
  function CallSite(caller: nat, callOffset: nat): int {
    caller + callOffset + 1
  }

  /**
   * The displacement of a branch at `source`, `size` bytes long, to the code offset `target`:
   * each operand is truncated to `i32` and the subtraction wraps. The branch continues at the
   * target when the displacement is added to the offset after it.
   */
  function BranchDisplacement(target: nat, source: nat, size: nat): (d: I32)
    ensures (source + size + d - target) % Modulus == 0
    ensures -0x8000_0000 <= target - source - size < 0x8000_0000 && target < 0x8000_0000 && source < 0x8000_0000 && size < 0x8000_0000 ==>
      source + size + d == target
  {
    var d := WrapI32(WrapI32(target) - WrapI32(source) - WrapI32(size));
    WrapsCombine(d, target, source, size);
    d
  }

  /** Truncating each operand to 32 bits does not change a difference modulo 2^32. */
  lemma WrapsCombine(d: I32, target: int, source: int, size: int)
    requires d == WrapI32(WrapI32(target) - WrapI32(source) - WrapI32(size))
    ensures (source + size + d - target) % Modulus == 0
  {
    var t, s, z := WrapI32(target), WrapI32(source), WrapI32(size);
    var kt, ks, kz := (t - target) / Modulus, (s - source) / Modulus, (z - size) / Modulus;
    var kd := (d - (t - s - z)) / Modulus;
    assert t - target == kt * Modulus;
    assert s - source == ks * Modulus;
    assert z - size == kz * Modulus;
    assert d - (t - s - z) == kd * Modulus;
    assert source + size + d - target == (kd + kt - ks - kz) * Modulus;
  }

  /** A branch's displacement is its last four bytes. */
  function BranchSite(source: nat, size: nat): int {
    source + size - 4
  }

  /**
   * The displacement of a six-byte branch at offset `source` of the code at `code` to the native
   * address `target`: the branch continues at the target.
   */
  function NativeDisplacement(code: nat, source: nat, target: nat): (d: I32)
    ensures (code + source + 6 + d - target) % Modulus == 0
    ensures -0x8000_0000 <= target - (code + source) - 6 < 0x8000_0000 ==> code + source + 6 + d == target
  {
    WrapI32(target - (code + source) - 6)
  }

  /** A native branch's displacement is its last four bytes. */
  function NativeSite(source: nat): nat {
    source + 6 - 4
  }

  // --- patches ---------------------------------------------------------------------------------

  /** One fix-up: the displacement and the address it goes to. */
  datatype Patch = Patch(site: int, value: I32)

  /** The sites of distinct fix-ups do not overlap. */
  predicate Disjoint<K>(patches: map<K, Patch>) {
    forall j, k :: j in patches && k in patches && j != k ==> Apart(patches[j].site, patches[k].site)
  }

  /** Every fix-up of `done` can be read back from memory. */
  predicate Applied<K>(bytes: map<int, Byte>, patches: map<K, Patch>, done: set<K>) {
    forall k :: k in done && k in patches ==> ReadI32(bytes, patches[k].site) == patches[k].value
  }

  /** `x` lies in the site of no fix-up of `done`. */
  predicate Outside<K>(patches: map<K, Patch>, done: set<K>, x: int) {
    forall k :: k in done && k in patches ==> !(patches[k].site <= x < patches[k].site + 4)
  }

  /** Applying one more fix-up keeps the ones applied before, when no two sites overlap. */
  lemma ApplyOne<K>(bytes: map<int, Byte>, patches: map<K, Patch>, done: set<K>, next: K)
    requires Disjoint(patches) && next in patches && next !in done
    requires Applied(bytes, patches, done)
    ensures Applied(WriteI32(bytes, patches[next].site, patches[next].value), patches, done + {next})
  {
    var after := WriteI32(bytes, patches[next].site, patches[next].value);
    forall k | k in done + {next} && k in patches
      ensures ReadI32(after, patches[k].site) == patches[k].value
    {
      if k == next {
        ReadAfterWrite(bytes, patches[next].site, patches[next].value);
      } else {
        ReadAfterWriteElsewhere(bytes, patches[next].site, patches[next].value, patches[k].site);
      }
    }
  }

  /** Applying one more fix-up changes no byte outside the sites applied so far. */
  lemma ApplyOneOutside<K>(bytes: map<int, Byte>, before: map<int, Byte>, patches: map<K, Patch>, done: set<K>, next: K)
    requires next in patches
    requires forall x :: Outside(patches, done, x) ==> ByteAt(bytes, x) == ByteAt(before, x)
    ensures forall x :: Outside(patches, done + {next}, x) ==>
      ByteAt(WriteI32(bytes, patches[next].site, patches[next].value), x) == ByteAt(before, x)
  {
    forall x | Outside(patches, done + {next}, x)
      ensures ByteAt(WriteI32(bytes, patches[next].site, patches[next].value), x) == ByteAt(before, x)
    {
      assert Outside(patches, done, x);
      WriteI32Elsewhere(bytes, patches[next].site, patches[next].value, x);
    }
  }

  /**
   * Memory `bytes` part way through a patching loop that started from `before`: the fix-ups of
   * `done` read back when no two sites overlap, and no byte outside their sites has changed.
   */
  ghost predicate Progress<K>(before: map<int, Byte>, bytes: map<int, Byte>, patches: map<K, Patch>, done: set<K>) {
    && (Disjoint(patches) ==> Applied(bytes, patches, done))
    && forall x :: Outside(patches, done, x) ==> ByteAt(bytes, x) == ByteAt(before, x)
  }

  /** One step of a patching loop: both facts it keeps, for the next fix-up. */
  lemma ApplyStep<K>(bytes: map<int, Byte>, before: map<int, Byte>, patches: map<K, Patch>, done: set<K>, next: K)
    requires next in patches && next !in done
    requires Progress(before, bytes, patches, done)
    ensures Progress(before, WriteI32(bytes, patches[next].site, patches[next].value), patches, done + {next})
  {
    if Disjoint(patches) {
      ApplyOne(bytes, patches, done, next);
    }
    ApplyOneOutside(bytes, before, patches, done, next);
  }

  /**
   * The store of one fix-up inside a patching loop: it writes the displacement to its site and
   * keeps both facts the loop maintains.
   */
  method StorePatch<K>(memory: CodeMemory, ghost patches: map<K, Patch>, ghost done: set<K>, ghost next: K, ghost before: map<int, Byte>,
                       site: int, value: I32)
    requires next in patches && next !in done && patches[next] == Patch(site, value)
    requires Progress(before, memory.bytes, patches, done)
    modifies memory
    ensures memory.bytes == WriteI32(old(memory.bytes), site, value)
    ensures Progress(before, memory.bytes, patches, done + {next})
  {
    ApplyStep(memory.bytes, before, patches, done, next);
    memory.StoreI32(site, value);
  }

  /** With every fix-up applied and no two sites overlapping, each reads back, in any order. */
  lemma AllApplied<K>(bytes: map<int, Byte>, patches: map<K, Patch>, k: K)
    requires Applied(bytes, patches, patches.Keys) && k in patches
    ensures ReadI32(bytes, patches[k].site) == patches[k].value
  {
  }

  // --- compilation data --------------------------------------------------------------------------

  /** `FunctionCallType`. */
  datatype CallType = Relative | Absolute

  /** `UnresolvedFunctionCall`: a call starting at `callOffset` of the caller's code. */
  datatype UnresolvedCall = UnresolvedCall(callType: CallType, callOffset: nat, signature: Signature)

  /**
   * What compiling a function's IR and generating its code yield: the code bytes, the open
   * calls, the open branches (source offset to target label and instruction size), the open
   * branches to native code (source offset to native address), where each label landed, and
   * where each instruction starts.
   */
  datatype Generated = Generated(
    code: seq<Byte>,
    calls: seq<UnresolvedCall>,
    branches: map<nat, (nat, nat)>,
    nativeBranches: map<nat, nat>,
    branchTargets: map<nat, nat>,
    offsets: seq<StackWalker.InstructionOffset>)

  /** `FunctionCompilationData` of the revision the JIT compiler uses. */
  class CompilationData {
    var unresolvedFunctionCalls: seq<UnresolvedCall>
    var unresolvedBranches: map<nat, (nat, nat)>
    var unresolvedNativeBranches: map<nat, nat>
    var branchTargets: map<nat, nat>
    var instructionsOffsets: seq<StackWalker.InstructionOffset>

    constructor (g: Generated)
      ensures unresolvedFunctionCalls == g.calls && unresolvedBranches == g.branches
      ensures unresolvedNativeBranches == g.nativeBranches && branchTargets == g.branchTargets
      ensures instructionsOffsets == g.offsets
    {
      unresolvedFunctionCalls := g.calls;
      unresolvedBranches := g.branches;
      unresolvedNativeBranches := g.nativeBranches;
      branchTargets := g.branchTargets;
      instructionsOffsets := g.offsets;
    }

    /** The open sites, as a value. */
    function Open(): (r: OpenSites)
      reads this
      ensures r.calls == unresolvedFunctionCalls && r.branches == unresolvedBranches
      ensures r.natives == unresolvedNativeBranches && r.targets == branchTargets
    {
      OpenSites(unresolvedFunctionCalls, unresolvedBranches, unresolvedNativeBranches, branchTargets)
    }

    /** Nothing is left to patch. */
    predicate Resolved()
      reads this
    {
      unresolvedFunctionCalls == [] && unresolvedBranches == map[] && unresolvedNativeBranches == map[]
    }
  }

  /** A call can be patched: it is relative and its callee is bound to an address. */
  predicate CallResolvable(functions: map<Signature, Declaration>, call: UnresolvedCall) {
    call.callType == Relative && call.signature in functions && functions[call.signature].address.Some?
  }

  /** The fix-ups of the patchable calls of a caller at `caller`, by position in the list. */
  function CallPatches(functions: map<Signature, Declaration>, caller: nat, calls: seq<UnresolvedCall>): map<nat, Patch> {
    map k | 0 <= k < |calls| && CallResolvable(functions, calls[k]) ::
      Patch(CallSite(caller, calls[k].callOffset),
            CallDisplacement(functions[calls[k].signature].address.value, caller, calls[k].callOffset))
  }

  /** The fix-ups of the open branches of the code at `code` whose labels have landed. */
  function BranchPatches(code: nat, branches: map<nat, (nat, nat)>, targets: map<nat, nat>): map<nat, Patch> {
    map source | source in branches && branches[source].0 in targets ::
      Patch(code + BranchSite(source, branches[source].1),
            BranchDisplacement(targets[branches[source].0], source, branches[source].1))
  }

  /** The fix-ups of the open branches to native code of the code at `code`. */
  function NativePatches(code: nat, natives: map<nat, nat>): map<nat, Patch> {
    map source | source in natives :: Patch(code + NativeSite(source), NativeDisplacement(code, source, natives[source]))
  }

  /**
   * Memory after the fix-ups of `patches`, from memory `before`: each reads back from its site
   * when no two sites overlap, and no byte outside the sites has changed.
   */
  ghost predicate PatchedFrom<K>(before: map<int, Byte>, after: map<int, Byte>, patches: map<K, Patch>) {
    Progress(before, after, patches, patches.Keys)
  }

  /** A patching loop that has applied every fix-up has patched memory. */
  lemma ProgressComplete<K>(before: map<int, Byte>, bytes: map<int, Byte>, patches: map<K, Patch>, done: set<K>)
    requires Progress(before, bytes, patches, done) && patches.Keys <= done
    ensures PatchedFrom(before, bytes, patches)
  {
    forall x | Outside(patches, patches.Keys, x)
      ensures Outside(patches, done, x)
    {
    }
  }

  /**
   * The loop of `resolve_calls` for a caller at `address`: each call of the list, in order, gets
   * its displacement. It stops at the first call that is absolute or whose callee is not bound.
   */
  method PatchCalls(binder: Binder, address: nat, calls: seq<UnresolvedCall>, memory: CodeMemory) returns (ok: bool)
    requires binder.Valid()
    modifies memory
    ensures ok <==> forall k :: 0 <= k < |calls| ==> CallResolvable(binder.functions, calls[k])
    ensures ok ==> PatchedFrom(old(memory.bytes), memory.bytes, CallPatches(binder.functions, address, calls))
  {
    ghost var patches := CallPatches(binder.functions, address, calls);
    ghost var start := memory.bytes;
    var i := 0;
    ghost var done: set<nat> := {};
    while i < |calls|
      invariant 0 <= i <= |calls|
      invariant forall k: nat :: k in done <==> k < i
      invariant forall k :: 0 <= k < i ==> CallResolvable(binder.functions, calls[k])
      invariant Progress(start, memory.bytes, patches, done)
    {
      var call := calls[i];
      var callee := binder.Get(call.signature);
      if callee.None? {
        return false;
      }
      match call.callType {
        case Absolute =>
          return false;
        case Relative =>
          if callee.value.address.None? {
            return false;
          }
          var target := CallDisplacement(callee.value.address.value, address, call.callOffset);
          assert i in patches && patches[i] == Patch(CallSite(address, call.callOffset), target);
          StorePatch(memory, patches, done, i, start, CallSite(address, call.callOffset), target);
      }
      done := done + {i};
      i := i + 1;
    }
    assert patches.Keys <= done;
    ProgressComplete(start, memory.bytes, patches, done);
    ok := true;
  }

  /**
   * `resolve_calls`: the calls are patched and the list is emptied. The source panics on a
   * callee not in the binder or without an address, on an absolute call, and on a caller
   * without an address once there is a call.
   */
  method ResolveCalls(binder: Binder, caller: Declaration, data: CompilationData, memory: CodeMemory) returns (ok: bool)
    requires binder.Valid()
    modifies data, memory
    ensures ok <==>
      (old(data.unresolvedFunctionCalls) == [] || caller.address.Some?) &&
      forall k :: 0 <= k < |old(data.unresolvedFunctionCalls)| ==> CallResolvable(binder.functions, old(data.unresolvedFunctionCalls)[k])
    ensures ok ==> data.unresolvedFunctionCalls == []
    ensures data.unresolvedBranches == old(data.unresolvedBranches) && data.unresolvedNativeBranches == old(data.unresolvedNativeBranches)
    ensures data.branchTargets == old(data.branchTargets) && data.instructionsOffsets == old(data.instructionsOffsets)
    ensures ok && caller.address.Some? ==>
      PatchedFrom(old(memory.bytes), memory.bytes, CallPatches(binder.functions, caller.address.value, old(data.unresolvedFunctionCalls)))
  {
    var calls := data.unresolvedFunctionCalls;
    if |calls| > 0 && caller.address.None? {
      return false;
    }
    var address := if caller.address.Some? then caller.address.value else 0;
    ok := PatchCalls(binder, address, calls, memory);
    if ok {
      data.unresolvedFunctionCalls := [];
    }
  }

  /**
   * The loop of `resolve_branches` for code at `address`: each open branch, in the map's order,
   * gets the displacement to where its label landed. It stops at a label that did not land.
   */
  method PatchBranches(address: nat, branches: map<nat, (nat, nat)>, targets: map<nat, nat>, memory: CodeMemory) returns (ok: bool)
    modifies memory
    ensures ok <==> forall source :: source in branches ==> branches[source].0 in targets
    ensures ok ==> PatchedFrom(old(memory.bytes), memory.bytes, BranchPatches(address, branches, targets))
  {
    ghost var patches := BranchPatches(address, branches, targets);
    ghost var start := memory.bytes;
    var todo := branches.Keys;
    ghost var done: set<nat> := {};
    while todo != {}
      invariant todo <= branches.Keys && done == branches.Keys - todo
      invariant forall source :: source in done ==> branches[source].0 in targets
      invariant Progress(start, memory.bytes, patches, done)
      decreases todo
    {
      var source :| source in todo;
      ok := PatchBranch(address, branches, targets, memory, patches, done, start, source);
      if !ok {
        return;
      }
      todo := todo - {source};
      done := done + {source};
    }
    ProgressComplete(start, memory.bytes, patches, done);
    ok := true;
  }

  /** One turn of the loop of `resolve_branches`: the branch at `source`. */
  method PatchBranch(address: nat, branches: map<nat, (nat, nat)>, targets: map<nat, nat>, memory: CodeMemory,
                     ghost patches: map<nat, Patch>, ghost done: set<nat>, ghost start: map<int, Byte>, source: nat)
    returns (ok: bool)
    requires patches == BranchPatches(address, branches, targets)
    requires source in branches && source !in done
    requires Progress(start, memory.bytes, patches, done)
    modifies memory
    ensures ok <==> branches[source].0 in targets
    ensures ok ==> Progress(start, memory.bytes, patches, done + {source})
  {
    var targetLabel, size := branches[source].0, branches[source].1;
    if targetLabel !in targets {
      return false;
    }
    var target := BranchDisplacement(targets[targetLabel], source, size);
    assert source in patches && patches[source] == Patch(address + BranchSite(source, size), target);
    StorePatch(memory, patches, done, source, start, address + BranchSite(source, size), target);
    ok := true;
  }

  /**
   * `resolve_branches`: the open branches are patched and the map is emptied. The source panics
   * on a label that did not land and on a function without an address.
   */
  method ResolveBranches(owner: Declaration, data: CompilationData, memory: CodeMemory) returns (ok: bool)
    modifies data, memory
    ensures ok <==>
      (old(data.unresolvedBranches) == map[] || owner.address.Some?) &&
      forall source :: source in old(data.unresolvedBranches) ==> old(data.unresolvedBranches)[source].0 in data.branchTargets
    ensures ok ==> data.unresolvedBranches == map[]
    ensures data.unresolvedFunctionCalls == old(data.unresolvedFunctionCalls) && data.unresolvedNativeBranches == old(data.unresolvedNativeBranches)
    ensures data.branchTargets == old(data.branchTargets) && data.instructionsOffsets == old(data.instructionsOffsets)
    ensures ok && owner.address.Some? ==>
      PatchedFrom(old(memory.bytes), memory.bytes, BranchPatches(owner.address.value, old(data.unresolvedBranches), data.branchTargets))
  {
    var branches := data.unresolvedBranches;
    if branches != map[] && owner.address.None? {
      return false;
    }
    var address := if owner.address.Some? then owner.address.value else 0;
    ok := PatchBranches(address, branches, data.branchTargets, memory);
    if ok {
      data.unresolvedBranches := map[];
    }
  }

  /** The loop of `resolve_native_branches` for code at `code`: each open branch, in the map's order, gets its displacement. */
  method PatchNativeBranches(code: nat, natives: map<nat, nat>, memory: CodeMemory)
    modifies memory
    ensures PatchedFrom(old(memory.bytes), memory.bytes, NativePatches(code, natives))
  {
    ghost var patches := NativePatches(code, natives);
    ghost var start := memory.bytes;
    var todo := natives.Keys;
    ghost var done: set<nat> := {};
    while todo != {}
      invariant todo <= natives.Keys && done == natives.Keys - todo
      invariant Progress(start, memory.bytes, patches, done)
      decreases todo
    {
      var source :| source in todo;
      var target := NativeDisplacement(code, source, natives[source]);
      assert patches[source] == Patch(code + NativeSite(source), target);
      StorePatch(memory, patches, done, source, start, code + NativeSite(source), target);
      todo := todo - {source};
      done := done + {source};
    }
    ProgressComplete(start, memory.bytes, patches, done);
  }

  /**
   * `resolve_native_branches`: the open branches to native code are patched and the map is
   * emptied. The source panics on a function without an address.
   */
  method ResolveNativeBranches(owner: Declaration, data: CompilationData, memory: CodeMemory) returns (ok: bool)
    modifies data, memory
    ensures ok <==> owner.address.Some?
    ensures ok ==> data.unresolvedNativeBranches == map[]
    ensures data.unresolvedFunctionCalls == old(data.unresolvedFunctionCalls) && data.unresolvedBranches == old(data.unresolvedBranches)
    ensures data.branchTargets == old(data.branchTargets) && data.instructionsOffsets == old(data.instructionsOffsets)
    ensures ok ==> PatchedFrom(old(memory.bytes), memory.bytes, NativePatches(owner.address.value, old(data.unresolvedNativeBranches)))
  {
    if owner.address.None? {
      return false;
    }
    PatchNativeBranches(owner.address.value, data.unresolvedNativeBranches, memory);
    data.unresolvedNativeBranches := map[];
    ok := true;
  }

  // --- what a fix-up means ---------------------------------------------------------------------

  /**
   * A call patched by `resolve_calls` reaches its callee: the displacement read back from the
   * call site, added to the address after the five-byte call, is the callee's address modulo
   * 2^32, and exactly that address when the two are less than 2^31 apart.
   */
  lemma PatchedCallLands(functions: map<Signature, Declaration>, caller: nat, calls: seq<UnresolvedCall>, bytes: map<int, Byte>, k: nat)
    requires k < |calls| && CallResolvable(functions, calls[k])
    requires Applied(bytes, CallPatches(functions, caller, calls), CallPatches(functions, caller, calls).Keys)
    ensures var callee := functions[calls[k].signature].address.value;
      var next := caller + calls[k].callOffset + 5;
      var d := ReadI32(bytes, CallSite(caller, calls[k].callOffset));
      && (next + d - callee) % Modulus == 0
      && (-0x8000_0000 <= callee - next < 0x8000_0000 ==> next + d == callee)
  {
    var patches := CallPatches(functions, caller, calls);
    assert k in patches;
    AllApplied(bytes, patches, k);
  }

  /**
   * A branch patched by `resolve_branches` reaches where its label landed: the displacement read
   * back, added to the offset after the branch, is the target offset modulo 2^32.
   */
  lemma PatchedBranchLands(code: nat, branches: map<nat, (nat, nat)>, targets: map<nat, nat>, bytes: map<int, Byte>, source: nat)
    requires source in branches && branches[source].0 in targets
    requires Applied(bytes, BranchPatches(code, branches, targets), BranchPatches(code, branches, targets).Keys)
    ensures var size := branches[source].1;
      var d := ReadI32(bytes, code + BranchSite(source, size));
      (source + size + d - targets[branches[source].0]) % Modulus == 0
  {
    var patches := BranchPatches(code, branches, targets);
    assert source in patches;
    AllApplied(bytes, patches, source);
  }

  /**
   * A branch to native code patched by `resolve_native_branches` reaches its target: the
   * displacement read back, added to the address after the six-byte branch, is the target
   * modulo 2^32.
   */
  lemma PatchedNativeBranchLands(code: nat, natives: map<nat, nat>, bytes: map<int, Byte>, source: nat)
    requires source in natives
    requires Applied(bytes, NativePatches(code, natives), NativePatches(code, natives).Keys)
    ensures var d := ReadI32(bytes, code + NativeSite(source));
      (code + source + 6 + d - natives[source]) % Modulus == 0
  {
    var patches := NativePatches(code, natives);
    assert source in patches;
    AllApplied(bytes, patches, source);
  }

  // --- the fix-ups of the whole compiler --------------------------------------------------------

  /** A fix-up of the compiler: the call at `index`, or the branch or the native branch at `source`, of the function `owner`. */
  datatype SiteKey = CallKey(owner: Signature, index: nat) | BranchKey(owner: Signature, source: nat) | NativeKey(owner: Signature, source: nat)

  /** What a function's compilation data leaves open: calls, branches, branches to native code, and where the labels landed. */
  datatype OpenSites = OpenSites(calls: seq<UnresolvedCall>, branches: map<nat, (nat, nat)>, natives: map<nat, nat>, targets: map<nat, nat>)

  /** The fix-ups of the open sites `open` of the function `owner`; none when it has no address. */
  function EntryPatches(functions: map<Signature, Declaration>, owner: Signature, open: OpenSites): map<SiteKey, Patch> {
    if owner in functions && functions[owner].address.Some? then
      var code := functions[owner].address.value;
      Tagged(owner, CallPatches(functions, code, open.calls), BranchPatches(code, open.branches, open.targets),
             NativePatches(code, open.natives))
    else map[]
  }

  /** The fix-ups of the calls, the branches and the native branches of `owner`, under their keys. */
  function Tagged(owner: Signature, calls: map<nat, Patch>, branches: map<nat, Patch>, natives: map<nat, Patch>): map<SiteKey, Patch> {
    var keys := (set k | k in calls :: CallKey(owner, k)) + (set source | source in branches :: BranchKey(owner, source))
      + (set source | source in natives :: NativeKey(owner, source));
    map key | key in keys && TaggedIn(key, calls, branches, natives) ::
      match key
      case CallKey(_, k) => calls[k]
      case BranchKey(_, source) => branches[source]
      case NativeKey(_, source) => natives[source]
  }

  /** The key names a fix-up of its own kind. */
  predicate TaggedIn(key: SiteKey, calls: map<nat, Patch>, branches: map<nat, Patch>, natives: map<nat, Patch>) {
    match key
    case CallKey(_, k) => k in calls
    case BranchKey(_, source) => source in branches
    case NativeKey(_, source) => source in natives
  }

  /** The fix-ups of every function of `open`. */
  function AllPatches(functions: map<Signature, Declaration>, open: map<Signature, OpenSites>): map<SiteKey, Patch> {
    var keys := set s, key | s in open && key in EntryPatches(functions, s, open[s]) :: key;
    map key | key in keys && key.owner in open && key in EntryPatches(functions, key.owner, open[key.owner]) ::
      EntryPatches(functions, key.owner, open[key.owner])[key]
  }

  /** The fix-ups of all functions are those of each. */
  lemma AllPatchesOf(functions: map<Signature, Declaration>, open: map<Signature, OpenSites>, key: SiteKey)
    ensures key in AllPatches(functions, open) <==>
      key.owner in open && key in EntryPatches(functions, key.owner, open[key.owner])
    ensures key in AllPatches(functions, open) ==>
      AllPatches(functions, open)[key] == EntryPatches(functions, key.owner, open[key.owner])[key]
  {
    if key.owner in open && key in EntryPatches(functions, key.owner, open[key.owner]) {
      var keys := set s, key | s in open && key in EntryPatches(functions, s, open[s]) :: key;
      assert key in keys;
    }
  }

  /**
   * A later patching step, of fix-ups `part` of `all` not yet applied, extends what the loop has
   * applied so far.
   */
  lemma Compose<K>(a: map<int, Byte>, b: map<int, Byte>, c: map<int, Byte>, all: map<K, Patch>, done: set<K>, part: map<K, Patch>)
    requires Progress(a, b, all, done) && PatchedFrom(b, c, part)
    requires forall k :: k in part ==> k in all && all[k] == part[k]
    ensures Progress(a, c, all, done + part.Keys)
  {
    forall x | Outside(all, done + part.Keys, x)
      ensures ByteAt(c, x) == ByteAt(a, x)
    {
      assert Outside(part, part.Keys, x);
      assert Outside(all, done, x);
    }
    if Disjoint(all) {
      assert Disjoint(part);
      forall j | j in done + part.Keys && j in all
        ensures ReadI32(c, all[j].site) == all[j].value
      {
        if j in part {
          assert Applied(c, part, part.Keys);
        } else {
          ReadKept(b, c, part, all[j].site);
        }
      }
    }
  }

  /** A patching step leaves an `i32` apart from all its sites as it was. */
  lemma ReadKept<K>(b: map<int, Byte>, c: map<int, Byte>, part: map<K, Patch>, site: int)
    requires PatchedFrom(b, c, part)
    requires forall k :: k in part ==> Apart(part[k].site, site)
    ensures ReadI32(c, site) == ReadI32(b, site)
  {
    forall y | site <= y < site + 4
      ensures ByteAt(c, y) == ByteAt(b, y)
    {
      assert Outside(part, part.Keys, y);
    }
    assert ByteAt(c, site + 1) == ByteAt(b, site + 1) && ByteAt(c, site + 2) == ByteAt(b, site + 2);
    assert ByteAt(c, site) == ByteAt(b, site) && ByteAt(c, site + 3) == ByteAt(b, site + 3);
  }

  // --- the compiler ------------------------------------------------------------------------------

  /** Every collection of open sites of `data` can be patched without a panic. */
  predicate EntryResolvable(functions: map<Signature, Declaration>, signature: Signature, data: CompilationData)
    reads data
  {
    OpenResolvable(functions, signature, data.Open())
  }

  /** Every collection of the open sites `open` of the function `signature` can be patched without a panic. */
  predicate OpenResolvable(functions: map<Signature, Declaration>, signature: Signature, open: OpenSites) {
    && (open.calls != [] ==>
          && signature in functions && functions[signature].address.Some?
          && forall k :: 0 <= k < |open.calls| ==> CallResolvable(functions, open.calls[k]))
    && (open.branches != map[] ==>
          && signature in functions && functions[signature].address.Some?
          && forall source :: source in open.branches ==> open.branches[source].0 in open.targets)
    && (open.natives != map[] ==> signature in functions && functions[signature].address.Some?)
  }

  /** `JitCompiler`: the executable-memory allocator and the compilation data of each compiled function. */
  class JitCompiler {
    const memoryAllocator: ExecutableAllocators.ExecutableMemoryAllocator
    var functionsCompilationData: map<Signature, CompilationData>
    /** Every compilation data object ever recorded. */
    ghost var dataObjects: set<CompilationData>

    /** The allocator is consistent and no two functions share their compilation data. */
    ghost predicate Valid()
      reads this, memoryAllocator, set p | p in memoryAllocator.pages
    {
      && memoryAllocator.Valid() && Distinct()
      && forall s :: s in functionsCompilationData ==> functionsCompilationData[s] in dataObjects
    }

    /** No two functions share their compilation data. */
    ghost predicate Distinct()
      reads this
    {
      forall s, t :: s in functionsCompilationData && t in functionsCompilationData && s != t ==>
        functionsCompilationData[s] != functionsCompilationData[t]
    }

    /** `new`: no page and no compiled function. */
    constructor ()
      ensures Valid() && fresh(memoryAllocator) && memoryAllocator.pages == [] && functionsCompilationData == map[]
    {
      memoryAllocator := new ExecutableAllocators.ExecutableMemoryAllocator();
      functionsCompilationData := map[];
      dataObjects := {};
    }

    /** `get_compilation_data`. */
    function GetCompilationData(signature: Signature): (r: Option<CompilationData>)
      reads this
      ensures r.Some? <==> signature in functionsCompilationData
      ensures r.Some? ==> r.value == functionsCompilationData[signature]
    {
      if signature in functionsCompilationData then Some(functionsCompilationData[signature]) else None
    }

    /**
     * Where `allocate` serves a request of `request` bytes: the first page with room, else a
     * fresh page mapped at `mapped`; `None` when the mapping fails.
     */
    ghost function ServedAddress(request: nat, mapped: nat): Option<nat>
      reads this, memoryAllocator, set p | p in memoryAllocator.pages
    {
      var fit := ExecutableAllocators.FirstFit(memoryAllocator.pages, request);
      if fit.Some? then Some(memoryAllocator.pages[fit.value].address + memoryAllocator.pages[fit.value].currentOffset)
      else if mapped != 0 then Some(mapped)
      else None
    }

    /**
     * The allocation and the copy of `compile_function`: the code goes to the address the
     * allocator serves, which then holds it.
     */
    method PlaceCode(memory: CodeMemory, code: seq<Byte>, mapped: nat) returns (pointer: Option<nat>)
      requires Valid()
      modifies memoryAllocator, memory, set p | p in memoryAllocator.pages
      ensures Valid()
      ensures pointer == old(ServedAddress(|code|, mapped))
      ensures pointer.Some? ==> memory.bytes == WriteBytes(old(memory.bytes), pointer.value, code)
      ensures pointer.Some? ==> forall k :: 0 <= k < |code| ==> ByteAt(memory.bytes, pointer.value + k) == code[k]
    {
      pointer := memoryAllocator.Allocate(|code|, mapped);
      if pointer.None? {
        return;
      }
      memory.CopyFrom(pointer.value, code);
      forall k | 0 <= k < |code|
        ensures ByteAt(memory.bytes, pointer.value + k) == code[k]
      {
        WriteBytesAt(old(memory.bytes), pointer.value, code, pointer.value + k);
      }
    }

    /**
     * The bookkeeping of `compile_function`, given what compiling the IR and generating the code
     * yielded: the code is placed, its compilation data is recorded under the signature, and the
     * binder binds the signature to the code's address. The source panics when the mapping
     * fails or the function is not in the binder.
     */
    method CompileFunction(binder: Binder, memory: CodeMemory, declaration: Declaration, generated: Generated, mapped: nat)
      returns (ok: bool)
      requires Valid() && binder.Valid()
      modifies this, memoryAllocator, binder, memory, set p | p in memoryAllocator.pages
      ensures Valid() && binder.Valid()
      ensures ok <==> old(ServedAddress(|generated.code|, mapped)).Some? && declaration.Sig() in old(binder.functions)
      ensures ok ==>
        var address := old(ServedAddress(|generated.code|, mapped)).value;
        && binder.functions == old(binder.functions)[declaration.Sig() := old(binder.functions)[declaration.Sig()].(address := Some(address))]
        && (forall k :: 0 <= k < |generated.code| ==> ByteAt(memory.bytes, address + k) == generated.code[k])
        && memory.bytes == WriteBytes(old(memory.bytes), address, generated.code)
      ensures ok ==> declaration.Sig() in functionsCompilationData
      ensures ok ==>
        var data := functionsCompilationData[declaration.Sig()];
        && fresh(data) && functionsCompilationData == old(functionsCompilationData)[declaration.Sig() := data]
        && data.unresolvedFunctionCalls == generated.calls && data.unresolvedBranches == generated.branches
        && data.unresolvedNativeBranches == generated.nativeBranches && data.branchTargets == generated.branchTargets
        && data.instructionsOffsets == generated.offsets
    {
      var pointer := PlaceCode(memory, generated.code, mapped);
      if pointer.None? {
        return false;
      }
      var data := Record(declaration.Sig(), generated);
      if declaration.Sig() !in binder.functions {
        return false;
      }
      binder.SetAddress(declaration.Sig(), pointer.value);
      ok := true;
    }

    /** The insertion of `compile_function`: fresh compilation data recorded under the signature. */
    method Record(signature: Signature, generated: Generated) returns (data: CompilationData)
      requires Valid()
      modifies this
      ensures Valid()
      ensures fresh(data) && functionsCompilationData == old(functionsCompilationData)[signature := data]
      ensures data.unresolvedFunctionCalls == generated.calls && data.unresolvedBranches == generated.branches
      ensures data.unresolvedNativeBranches == generated.nativeBranches && data.branchTargets == generated.branchTargets
      ensures data.instructionsOffsets == generated.offsets
    {
      data := new CompilationData(generated);
      functionsCompilationData := functionsCompilationData[signature := data];
      dataObjects := dataObjects + {data};
    }

    /**
     * `resolve_calls_and_branches`: for each compiled function, in the map's order, each
     * non-empty collection of open sites is patched. Afterwards nothing is left open anywhere.
     * The source panics when a function with open sites is not in the binder or one of its
     * collections cannot be patched.
     */
    method ResolveCallsAndBranches(binder: Binder, memory: CodeMemory) returns (ok: bool)
      requires Valid() && binder.Valid()
      modifies memory, dataObjects
      ensures ok <==> forall s :: s in functionsCompilationData ==>
        old(EntryResolvable(binder.functions, s, functionsCompilationData[s]))
      ensures ok ==> forall s :: s in functionsCompilationData ==> functionsCompilationData[s].Resolved()
      ensures ok ==> PatchedFrom(old(memory.bytes), memory.bytes, AllPatches(binder.functions, old(OpenSitesOf())))
    {
      ghost var open := OpenSitesOf();
      assert forall s :: s in functionsCompilationData ==>
        (EntryResolvable(binder.functions, s, functionsCompilationData[s]) <==> OpenResolvable(binder.functions, s, open[s]));
      ghost var owner := Owners(functionsCompilationData);
      ok := PatchAll(binder, memory, open, owner);
    }

    /**
     * The loop of `resolve_calls_and_branches`, over the compiled functions whose open sites are
     * `open`; `owner` tells their compilation data apart.
     */
    method PatchAll(binder: Binder, memory: CodeMemory, ghost open: map<Signature, OpenSites>,
                    ghost owner: map<CompilationData, Signature>)
      returns (ok: bool)
      requires binder.Valid() && forall s :: s in functionsCompilationData ==> functionsCompilationData[s] in dataObjects
      requires forall s :: s in functionsCompilationData ==>
        functionsCompilationData[s] in owner && owner[functionsCompilationData[s]] == s
      requires open.Keys == functionsCompilationData.Keys
      requires forall s :: s in functionsCompilationData ==> functionsCompilationData[s].Open() == open[s]
      modifies memory, dataObjects
      ensures ok <==> forall s :: s in open ==> OpenResolvable(old(binder.functions), s, open[s])
      ensures ok ==> forall s :: s in functionsCompilationData ==> functionsCompilationData[s].Resolved()
      ensures ok ==> PatchedFrom(old(memory.bytes), memory.bytes, AllPatches(old(binder.functions), open))
    {
      var entries := functionsCompilationData;
      var todo := entries.Keys;
      ghost var functions := binder.functions;
      ghost var order: seq<Signature> := [];
      ghost var states := [memory.bytes];
      while todo != {}
        modifies memory, dataObjects
        invariant binder.functions == functions && Pending(entries, functions, open, todo)
        invariant |states| == |order| + 1 && states[0] == old(memory.bytes) && states[|order|] == memory.bytes
        invariant Chained(EntryParts(functions, open), order, states)
        invariant forall s :: s in entries && s !in todo ==> s in order
        decreases todo
      {
        var signature :| signature in todo;
        ok, order, states := ResolveEntryTracked(binder, functions, memory, entries, owner, signature, open, todo, order, states);
        if !ok {
          return;
        }
        todo := todo - {signature};
      }
      ChainedAll(functions, open, order, states);
      ok := true;
    }

    /**
     * A turn of the loop of `resolve_calls_and_branches`: the function `signature` of `todo` is
     * resolved, applying its fix-ups.
     */
    method ResolveEntryTracked(binder: Binder, ghost functions: map<Signature, Declaration>, memory: CodeMemory,
                               entries: map<Signature, CompilationData>, ghost owner: map<CompilationData, Signature>,
                               signature: Signature, ghost open: map<Signature, OpenSites>, ghost todo: set<Signature>,
                               ghost order: seq<Signature>, ghost states: seq<map<int, Byte>>)
      returns (ok: bool, ghost order': seq<Signature>, ghost states': seq<map<int, Byte>>)
      requires binder.Valid() && binder.functions == functions
      requires signature in todo && Pending(entries, functions, open, todo)
      requires forall s :: s in entries ==> entries[s] in owner && owner[entries[s]] == s
      requires Chained(EntryParts(functions, open), order, states) && states[|order|] == memory.bytes
      modifies memory, entries[signature]
      ensures ok <==> OpenResolvable(functions, signature, open[signature])
      ensures ok ==> Pending(entries, functions, open, todo - {signature})
      ensures ok ==> order' == order + [signature] && Chained(EntryParts(functions, open), order', states')
      ensures ok ==> states'[0] == states[0] && states'[|order'|] == memory.bytes
    {
      ok := ResolveEntry(binder, memory, signature, entries[signature]);
      order', states' := order, states;
      if ok {
        ChainStep(functions, open, order, states, signature, memory.bytes);
        order', states' := order + [signature], states + [memory.bytes];
      }
    }

    /** The open sites of every compiled function. */
    function OpenSitesOf(): (r: map<Signature, OpenSites>)
      reads this, set s | s in functionsCompilationData :: functionsCompilationData[s]
      ensures r.Keys == functionsCompilationData.Keys
      ensures forall s :: s in r ==> r[s] == functionsCompilationData[s].Open()
    {
      map s | s in functionsCompilationData :: functionsCompilationData[s].Open()
    }
  }

  /**
   * The loop of `resolve_calls_and_branches` before it resolves the functions `todo`: those keep
   * their open sites `open`, and every other function is resolved, having been resolvable.
   */
  ghost predicate Pending(entries: map<Signature, CompilationData>, functions: map<Signature, Declaration>,
                          open: map<Signature, OpenSites>, todo: set<Signature>)
    reads entries.Values
  {
    && todo <= entries.Keys
    && (forall s :: s in todo ==> s in open && entries[s].Open() == open[s])
    && (forall s :: s in entries && s !in todo ==> entries[s].Resolved())
    && (forall s :: s in open && s !in todo ==> OpenResolvable(functions, s, open[s]))
  }

  /** No two functions share their compilation data: each has its signature as its owner. */
  lemma Owners(entries: map<Signature, CompilationData>) returns (owner: map<CompilationData, Signature>)
    requires forall s, t :: s in entries && t in entries && s != t ==> entries[s] != entries[t]
    ensures forall s :: s in entries ==> entries[s] in owner && owner[entries[s]] == s
  {
    owner := map s | s in entries :: entries[s] := s;
  }

  /** The fix-ups of each function of `open`, by signature. */
  function EntryParts(functions: map<Signature, Declaration>, open: map<Signature, OpenSites>): map<Signature, map<SiteKey, Patch>> {
    map s | s in open :: EntryPatches(functions, s, open[s])
  }

  /** `all` is the union of `parts`, each part holding the fix-ups of its own function. */
  ghost predicate Split(all: map<SiteKey, Patch>, parts: map<Signature, map<SiteKey, Patch>>) {
    Covered(all, parts) && Within(all, parts)
  }

  /** Every fix-up of `all` is one of the part of its function. */
  ghost predicate Covered(all: map<SiteKey, Patch>, parts: map<Signature, map<SiteKey, Patch>>) {
    forall key :: key in all ==> key.owner in parts && key in parts[key.owner]
  }

  /** Every part holds fix-ups of its own function, as `all` has them. */
  ghost predicate Within(all: map<SiteKey, Patch>, parts: map<Signature, map<SiteKey, Patch>>) {
    forall s, key :: s in parts && key in parts[s] ==> key.owner == s && key in all && all[key] == parts[s][key]
  }

  /** The fix-ups of all functions are split by function. */
  lemma AllSplit(functions: map<Signature, Declaration>, open: map<Signature, OpenSites>)
    ensures Split(AllPatches(functions, open), EntryParts(functions, open))
  {
    AllInParts(functions, open);
    PartsInAll(functions, open);
  }

  /** Each fix-up of all functions is one of its own function. */
  lemma AllInParts(functions: map<Signature, Declaration>, open: map<Signature, OpenSites>)
    ensures Covered(AllPatches(functions, open), EntryParts(functions, open))
  {
    var all, parts := AllPatches(functions, open), EntryParts(functions, open);
    forall key | key in all
      ensures key.owner in parts && key in parts[key.owner]
    {
      AllPatchesOf(functions, open, key);
    }
  }

  /** Each fix-up of a function is one of all functions, under its own signature. */
  lemma PartsInAll(functions: map<Signature, Declaration>, open: map<Signature, OpenSites>)
    ensures Within(AllPatches(functions, open), EntryParts(functions, open))
  {
    var all, parts := AllPatches(functions, open), EntryParts(functions, open);
    forall s | s in parts
      ensures forall key: SiteKey :: key in parts[s] ==> key.owner == s && key in all && all[key] == parts[s][key]
    {
      PartInAll(functions, open, s, parts[s]);
    }
  }

  /** The fix-ups of one function are ones of all functions, under that function's signature. */
  lemma PartInAll(functions: map<Signature, Declaration>, open: map<Signature, OpenSites>, s: Signature,
                  part: map<SiteKey, Patch>)
    requires s in open && part == EntryPatches(functions, s, open[s])
    ensures forall key :: key in part ==>
      key.owner == s && key in AllPatches(functions, open) && AllPatches(functions, open)[key] == part[key]
  {
    EntryOwned(functions, s, open[s]);
    forall key | key in part
      ensures key.owner == s && key in AllPatches(functions, open) && AllPatches(functions, open)[key] == part[key]
    {
      AllPatchesOf(functions, open, key);
    }
  }

  /**
   * `states` are memory before the loop of `resolve_calls_and_branches` and after each turn,
   * the turns resolving the functions of `order` in turn: each applied the fix-ups of its function.
   */
  ghost predicate Chained(parts: map<Signature, map<SiteKey, Patch>>, order: seq<Signature>, states: seq<map<int, Byte>>)
    decreases |order|
  {
    && |states| == |order| + 1
    && (|order| > 0 ==>
          var n := |order| - 1;
          && order[n] in parts
          && Chained(parts, order[..n], states[..n + 1])
          && PatchedFrom(states[n], states[n + 1], parts[order[n]]))
  }

  /** A turn that applies the fix-ups of `signature` extends the chain. */
  lemma ChainStep(functions: map<Signature, Declaration>, open: map<Signature, OpenSites>,
                  order: seq<Signature>, states: seq<map<int, Byte>>, signature: Signature, bytes: map<int, Byte>)
    requires Chained(EntryParts(functions, open), order, states) && signature in open
    requires PatchedFrom(states[|order|], bytes, EntryPatches(functions, signature, open[signature]))
    ensures Chained(EntryParts(functions, open), order + [signature], states + [bytes])
  {
    var order', states' := order + [signature], states + [bytes];
    assert order'[..|order|] == order;
    assert states'[..|order| + 1] == states;
  }

  /** The fix-ups of `all` whose function is among `order`. */
  ghost function OwnedBy(all: map<SiteKey, Patch>, order: seq<Signature>): set<SiteKey> {
    set key | key in all && key.owner in order
  }

  /** Along a chain, the fix-ups of the functions of `order` are applied, and nothing else has changed. */
  lemma {:induction false} ChainedProgress(all: map<SiteKey, Patch>, parts: map<Signature, map<SiteKey, Patch>>,
                                           order: seq<Signature>, states: seq<map<int, Byte>>)
    requires Split(all, parts) && Chained(parts, order, states)
    ensures Progress(states[0], states[|order|], all, OwnedBy(all, order))
    decreases |order|
  {
    if |order| == 0 {
      NothingDone(states[0], all);
      ProgressKeys(states[0], states[0], all, {}, OwnedBy(all, order));
    } else {
      var n := |order| - 1;
      ChainedProgress(all, parts, order[..n], states[..n + 1]);
      ChainLink(all, parts, order, states[0], states[n], states[n + 1]);
    }
  }

  /**
   * The last function of `order` applied its fix-ups, from `middle` to `after`, on top of those
   * of the functions before it.
   */
  lemma ChainLink(all: map<SiteKey, Patch>, parts: map<Signature, map<SiteKey, Patch>>, order: seq<Signature>,
                  before: map<int, Byte>, middle: map<int, Byte>, after: map<int, Byte>)
    requires Split(all, parts) && |order| > 0 && order[|order| - 1] in parts
    requires var n := |order| - 1;
      && Progress(before, middle, all, OwnedBy(all, order[..n]))
      && PatchedFrom(middle, after, parts[order[n]])
    ensures Progress(before, after, all, OwnedBy(all, order))
  {
    var n := |order| - 1;
    var part := parts[order[n]];
    Compose(before, middle, after, all, OwnedBy(all, order[..n]), part);
    OwnedByStep(all, parts, order);
    ProgressKeys(before, after, all, OwnedBy(all, order[..n]) + part.Keys, OwnedBy(all, order));
  }

  /** The last function of `order` adds its own fix-ups to those of the functions before it. */
  lemma OwnedByStep(all: map<SiteKey, Patch>, parts: map<Signature, map<SiteKey, Patch>>, order: seq<Signature>)
    requires Split(all, parts) && |order| > 0 && order[|order| - 1] in parts
    ensures var n := |order| - 1;
      forall key :: key in all ==> (key in OwnedBy(all, order[..n]) + parts[order[n]].Keys <==> key in OwnedBy(all, order))
  {
    var n := |order| - 1;
    assert order == order[..n] + [order[n]];
  }

  /** A chain through every function of `open` has applied the fix-ups of all of them. */
  lemma ChainedAll(functions: map<Signature, Declaration>, open: map<Signature, OpenSites>,
                   order: seq<Signature>, states: seq<map<int, Byte>>)
    requires Chained(EntryParts(functions, open), order, states)
    requires forall s :: s in open ==> s in order
    ensures PatchedFrom(states[0], states[|order|], AllPatches(functions, open))
  {
    AllSplit(functions, open);
    ChainedPatched(AllPatches(functions, open), EntryParts(functions, open), order, states);
  }

  /** A chain through every function with fix-ups has applied all of them. */
  lemma ChainedPatched(all: map<SiteKey, Patch>, parts: map<Signature, map<SiteKey, Patch>>,
                       order: seq<Signature>, states: seq<map<int, Byte>>)
    requires Split(all, parts) && Chained(parts, order, states)
    requires forall s :: s in parts ==> s in order
    ensures PatchedFrom(states[0], states[|order|], all)
  {
    ChainedProgress(all, parts, order, states);
    ProgressComplete(states[0], states[|order|], all, OwnedBy(all, order));
  }

  /** Progress depends on the applied fix-ups only through which keys of `patches` they hold. */
  lemma ProgressKeys<K>(before: map<int, Byte>, bytes: map<int, Byte>, patches: map<K, Patch>, done: set<K>, done': set<K>)
    requires Progress(before, bytes, patches, done)
    requires forall k :: k in patches ==> (k in done <==> k in done')
    ensures Progress(before, bytes, patches, done')
  {
    forall x | Outside(patches, done', x)
      ensures Outside(patches, done, x)
    {
    }
  }

  /** Before the first fix-up nothing has changed. */
  lemma NothingDone<K>(bytes: map<int, Byte>, patches: map<K, Patch>)
    ensures Progress(bytes, bytes, patches, {})
  {
  }

  /** The fix-ups of a function are under its own signature. */
  lemma EntryOwned(functions: map<Signature, Declaration>, owner: Signature, open: OpenSites)
    ensures forall key :: key in EntryPatches(functions, owner, open) ==> key.owner == owner
  {
    if owner in functions && functions[owner].address.Some? {
      var code := functions[owner].address.value;
      TaggedParts(owner, CallPatches(functions, code, open.calls), BranchPatches(code, open.branches, open.targets),
                  NativePatches(code, open.natives));
    }
  }

  /**
   * The body of the loop of `resolve_calls_and_branches`, for one compiled function: its calls,
   * its branches and its branches to native code are patched, in that order.
   */
  method ResolveEntry(binder: Binder, memory: CodeMemory, signature: Signature, data: CompilationData) returns (ok: bool)
    requires binder.Valid()
    modifies memory, data
    ensures ok <==> old(EntryResolvable(binder.functions, signature, data))
    ensures ok ==> data.Resolved()
    ensures ok ==> PatchedFrom(old(memory.bytes), memory.bytes, EntryPatches(binder.functions, signature, old(data.Open())))
  {
    ghost var open := data.Open();
    ghost var code := if signature in binder.functions && binder.functions[signature].address.Some?
      then binder.functions[signature].address.value else 0;
    ghost var m0 := memory.bytes;
    if data.unresolvedFunctionCalls != [] {
      var declaration := binder.Get(signature);
      if declaration.None? {
        return false;
      }
      ok := ResolveCalls(binder, declaration.value, data, memory);
      if !ok {
        return;
      }
    } else {
      NothingPatched(m0, CallPatches(binder.functions, code, open.calls));
    }
    ghost var m1 := memory.bytes;
    if data.unresolvedBranches != map[] {
      var declaration := binder.Get(signature);
      if declaration.None? {
        return false;
      }
      ok := ResolveBranches(declaration.value, data, memory);
      if !ok {
        return;
      }
    } else {
      NothingPatched(m1, BranchPatches(code, open.branches, open.targets));
    }
    ghost var m2 := memory.bytes;
    if data.unresolvedNativeBranches != map[] {
      var declaration := binder.Get(signature);
      if declaration.None? {
        return false;
      }
      ok := ResolveNativeBranches(declaration.value, data, memory);
      if !ok {
        return;
      }
    } else {
      NothingPatched(m2, NativePatches(code, open.natives));
    }
    if signature in binder.functions && binder.functions[signature].address.Some? {
      EntryComposed(signature, CallPatches(binder.functions, code, open.calls), BranchPatches(code, open.branches, open.targets),
                    NativePatches(code, open.natives), m0, m1, m2, memory.bytes);
    } else {
      NothingPatched(m0, EntryPatches(binder.functions, signature, open));
    }
    ok := true;
  }

  /** With no fix-up to apply, memory is patched as it is. */
  lemma NothingPatched<K>(bytes: map<int, Byte>, patches: map<K, Patch>)
    requires patches == map[]
    ensures PatchedFrom(bytes, bytes, patches)
  {
  }

  /** Patching the calls, then the branches, then the native branches of a function applies all its fix-ups. */
  lemma EntryComposed(owner: Signature, calls: map<nat, Patch>, branches: map<nat, Patch>, natives: map<nat, Patch>,
                      m0: map<int, Byte>, m1: map<int, Byte>, m2: map<int, Byte>, m3: map<int, Byte>)
    requires PatchedFrom(m0, m1, calls) && PatchedFrom(m1, m2, branches) && PatchedFrom(m2, m3, natives)
    ensures PatchedFrom(m0, m3, Tagged(owner, calls, branches, natives))
  {
    var all := Tagged(owner, calls, branches, natives);
    TaggedParts(owner, calls, branches, natives);
    TaggedUnchanged(all, owner, calls, branches, natives, m0, m1, m2, m3);
    if Disjoint(all) {
      forall key | key in all
        ensures ReadI32(m3, all[key].site) == all[key].value
      {
        match key
        case CallKey(_, k) => CallReadsBack(all, owner, calls, branches, natives, m0, m1, m2, m3, k);
        case BranchKey(_, source) => BranchReadsBack(all, owner, calls, branches, natives, m0, m1, m2, m3, source);
        case NativeKey(_, source) => NativeReadsBack(all, owner, calls, branches, natives, m0, m1, m2, m3, source);
      }
    }
  }

  /** `all` holds the calls, the branches and the native branches of `owner` under their keys, and nothing else. */
  predicate TaggedAs(all: map<SiteKey, Patch>, owner: Signature, calls: map<nat, Patch>, branches: map<nat, Patch>, natives: map<nat, Patch>) {
    && (forall k :: k in calls ==> CallKey(owner, k) in all && all[CallKey(owner, k)] == calls[k])
    && (forall source :: source in branches ==> BranchKey(owner, source) in all && all[BranchKey(owner, source)] == branches[source])
    && (forall source :: source in natives ==> NativeKey(owner, source) in all && all[NativeKey(owner, source)] == natives[source])
    && (forall key :: key in all ==> key.owner == owner && TaggedIn(key, calls, branches, natives))
  }

  /** No byte outside the sites of the three steps has changed. */
  lemma TaggedUnchanged(all: map<SiteKey, Patch>, owner: Signature, calls: map<nat, Patch>, branches: map<nat, Patch>, natives: map<nat, Patch>, m0: map<int, Byte>, m1: map<int, Byte>, m2: map<int, Byte>, m3: map<int, Byte>)
    requires TaggedAs(all, owner, calls, branches, natives)
    requires PatchedFrom(m0, m1, calls) && PatchedFrom(m1, m2, branches) && PatchedFrom(m2, m3, natives)
    ensures forall x :: Outside(all, all.Keys, x) ==> ByteAt(m3, x) == ByteAt(m0, x)
  {
    forall x | Outside(all, all.Keys, x)
      ensures ByteAt(m3, x) == ByteAt(m0, x)
    {
      forall k | k in calls
        ensures !(calls[k].site <= x < calls[k].site + 4)
      {
        assert all[CallKey(owner, k)] == calls[k];
      }
      forall source | source in branches
        ensures !(branches[source].site <= x < branches[source].site + 4)
      {
        assert all[BranchKey(owner, source)] == branches[source];
      }
      forall source | source in natives
        ensures !(natives[source].site <= x < natives[source].site + 4)
      {
        assert all[NativeKey(owner, source)] == natives[source];
      }
      assert Outside(calls, calls.Keys, x) && Outside(branches, branches.Keys, x) && Outside(natives, natives.Keys, x);
    }
  }

  /** A patched call reads back after the later steps, whose sites are apart from its own. */
  lemma CallReadsBack(all: map<SiteKey, Patch>, owner: Signature, calls: map<nat, Patch>, branches: map<nat, Patch>, natives: map<nat, Patch>, m0: map<int, Byte>, m1: map<int, Byte>, m2: map<int, Byte>, m3: map<int, Byte>, k: nat)
    requires TaggedAs(all, owner, calls, branches, natives)
    requires PatchedFrom(m0, m1, calls) && PatchedFrom(m1, m2, branches) && PatchedFrom(m2, m3, natives)
    requires Disjoint(all)
    requires k in calls
    ensures ReadI32(m3, calls[k].site) == calls[k].value
  {
    var site := calls[k].site;
    forall j, i | j in calls && i in calls && j != i
      ensures Apart(calls[j].site, calls[i].site)
    {
      assert all[CallKey(owner, j)] == calls[j] && all[CallKey(owner, i)] == calls[i];
    }
    assert Applied(m1, calls, calls.Keys);
    forall j | j in branches
      ensures Apart(branches[j].site, site)
    {
      assert all[BranchKey(owner, j)] == branches[j] && all[CallKey(owner, k)] == calls[k];
    }
    ReadKept(m1, m2, branches, site);
    forall j | j in natives
      ensures Apart(natives[j].site, site)
    {
      assert all[NativeKey(owner, j)] == natives[j] && all[CallKey(owner, k)] == calls[k];
    }
    ReadKept(m2, m3, natives, site);
  }

  /** A patched branch reads back after the native branches, whose sites are apart from its own. */
  lemma BranchReadsBack(all: map<SiteKey, Patch>, owner: Signature, calls: map<nat, Patch>, branches: map<nat, Patch>, natives: map<nat, Patch>, m0: map<int, Byte>, m1: map<int, Byte>, m2: map<int, Byte>, m3: map<int, Byte>, source: nat)
    requires TaggedAs(all, owner, calls, branches, natives)
    requires PatchedFrom(m0, m1, calls) && PatchedFrom(m1, m2, branches) && PatchedFrom(m2, m3, natives)
    requires Disjoint(all)
    requires source in branches
    ensures ReadI32(m3, branches[source].site) == branches[source].value
  {
    var site := branches[source].site;
    forall j, i | j in branches && i in branches && j != i
      ensures Apart(branches[j].site, branches[i].site)
    {
      assert all[BranchKey(owner, j)] == branches[j] && all[BranchKey(owner, i)] == branches[i];
    }
    assert Applied(m2, branches, branches.Keys);
    forall j | j in natives
      ensures Apart(natives[j].site, site)
    {
      assert all[NativeKey(owner, j)] == natives[j] && all[BranchKey(owner, source)] == branches[source];
    }
    ReadKept(m2, m3, natives, site);
  }

  /** A patched native branch reads back: it is of the last step. */
  lemma NativeReadsBack(all: map<SiteKey, Patch>, owner: Signature, calls: map<nat, Patch>, branches: map<nat, Patch>, natives: map<nat, Patch>, m0: map<int, Byte>, m1: map<int, Byte>, m2: map<int, Byte>, m3: map<int, Byte>, source: nat)
    requires TaggedAs(all, owner, calls, branches, natives)
    requires PatchedFrom(m0, m1, calls) && PatchedFrom(m1, m2, branches) && PatchedFrom(m2, m3, natives)
    requires Disjoint(all)
    requires source in natives
    ensures ReadI32(m3, natives[source].site) == natives[source].value
  {
    forall j, i | j in natives && i in natives && j != i
      ensures Apart(natives[j].site, natives[i].site)
    {
      assert all[NativeKey(owner, j)] == natives[j] && all[NativeKey(owner, i)] == natives[i];
    }
    assert Applied(m3, natives, natives.Keys);
  }

  /** Where each fix-up of `Tagged` comes from. */
  lemma TaggedParts(owner: Signature, calls: map<nat, Patch>, branches: map<nat, Patch>, natives: map<nat, Patch>)
    ensures TaggedAs(Tagged(owner, calls, branches, natives), owner, calls, branches, natives)
  {
    TaggedCalls(owner, calls, branches, natives);
    TaggedBranches(owner, calls, branches, natives);
    TaggedNatives(owner, calls, branches, natives);
  }
  /** The calls of `Tagged` are under their keys. */
  lemma TaggedCalls(owner: Signature, calls: map<nat, Patch>, branches: map<nat, Patch>, natives: map<nat, Patch>)
    ensures var all := Tagged(owner, calls, branches, natives);
      forall k :: k in calls ==> CallKey(owner, k) in all && all[CallKey(owner, k)] == calls[k]
  {
  }

  /** The branches of `Tagged` are under their keys. */
  lemma TaggedBranches(owner: Signature, calls: map<nat, Patch>, branches: map<nat, Patch>, natives: map<nat, Patch>)
    ensures var all := Tagged(owner, calls, branches, natives);
      forall source :: source in branches ==> BranchKey(owner, source) in all && all[BranchKey(owner, source)] == branches[source]
  {
  }

  /** The native branches of `Tagged` are under their keys. */
  lemma TaggedNatives(owner: Signature, calls: map<nat, Patch>, branches: map<nat, Patch>, natives: map<nat, Patch>)
    ensures var all := Tagged(owner, calls, branches, natives);
      forall source :: source in natives ==> NativeKey(owner, source) in all && all[NativeKey(owner, source)] == natives[source]
  {
  }
}
