/**
 * Linear-scan register allocation over live intervals. The intervals are taken in ascending
 * start order; before each one, the active intervals that ended earlier give their registers
 * back. When the interval's register class is full, the active interval of the same class that
 * ends last is spilled if it outlives the current one (which then takes its register), and
 * otherwise the current interval is spilled; if a register is free, the smallest one is taken.
 *
 * The allocator as the source writes it (`AsWritten`) counts every active interval in its
 * capacity check and picks the spill victim among intervals of exactly the same type, although
 * registers are shared by class (Float32 against every other type); either can make it panic on
 * a mix of types. `Corrected` counts and picks within the register class.
 */
module LinearScan {
  import opened Wrappers
  import opened TypeIds
  import opened Ranges
  import opened Liveness

  datatype Settings = Settings(numIntRegisters: nat, numFloatRegisters: nat)

  datatype Version = AsWritten | Corrected

  /** Float32 values take float registers; every other type takes integer registers. */
  predicate IsFloat(t: TypeId) {
    t == Float32
  }

  predicate SameClass(a: TypeId, b: TypeId) {
    IsFloat(a) == IsFloat(b)
  }

  function TypeOf(interval: LiveInterval): TypeId {
    interval.register.valueType
  }

  /** `max_for_type`: the number of registers of the class. */
  function MaxForClass(settings: Settings, float: bool): nat {
    if float then settings.numFloatRegisters else settings.numIntRegisters
  }

  // The order of the active set: by end, then start, then register

  function TypeRank(t: TypeId): nat {
    match t
    case Void => 0
    case Int32 => 1
    case Float32 => 2
    case Bool => 3
    case Null => 4
    case Array(_) => 5
    case Class(_) => 6
  }

  /** Lexicographic order on strings, character by character. */
  predicate StringLess(a: string, b: string)
    decreases |a|
  {
    |b| > 0 && (|a| == 0 || a[0] < b[0] || (a[0] == b[0] && StringLess(a[1..], b[1..])))
  }

  /** Types in declaration order of their variants, then by element type or class name. */
  predicate TypeLess(a: TypeId, b: TypeId) {
    if TypeRank(a) != TypeRank(b) then TypeRank(a) < TypeRank(b)
    else if a.Array? && b.Array? then TypeLess(a.element, b.element)
    else a.Class? && b.Class? && StringLess(a.name, b.name)
  }

  /** The derived order of virtual registers: by number, then by type. */
  predicate RegisterLess(a: Register, b: Register) {
    a.number < b.number || (a.number == b.number && TypeLess(a.valueType, b.valueType))
  }

  /** `LiveIntervalByEndPoint`'s comparison: by end, then start, then register. */
  predicate EndPointLess(a: LiveInterval, b: LiveInterval) {
    a.end < b.end || (a.end == b.end && (a.start < b.start || (a.start == b.start && RegisterLess(a.register, b.register))))
  }

  lemma {:induction false} StringOrder(a: string, b: string, c: string)
    ensures !StringLess(a, a)
    ensures StringLess(a, b) && StringLess(b, c) ==> StringLess(a, c)
    ensures a != b ==> StringLess(a, b) || StringLess(b, a)
    decreases |a|
  {
    if |a| > 0 {
      var b' := if |b| > 0 then b[1..] else a[1..];
      var c' := if |c| > 0 then c[1..] else b';
      StringOrder(a[1..], b', c');
    }
    if |a| > 0 && |b| > 0 && a != b && a[0] == b[0] {
      assert a == [a[0]] + a[1..] && b == [b[0]] + b[1..];
      assert a[1..] != b[1..];
    }
  }

  lemma {:induction false} TypeOrder(a: TypeId, b: TypeId, c: TypeId)
    ensures !TypeLess(a, a)
    ensures TypeLess(a, b) && TypeLess(b, c) ==> TypeLess(a, c)
    ensures a != b ==> TypeLess(a, b) || TypeLess(b, a)
  {
    match a
    case Array(x) =>
      if b.Array? && c.Array? {
        TypeOrder(x, b.element, c.element);
      } else if b.Array? {
        TypeOrder(x, b.element, b.element);
      } else {
        TypeOrder(x, x, x);
      }
    case Class(n) =>
      if b.Class? && c.Class? {
        StringOrder(n, b.name, c.name);
      } else if b.Class? {
        StringOrder(n, b.name, b.name);
      } else {
        StringOrder(n, n, n);
      }
    case _ =>
  }

  /** `LiveIntervalByEndPoint` is a strict total order on intervals. */
  lemma EndPointOrder(a: LiveInterval, b: LiveInterval, c: LiveInterval)
    ensures !EndPointLess(a, a)
    ensures EndPointLess(a, b) && EndPointLess(b, c) ==> EndPointLess(a, c)
    ensures a != b ==> EndPointLess(a, b) || EndPointLess(b, a)
  {
    TypeOrder(a.register.valueType, b.register.valueType, c.register.valueType);
  }

  // The active set as the ascending sequence its iteration yields

  predicate ByEndPoint(s: seq<LiveInterval>) {
    forall i, j :: 0 <= i < j < |s| ==> EndPointLess(s[i], s[j])
  }

  /** `BTreeSet::insert`: the element at its place in the order, unless it is already there. */
  function InsertByEndPoint(s: seq<LiveInterval>, x: LiveInterval): seq<LiveInterval> {
    if |s| == 0 then [x]
    else if x == s[0] then s
    else if EndPointLess(x, s[0]) then [x] + s
    else [s[0]] + InsertByEndPoint(s[1..], x)
  }

  /** `BTreeSet::remove`. */
  function RemoveFrom(s: seq<LiveInterval>, x: LiveInterval): seq<LiveInterval> {
    if |s| == 0 then []
    else (if s[0] == x then [] else [s[0]]) + RemoveFrom(s[1..], x)
  }

  /** The number of intervals of a register class. */
  function CountClass(s: seq<LiveInterval>, float: bool): nat {
    if |s| == 0 then 0 else (if IsFloat(TypeOf(s[0])) == float then 1 else 0) + CountClass(s[1..], float)
  }

  lemma {:induction false} InsertKeepsOrder(s: seq<LiveInterval>, x: LiveInterval)
    requires ByEndPoint(s)
    ensures ByEndPoint(InsertByEndPoint(s, x))
    ensures forall y :: y in InsertByEndPoint(s, x) <==> y in s || y == x
    ensures forall f :: CountClass(InsertByEndPoint(s, x), f) == CountClass(s, f) + (if x !in s && IsFloat(TypeOf(x)) == f then 1 else 0)
  {
    if |s| > 0 && x != s[0] {
      var r := InsertByEndPoint(s, x);
      EndPointOrder(x, s[0], s[0]);
      if EndPointLess(x, s[0]) {
        forall i | 0 < i < |s| ensures EndPointLess(x, s[i]) {
          EndPointOrder(x, s[0], s[i]);
        }
        OrderedExcludes(s, x);
        assert r[1..] == s;
      } else {
        InsertKeepsOrder(s[1..], x);
        assert r[1..] == InsertByEndPoint(s[1..], x);
        assert s == [s[0]] + s[1..];
        FirstBeforeMembers(s);
        assert EndPointLess(s[0], x);
        forall j | 0 < j < |r| ensures EndPointLess(s[0], r[j]) {
          assert r[j] in r[1..];
        }
      }
    }
  }

  /** An interval before the first of an ordered sequence is not in it. */
  lemma OrderedExcludes(s: seq<LiveInterval>, x: LiveInterval)
    requires ByEndPoint(s) && |s| > 0 && EndPointLess(x, s[0])
    ensures x !in s
  {
    forall i | 0 <= i < |s| ensures s[i] != x {
      EndPointOrder(x, s[0], s[i]);
      if i > 0 {
        EndPointOrder(s[i], s[0], s[i]);
      }
    }
  }

  lemma {:induction false} RemoveKeepsOrder(s: seq<LiveInterval>, x: LiveInterval)
    requires ByEndPoint(s)
    ensures ByEndPoint(RemoveFrom(s, x))
    ensures forall y :: y in RemoveFrom(s, x) <==> y in s && y != x
    ensures forall f :: CountClass(RemoveFrom(s, x), f) == CountClass(s, f) - (if x in s && IsFloat(TypeOf(x)) == f then 1 else 0)
  {
    if |s| > 0 {
      RemoveKeepsOrder(s[1..], x);
      var rest := RemoveFrom(s[1..], x);
      assert s == [s[0]] + s[1..];
      if s[0] == x {
        OrderedTailExcludes(s);
        assert RemoveFrom(s, x) == rest;
      } else {
        assert RemoveFrom(s, x) == [s[0]] + rest;
        FirstBeforeMembers(s);
        forall j | 0 <= j < |rest| ensures EndPointLess(s[0], rest[j]) {
          assert rest[j] in rest;
        }
      }
    }
  }

  /** The first of an ordered sequence comes before every later member. */
  lemma FirstBeforeMembers(s: seq<LiveInterval>)
    requires ByEndPoint(s) && |s| > 0
    ensures forall y :: y in s[1..] ==> EndPointLess(s[0], y)
  {
    forall y | y in s[1..] ensures EndPointLess(s[0], y) {
      var i :| 0 <= i < |s[1..]| && s[1..][i] == y;
      assert s[i + 1] == y;
    }
  }

  /** An ordered sequence does not repeat its first element. */
  lemma OrderedTailExcludes(s: seq<LiveInterval>)
    requires ByEndPoint(s) && |s| > 0
    ensures s[0] !in s[1..]
  {
    forall i | 1 <= i < |s| ensures s[i] != s[0] {
      EndPointOrder(s[0], s[i], s[0]);
    }
  }

  lemma {:induction false} CountSplit(s: seq<LiveInterval>, n: nat, f: bool)
    requires n <= |s|
    ensures CountClass(s, f) == CountClass(s[..n], f) + CountClass(s[n..], f)
  {
    if n > 0 {
      CountSplit(s[1..], n - 1, f);
      assert s[1..][..n - 1] == s[..n][1..];
      assert s[1..][n - 1..] == s[n..];
    }
  }

  /** A class with a positive count has an interval in the sequence. */
  lemma {:induction false} CountedHasMember(s: seq<LiveInterval>, f: bool)
    requires CountClass(s, f) > 0
    ensures exists i :: 0 <= i < |s| && IsFloat(TypeOf(s[i])) == f
  {
    if IsFloat(TypeOf(s[0])) != f {
      CountedHasMember(s[1..], f);
      var i :| 0 <= i < |s[1..]| && IsFloat(TypeOf(s[1..][i])) == f;
      assert s[i + 1] == s[1..][i];
    }
  }

  /** A class without members counts zero. */
  lemma {:induction false} CountOfAbsent(s: seq<LiveInterval>, f: bool)
    requires forall i :: 0 <= i < |s| ==> IsFloat(TypeOf(s[i])) != f
    ensures CountClass(s, f) == 0
  {
    if |s| > 0 {
      CountOfAbsent(s[1..], f);
    }
  }

  // The state of the scan

  /** The free registers of each class, as `FreeRegisters` holds them. */
  datatype Free = Free(intRegisters: set<nat>, floatRegisters: set<nat>)
  {
    function ForClass(float: bool): set<nat> {
      if float then floatRegisters else intRegisters
    }

    function WithClass(float: bool, registers: set<nat>): (r: Free)
      ensures r.ForClass(float) == registers && r.ForClass(!float) == ForClass(!float)
    {
      if float then this.(floatRegisters := registers) else this.(intRegisters := registers)
    }
  }

  /** `FreeRegisters::new`: the registers `0..n` of each class. */
  function InitialFree(settings: Settings): Free {
    Free(Span(0, settings.numIntRegisters), Span(0, settings.numFloatRegisters))
  }

  /** The first element of a `BTreeSet` of registers. */
  function Smallest(s: set<nat>): (m: nat)
    requires s != {}
    ensures m in s && forall x :: x in s ==> m <= x
  {
    SmallestExists(s);
    var m :| m in s && forall x :: x in s ==> m <= x; m
  }

  /** The collections the allocation builds: the assigned registers, the spilled intervals and the active set. */
  datatype Tables = Tables(registers: map<LiveInterval, nat>, spilled: seq<LiveInterval>, active: seq<LiveInterval>)

  datatype ScanState = ScanState(tables: Tables, free: Free)

  function Initial(settings: Settings): ScanState {
    ScanState(Tables(map[], [], []), InitialFree(settings))
  }

  /** The number of leading active intervals that end before `start`. */
  function ExpiredCount(active: seq<LiveInterval>, start: nat): (n: nat)
    ensures n <= |active|
  {
    if |active| == 0 || active[0].end >= start then 0 else 1 + ExpiredCount(active[1..], start)
  }

  /** Each interval gives its register back to its class, in order; one without a register panics. */
  function Release(free: Free, expired: seq<LiveInterval>, registers: map<LiveInterval, nat>): Option<Free> {
    if |expired| == 0 then Some(free)
    else match Release(free, expired[..|expired| - 1], registers)
      case None => None
      case Some(f) =>
        var x := expired[|expired| - 1];
        if x !in registers then None
        else Some(f.WithClass(IsFloat(TypeOf(x)), f.ForClass(IsFloat(TypeOf(x))) + {registers[x]}))
  }

  /**
   * `expire_old_intervals`: the active intervals that end before the current one starts leave
   * the active set and free their registers. `None` is the panic of a missing register.
   */
  function Expire(s: ScanState, current: LiveInterval): Option<ScanState> {
    var n := ExpiredCount(s.tables.active, current.start);
    match Release(s.free, s.tables.active[..n], s.tables.registers)
    case None => None
    case Some(f) => Some(ScanState(s.tables.(active := s.tables.active[n..]), f))
  }

  /** The capacity check's count: every active interval as written, those of the class when corrected. */
  function ActiveCount(version: Version, active: seq<LiveInterval>, t: TypeId): nat {
    if version.AsWritten? then |active| else CountClass(active, IsFloat(t))
  }

  /** The victim filter: the exact type as written, the register class when corrected. */
  predicate Matches(version: Version, a: TypeId, b: TypeId) {
    if version.AsWritten? then a == b else SameClass(a, b)
  }

  /** The last active interval that passes the victim filter. */
  function LastMatching(version: Version, active: seq<LiveInterval>, t: TypeId): Option<LiveInterval> {
    if |active| == 0 then None
    else if Matches(version, TypeOf(active[|active| - 1]), t) then Some(active[|active| - 1])
    else LastMatching(version, active[..|active| - 1], t)
  }

  /**
   * `split_at_interval`: the victim that outlives the current interval hands it its register and
   * is spilled; otherwise the current interval is spilled. `None` is the panic of a missing victim.
   */
  function Split(version: Version, t: Tables, current: LiveInterval): Option<Tables> {
    match LastMatching(version, t.active, TypeOf(current))
    case None => None
    case Some(v) =>
      if v.end > current.end then
        if v !in t.registers then None else Some(SpillVictim(t, current, v))
      else Some(SpillCurrent(t, current))
  }

  /** The victim's register passes to the current interval, which replaces it in the active set; the victim is spilled. */
  function SpillVictim(t: Tables, current: LiveInterval, v: LiveInterval): Tables
    requires v in t.registers
  {
    Tables(t.registers[current := t.registers[v]] - {v}, t.spilled + [v], InsertByEndPoint(RemoveFrom(t.active, v), current))
  }

  /** The current interval is spilled. */
  function SpillCurrent(t: Tables, current: LiveInterval): Tables {
    Tables(t.registers - {current}, t.spilled + [current], t.active)
  }

  /** One turn of `allocate`'s loop. `None` is a panic: a missing victim or an empty class. */
  function Step(version: Version, settings: Settings, s: ScanState, current: LiveInterval): Option<ScanState> {
    match Expire(s, current)
    case None => None
    case Some(e) =>
      var c := IsFloat(TypeOf(current));
      if ActiveCount(version, e.tables.active, TypeOf(current)) == MaxForClass(settings, c) then
        match Split(version, e.tables, current)
        case None => None
        case Some(t) => Some(ScanState(t, e.free))
      else if e.free.ForClass(c) == {} then None
      else Some(Assign(e, current, Smallest(e.free.ForClass(c))))
  }

  /** The current interval takes register `r` of its class and joins the active set. */
  function Assign(s: ScanState, current: LiveInterval, r: nat): ScanState {
    var c := IsFloat(TypeOf(current));
    ScanState(Tables(s.tables.registers[current := r], s.tables.spilled, InsertByEndPoint(s.tables.active, current)),
              s.free.WithClass(c, s.free.ForClass(c) - {r}))
  }

  /** The loop of `allocate` over intervals already in start order. */
  function Scan(version: Version, settings: Settings, intervals: seq<LiveInterval>): Option<ScanState> {
    if |intervals| == 0 then Some(Initial(settings))
    else match Scan(version, settings, intervals[..|intervals| - 1])
      case None => None
      case Some(s) => Step(version, settings, s, intervals[|intervals| - 1])
  }

  /** `sort_by_key(start)`'s placement of one interval: before the first that starts no earlier. */
  function InsertByStart(x: LiveInterval, sorted: seq<LiveInterval>): seq<LiveInterval> {
    if |sorted| == 0 then [x]
    else if x.start <= sorted[0].start then [x] + sorted
    else [sorted[0]] + InsertByStart(x, sorted[1..])
  }

  /** A stable sort by start. */
  function SortByStart(intervals: seq<LiveInterval>): seq<LiveInterval> {
    if |intervals| == 0 then [] else InsertByStart(intervals[0], SortByStart(intervals[1..]))
  }

  /** `allocate`: the assigned and the spilled intervals, or `None` when it panics. */
  function AllocateSpec(version: Version, intervals: seq<LiveInterval>, settings: Settings): Option<Tables> {
    match Scan(version, settings, SortByStart(intervals))
    case None => None
    case Some(s) => Some(s.tables)
  }

  // The allocator as it runs: the free-register table is updated in place

  /** `FreeRegisters`: the free registers of each class and the size of each class. */
  class FreeRegisters {
    var intRegisters: set<nat>
    var maxInt: nat
    var floatRegisters: set<nat>
    var maxFloat: nat

    constructor (settings: Settings)
      ensures State() == InitialFree(settings)
      ensures maxInt == settings.numIntRegisters && maxFloat == settings.numFloatRegisters
    {
      intRegisters := Span(0, settings.numIntRegisters);
      maxInt := settings.numIntRegisters;
      floatRegisters := Span(0, settings.numFloatRegisters);
      maxFloat := settings.numFloatRegisters;
    }

    function State(): Free
      reads this
    {
      Free(intRegisters, floatRegisters)
    }

    /** `max_for_type`. */
    function MaxForType(t: TypeId): nat
      reads this
    {
      if IsFloat(t) then maxFloat else maxInt
    }

    /** `for_type`. */
    function ForType(t: TypeId): set<nat>
      reads this
    {
      State().ForClass(IsFloat(t))
    }

    /**
     * `get_free_register`: removes and returns the smallest free register of the type's class.
     * `None` is the panic on a class without free registers.
     */
    method GetFreeRegister(t: TypeId) returns (r: Option<nat>)
      modifies this
      ensures maxInt == old(maxInt) && maxFloat == old(maxFloat)
      ensures r.None? <==> old(ForType(t)) == {}
      ensures r.None? ==> State() == old(State())
      ensures r.Some? ==> r.value in old(ForType(t)) && forall x :: x in old(ForType(t)) ==> r.value <= x
      ensures r.Some? ==> State() == old(State()).WithClass(IsFloat(t), old(ForType(t)) - {r.value})
    {
      if IsFloat(t) {
        if floatRegisters == {} {
          return None;
        }
        var m := Smallest(floatRegisters);
        floatRegisters := floatRegisters - {m};
        r := Some(m);
      } else {
        if intRegisters == {} {
          return None;
        }
        var m := Smallest(intRegisters);
        intRegisters := intRegisters - {m};
        r := Some(m);
      }
    }

    /** `for_type_mut(t).insert(register)`: the register is free again. */
    method Release(t: TypeId, register: nat)
      modifies this
      ensures maxInt == old(maxInt) && maxFloat == old(maxFloat)
      ensures State() == old(State()).WithClass(IsFloat(t), old(ForType(t)) + {register})
    {
      if IsFloat(t) {
        floatRegisters := floatRegisters + {register};
      } else {
        intRegisters := intRegisters + {register};
      }
    }
  }

  /** A release that panics on a prefix panics on the whole sequence. */
  lemma {:induction false} ReleaseNoneStays(free: Free, xs: seq<LiveInterval>, registers: map<LiveInterval, nat>, k: nat)
    requires k <= |xs| && Release(free, xs[..k], registers).None?
    ensures Release(free, xs, registers).None?
    decreases |xs| - k
  {
    if k < |xs| {
      assert xs[..k + 1][..k] == xs[..k];
      ReleaseNoneStays(free, xs, registers, k + 1);
    } else {
      assert xs[..k] == xs;
    }
  }

  /**
   * `expire_old_intervals`: returns the active set without the intervals that end before the
   * current one starts, after giving their registers back in order; `None` is the panic of an
   * expired interval without a register.
   */
  method ExpireOldIntervals(registers: map<LiveInterval, nat>, active: seq<LiveInterval>, free: FreeRegisters, current: LiveInterval)
    returns (remaining: Option<seq<LiveInterval>>)
    modifies free
    ensures free.maxInt == old(free.maxInt) && free.maxFloat == old(free.maxFloat)
    ensures var n := ExpiredCount(active, current.start);
      var released := Release(old(free.State()), active[..n], registers);
      remaining.Some? == released.Some? && (released.Some? ==> remaining.value == active[n..] && free.State() == released.value)
  {
    var k := 0;
    while k < |active| && active[k].end < current.start
      invariant k <= |active|
      invariant k + ExpiredCount(active[k..], current.start) == ExpiredCount(active, current.start)
      invariant Release(old(free.State()), active[..k], registers) == Some(free.State())
      invariant free.maxInt == old(free.maxInt) && free.maxFloat == old(free.maxFloat)
    {
      var x := active[k];
      assert active[..k + 1][..k] == active[..k];
      assert active[k..][1..] == active[k + 1..];
      if x !in registers {
        ReleaseNoneStays(old(free.State()), active[..ExpiredCount(active, current.start)], registers, k + 1);
        return None;
      }
      free.Release(TypeOf(x), registers[x]);
      k := k + 1;
    }
    remaining := Some(active[k..]);
  }

  /** `split_at_interval`, with the victim found by a scan of the active set. */
  method SplitAtInterval(version: Version, t: Tables, current: LiveInterval) returns (outcome: Option<Tables>)
    ensures outcome == Split(version, t, current)
  {
    var victim: Option<LiveInterval> := None;
    var k := 0;
    while k < |t.active|
      invariant k <= |t.active|
      invariant victim == LastMatching(version, t.active[..k], TypeOf(current))
    {
      assert t.active[..k + 1][..k] == t.active[..k];
      if Matches(version, TypeOf(t.active[k]), TypeOf(current)) {
        victim := Some(t.active[k]);
      }
      k := k + 1;
    }
    assert t.active[..k] == t.active;
    if victim.None? {
      return None;
    }
    var v := victim.value;
    if v.end > current.end {
      if v !in t.registers {
        return None;
      }
      var registers := t.registers[current := t.registers[v]];
      var spilled := t.spilled + [v];
      registers := registers - {v};
      var active := RemoveFrom(t.active, v);
      active := InsertByEndPoint(active, current);
      outcome := Some(Tables(registers, spilled, active));
    } else {
      outcome := Some(Tables(t.registers - {current}, t.spilled + [current], t.active));
    }
  }

  /** A scan that panics on a prefix panics on the whole sequence. */
  lemma {:induction false} ScanNoneStays(version: Version, settings: Settings, xs: seq<LiveInterval>, k: nat)
    requires k <= |xs| && Scan(version, settings, xs[..k]).None?
    ensures Scan(version, settings, xs).None?
    decreases |xs| - k
  {
    if k < |xs| {
      assert xs[..k + 1][..k] == xs[..k];
      ScanNoneStays(version, settings, xs, k + 1);
    } else {
      assert xs[..k] == xs;
    }
  }

  /** A turn that reaches the split. */
  lemma StepSplits(version: Version, settings: Settings, s: ScanState, current: LiveInterval, e: ScanState, split: Option<Tables>)
    requires Expire(s, current) == Some(e)
    requires ActiveCount(version, e.tables.active, TypeOf(current)) == MaxForClass(settings, IsFloat(TypeOf(current)))
    requires Split(version, e.tables, current) == split
    ensures Step(version, settings, s, current) == if split.None? then None else Some(ScanState(split.value, e.free))
  {
  }

  /** A turn that takes a free register. */
  lemma StepTakesFree(version: Version, settings: Settings, s: ScanState, current: LiveInterval, e: ScanState, r: Option<nat>)
    requires Expire(s, current) == Some(e)
    requires ActiveCount(version, e.tables.active, TypeOf(current)) != MaxForClass(settings, IsFloat(TypeOf(current)))
    requires var free := e.free.ForClass(IsFloat(TypeOf(current)));
      (r.None? <==> free == {}) && (r.Some? ==> r.value in free && forall x :: x in free ==> r.value <= x)
    ensures Step(version, settings, s, current) == if r.None? then None else Some(Assign(e, current, r.value))
  {
  }

  /** One turn of `allocate`'s loop on the current interval; `None` is a panic. */
  method AllocateInterval(version: Version, settings: Settings, free: FreeRegisters, tables: Tables, interval: LiveInterval)
    returns (outcome: Option<Tables>)
    requires free.maxInt == settings.numIntRegisters && free.maxFloat == settings.numFloatRegisters
    modifies free
    ensures free.maxInt == settings.numIntRegisters && free.maxFloat == settings.numFloatRegisters
    ensures var step := Step(version, settings, ScanState(tables, old(free.State())), interval);
      outcome.Some? == step.Some? && (outcome.Some? ==> step.value == ScanState(outcome.value, free.State()))
  {
    ghost var before := ScanState(tables, free.State());
    var remaining := ExpireOldIntervals(tables.registers, tables.active, free, interval);
    if remaining.None? {
      return None;
    }
    var expired := tables.(active := remaining.value);
    ghost var e := ScanState(expired, free.State());
    assert Expire(before, interval) == Some(e);
    var t := TypeOf(interval);
    if ActiveCount(version, expired.active, t) == free.MaxForType(t) {
      outcome := SplitAtInterval(version, expired, interval);
      StepSplits(version, settings, before, interval, e, outcome);
    } else {
      var r := free.GetFreeRegister(t);
      StepTakesFree(version, settings, before, interval, e, r);
      if r.None? {
        return None;
      }
      outcome := Some(Tables(expired.registers[interval := r.value], expired.spilled, InsertByEndPoint(expired.active, interval)));
    }
  }

  /** Scanning one interval more is one more step. */
  lemma ScanStep(version: Version, settings: Settings, xs: seq<LiveInterval>, k: nat)
    requires k < |xs|
    ensures Scan(version, settings, xs[..k + 1]) ==
      match Scan(version, settings, xs[..k]) case None => None case Some(s) => Step(version, settings, s, xs[k])
  {
    assert xs[..k + 1][..k] == xs[..k];
  }

  /** `allocate`'s loop over the intervals in start order. */
  method ScanIntervals(version: Version, settings: Settings, free: FreeRegisters, sorted: seq<LiveInterval>) returns (outcome: Option<Tables>)
    requires free.State() == InitialFree(settings)
    requires free.maxInt == settings.numIntRegisters && free.maxFloat == settings.numFloatRegisters
    modifies free
    ensures var scan := Scan(version, settings, sorted); outcome.Some? == scan.Some? && (outcome.Some? ==> outcome.value == scan.value.tables)
  {
    var tables := Tables(map[], [], []);
    var k := 0;
    while k < |sorted|
      invariant k <= |sorted|
      invariant Scan(version, settings, sorted[..k]) == Some(ScanState(tables, free.State()))
      invariant free.maxInt == settings.numIntRegisters && free.maxFloat == settings.numFloatRegisters
    {
      ScanStep(version, settings, sorted, k);
      var next := AllocateInterval(version, settings, free, tables, sorted[k]);
      if next.None? {
        ScanNoneStays(version, settings, sorted, k + 1);
        return None;
      }
      tables := next.value;
      k := k + 1;
    }
    assert sorted[..k] == sorted;
    outcome := Some(tables);
  }

  /** `allocate`: the intervals in start order, each expiring the old ones and then split or given a free register. */
  method Allocate(version: Version, intervals: seq<LiveInterval>, settings: Settings) returns (outcome: Option<Tables>)
    ensures outcome == AllocateSpec(version, intervals, settings)
  {
    var free := new FreeRegisters(settings);
    outcome := ScanIntervals(version, settings, free, SortByStart(intervals));
  }

  // What the corrected allocator guarantees

  predicate Distinct(s: seq<LiveInterval>) {
    forall i, j :: 0 <= i < j < |s| ==> s[i] != s[j]
  }

  /** The active set is ordered, every active interval holds a register, and no two of a class hold the same one. */
  ghost predicate ActiveHeld(t: Tables) {
    && ByEndPoint(t.active)
    && (forall x :: x in t.active ==> x in t.registers)
    && (forall x, y :: x in t.active && y in t.active && x != y && SameClass(TypeOf(x), TypeOf(y)) ==> t.registers[x] != t.registers[y])
  }

  /**
   * The free registers of a class are below the class size and held by no active interval,
   * and together with the active intervals of the class they account for the whole class.
   */
  ghost predicate FreeAccounted(settings: Settings, s: ScanState) {
    && (forall f: bool :: CountClass(s.tables.active, f) + |s.free.ForClass(f)| == MaxForClass(settings, f))
    && (forall f: bool, r :: r in s.free.ForClass(f) ==> r < MaxForClass(settings, f))
    && (forall x :: x in s.tables.active && x in s.tables.registers ==> s.tables.registers[x] !in s.free.ForClass(IsFloat(TypeOf(x))))
  }

  /** Every assigned register exists in its class. */
  ghost predicate InRange(settings: Settings, registers: map<LiveInterval, nat>) {
    forall x :: x in registers ==> registers[x] < MaxForClass(settings, IsFloat(TypeOf(x)))
  }

  /** Intervals of a class that share a register are disjoint. */
  ghost predicate NoOverlap(registers: map<LiveInterval, nat>) {
    forall x, y :: x in registers && y in registers && x != y && SameClass(TypeOf(x), TypeOf(y)) && registers[x] == registers[y] ==>
      x.end < y.start || y.end < x.start
  }

  /** An interval that holds a register outside the active set ended before the horizon. */
  ghost predicate Retired(t: Tables, horizon: nat) {
    forall x :: x in t.registers && x !in t.active ==> x.end < horizon
  }

  /** Each interval seen so far is either assigned a register or spilled, and spilled once. */
  ghost predicate Partitioned(t: Tables, processed: seq<LiveInterval>) {
    && (forall x :: x in processed <==> x in t.registers || x in t.spilled)
    && (forall x :: x in t.registers ==> x !in t.spilled)
    && Distinct(t.spilled)
  }

  /** The invariant of the scan after the intervals `processed`, the last of which starts at `horizon`. */
  ghost predicate Inv(settings: Settings, s: ScanState, processed: seq<LiveInterval>, horizon: nat) {
    && ActiveHeld(s.tables)
    && FreeAccounted(settings, s)
    && InRange(settings, s.tables.registers)
    && NoOverlap(s.tables.registers)
    && Retired(s.tables, horizon)
    && Partitioned(s.tables, processed)
  }

  /** An ordered sequence repeats nothing. */
  lemma OrderedDistinct(s: seq<LiveInterval>)
    requires ByEndPoint(s)
    ensures Distinct(s)
  {
    forall i, j | 0 <= i < j < |s| ensures s[i] != s[j] {
      EndPointOrder(s[i], s[i], s[i]);
    }
  }

  /** The expired intervals end before `start`; the remaining ones, in order, do not. */
  lemma {:induction false} ExpiredCountFacts(active: seq<LiveInterval>, start: nat)
    requires ByEndPoint(active)
    ensures var n := ExpiredCount(active, start);
      (forall i :: 0 <= i < n ==> active[i].end < start) && (forall j :: n <= j < |active| ==> active[j].end >= start)
    decreases |active|
  {
    if |active| > 0 && active[0].end < start {
      ExpiredCountFacts(active[1..], start);
      assert forall i :: 0 <= i < |active[1..]| ==> active[1..][i] == active[i + 1];
    }
  }

  /** Some interval of `expired` of class `f` held register `r`. */
  ghost predicate ReleasedBy(expired: seq<LiveInterval>, registers: map<LiveInterval, nat>, f: bool, r: nat) {
    exists i :: 0 <= i < |expired| && expired[i] in registers && IsFloat(TypeOf(expired[i])) == f && registers[expired[i]] == r
  }

  lemma CountOne(x: LiveInterval, f: bool)
    ensures CountClass([x], f) == if IsFloat(TypeOf(x)) == f then 1 else 0
  {
    assert [x][1..] == [];
  }

  /** Intervals that all hold registers give back only those. */
  lemma {:induction false} ReleaseMembers(free: Free, expired: seq<LiveInterval>, registers: map<LiveInterval, nat>)
    requires forall i :: 0 <= i < |expired| ==> expired[i] in registers
    ensures Release(free, expired, registers).Some?
    ensures forall f, r :: r in Release(free, expired, registers).value.ForClass(f) ==> r in free.ForClass(f) || ReleasedBy(expired, registers, f, r)
    decreases |expired|
  {
    if |expired| > 0 {
      var n := |expired| - 1;
      var p := expired[..n];
      ReleaseMembers(free, p, registers);
      forall f, r | ReleasedBy(p, registers, f, r) ensures ReleasedBy(expired, registers, f, r) {
        var i :| 0 <= i < |p| && p[i] in registers && IsFloat(TypeOf(p[i])) == f && registers[p[i]] == r;
        assert expired[i] == p[i];
      }
    }
  }

  /** Intervals that hold distinct registers, none of them free, give back one register each. */
  lemma {:induction false} ReleaseSizes(free: Free, expired: seq<LiveInterval>, registers: map<LiveInterval, nat>)
    requires forall i :: 0 <= i < |expired| ==> expired[i] in registers && registers[expired[i]] !in free.ForClass(IsFloat(TypeOf(expired[i])))
    requires forall i, j :: 0 <= i < j < |expired| && SameClass(TypeOf(expired[i]), TypeOf(expired[j])) ==> registers[expired[i]] != registers[expired[j]]
    ensures Release(free, expired, registers).Some?
    ensures forall f :: |Release(free, expired, registers).value.ForClass(f)| == |free.ForClass(f)| + CountClass(expired, f)
    decreases |expired|
  {
    ReleaseMembers(free, expired, registers);
    if |expired| > 0 {
      var n := |expired| - 1;
      var p, x := expired[..n], expired[n];
      ReleaseSizes(free, p, registers);
      ReleaseMembers(free, p, registers);
      var c := IsFloat(TypeOf(x));
      forall i | 0 <= i < |p| && IsFloat(TypeOf(p[i])) == c ensures registers[p[i]] != registers[x] {
        assert expired[i] == p[i];
      }
      assert registers[x] !in Release(free, p, registers).value.ForClass(c);
      forall f ensures CountClass(expired, f) == CountClass(p, f) + (if c == f then 1 else 0) {
        CountSplit(expired, n, f);
        assert expired[n..] == [x];
        CountOne(x, f);
      }
    }
  }

  /** Dropping a prefix of the active set keeps it ordered and held. */
  lemma SuffixHeld(t: Tables, n: nat)
    requires ActiveHeld(t) && n <= |t.active|
    ensures ActiveHeld(t.(active := t.active[n..]))
  {
    var a, r := t.active, t.active[n..];
    forall i, j | 0 <= i < j < |r| ensures EndPointLess(r[i], r[j]) {
      assert r[i] == a[n + i] && r[j] == a[n + j];
    }
    forall y | y in r ensures y in a {
      var i :| 0 <= i < |r| && r[i] == y;
      assert a[n + i] == y;
    }
  }

  /** Dropping the active intervals that end before `start` moves the horizon to `start`. */
  lemma SuffixRetired(t: Tables, n: nat, horizon: nat, start: nat)
    requires Retired(t, horizon) && horizon <= start && n <= |t.active|
    requires forall i :: 0 <= i < n ==> t.active[i].end < start
    ensures Retired(t.(active := t.active[n..]), start)
  {
    forall j | n <= j < |t.active| ensures t.active[j] in t.active[n..] {
      assert t.active[n..][j - n] == t.active[j];
    }
  }

  /** The registers the expired prefix gives back keep the free table accounted for. */
  lemma ReleasedAccounted(settings: Settings, s: ScanState, n: nat, released: Free)
    requires ActiveHeld(s.tables) && FreeAccounted(settings, s) && InRange(settings, s.tables.registers)
    requires n <= |s.tables.active|
    requires forall f :: |released.ForClass(f)| == |s.free.ForClass(f)| + CountClass(s.tables.active[..n], f)
    requires forall f, r :: r in released.ForClass(f) ==> r in s.free.ForClass(f) || ReleasedBy(s.tables.active[..n], s.tables.registers, f, r)
    ensures FreeAccounted(settings, ScanState(s.tables.(active := s.tables.active[n..]), released))
  {
    forall f ensures CountClass(s.tables.active[n..], f) + |released.ForClass(f)| == MaxForClass(settings, f) {
      CountSplit(s.tables.active, n, f);
    }
    ReleasedBounded(settings, s.free, s.tables.active[..n], s.tables.registers, released);
    ReleasedNotHeld(s, n, released);
  }

  /** Registers given back by assigned intervals exist in their class. */
  lemma ReleasedBounded(settings: Settings, free: Free, expired: seq<LiveInterval>, registers: map<LiveInterval, nat>, released: Free)
    requires InRange(settings, registers)
    requires forall f: bool, r :: r in free.ForClass(f) ==> r < MaxForClass(settings, f)
    requires forall f, r :: r in released.ForClass(f) ==> r in free.ForClass(f) || ReleasedBy(expired, registers, f, r)
    ensures forall f: bool, r :: r in released.ForClass(f) ==> r < MaxForClass(settings, f)
  {
    forall f, r | r in released.ForClass(f) ensures r < MaxForClass(settings, f) {
      if r !in free.ForClass(f) {
        var i :| 0 <= i < |expired| && expired[i] in registers && IsFloat(TypeOf(expired[i])) == f && registers[expired[i]] == r;
      }
    }
  }

  /** The intervals that stay active hold none of the registers given back. */
  lemma ReleasedNotHeld(s: ScanState, n: nat, released: Free)
    requires ActiveHeld(s.tables) && n <= |s.tables.active|
    requires forall x :: x in s.tables.active ==> s.tables.registers[x] !in s.free.ForClass(IsFloat(TypeOf(x)))
    requires forall f, r :: r in released.ForClass(f) ==> r in s.free.ForClass(f) || ReleasedBy(s.tables.active[..n], s.tables.registers, f, r)
    ensures forall x :: x in s.tables.active[n..] ==> s.tables.registers[x] !in released.ForClass(IsFloat(TypeOf(x)))
  {
    var a, regs := s.tables.active, s.tables.registers;
    var p, rest := a[..n], a[n..];
    OrderedDistinct(a);
    forall y | y in rest ensures regs[y] !in released.ForClass(IsFloat(TypeOf(y))) {
      var j :| 0 <= j < |rest| && rest[j] == y;
      forall i | 0 <= i < |p| && IsFloat(TypeOf(p[i])) == IsFloat(TypeOf(y)) ensures regs[p[i]] != regs[y] {
        assert p[i] == a[i] && y == a[n + j];
      }
    }
  }

  /** Expiring keeps the invariant, with the horizon moved to the start of the current interval. */
  lemma ExpireKeeps(settings: Settings, s: ScanState, processed: seq<LiveInterval>, horizon: nat, current: LiveInterval)
    requires Inv(settings, s, processed, horizon) && horizon <= current.start
    ensures Expire(s, current).Some?
    ensures Inv(settings, Expire(s, current).value, processed, current.start)
  {
    var a, regs := s.tables.active, s.tables.registers;
    var n := ExpiredCount(a, current.start);
    var p := a[..n];
    ExpiredCountFacts(a, current.start);
    OrderedDistinct(a);
    forall i | 0 <= i < |p| ensures p[i] in regs && regs[p[i]] !in s.free.ForClass(IsFloat(TypeOf(p[i]))) {
      assert p[i] == a[i];
    }
    forall i, j | 0 <= i < j < |p| && SameClass(TypeOf(p[i]), TypeOf(p[j])) ensures regs[p[i]] != regs[p[j]] {
      assert p[i] == a[i] && p[j] == a[j];
    }
    ReleaseSizes(s.free, p, regs);
    ReleaseMembers(s.free, p, regs);
    ReleasedAccounted(settings, s, n, Release(s.free, p, regs).value);
    SuffixHeld(s.tables, n);
    SuffixRetired(s.tables, n, horizon, current.start);
  }

  /** A free register taken by an interval that is not yet active keeps the active set held. */
  lemma AssignHeld(settings: Settings, e: ScanState, current: LiveInterval, r: nat)
    requires ActiveHeld(e.tables) && FreeAccounted(settings, e)
    requires current !in e.tables.registers && r in e.free.ForClass(IsFloat(TypeOf(current)))
    ensures ActiveHeld(Assign(e, current, r).tables)
  {
    InsertKeepsOrder(e.tables.active, current);
  }

  /** Taking a free register moves it from the free table to the active set. */
  lemma AssignAccounted(settings: Settings, e: ScanState, current: LiveInterval, r: nat)
    requires ActiveHeld(e.tables) && FreeAccounted(settings, e)
    requires current !in e.tables.registers && r in e.free.ForClass(IsFloat(TypeOf(current)))
    ensures FreeAccounted(settings, Assign(e, current, r))
  {
    var c := IsFloat(TypeOf(current));
    InsertKeepsOrder(e.tables.active, current);
    forall f ensures |Assign(e, current, r).free.ForClass(f)| == |e.free.ForClass(f)| - (if f == c then 1 else 0) {
    }
  }

  /** A free register taken at the horizon exists in its class and keeps the class's intervals apart. */
  lemma AssignApart(settings: Settings, e: ScanState, current: LiveInterval, r: nat)
    requires InRange(settings, e.tables.registers) && NoOverlap(e.tables.registers)
    requires FreeAccounted(settings, e) && Retired(e.tables, current.start)
    requires current !in e.tables.registers && r in e.free.ForClass(IsFloat(TypeOf(current)))
    ensures InRange(settings, Assign(e, current, r).tables.registers)
    ensures NoOverlap(Assign(e, current, r).tables.registers)
  {
  }

  /** After an assignment the current interval is active and everything seen is assigned or spilled. */
  lemma AssignRest(settings: Settings, e: ScanState, processed: seq<LiveInterval>, current: LiveInterval, r: nat)
    requires ByEndPoint(e.tables.active) && Retired(e.tables, current.start)
    requires Partitioned(e.tables, processed) && current !in processed
    ensures Retired(Assign(e, current, r).tables, current.start)
    ensures Partitioned(Assign(e, current, r).tables, processed + [current])
  {
    InsertKeepsOrder(e.tables.active, current);
  }

  lemma AssignKeeps(settings: Settings, e: ScanState, processed: seq<LiveInterval>, current: LiveInterval)
    requires Inv(settings, e, processed, current.start) && current !in processed
    requires CountClass(e.tables.active, IsFloat(TypeOf(current))) != MaxForClass(settings, IsFloat(TypeOf(current)))
    ensures e.free.ForClass(IsFloat(TypeOf(current))) != {}
    ensures Inv(settings, Assign(e, current, Smallest(e.free.ForClass(IsFloat(TypeOf(current))))), processed + [current], current.start)
  {
    var r := Smallest(e.free.ForClass(IsFloat(TypeOf(current))));
    AssignHeld(settings, e, current, r);
    AssignAccounted(settings, e, current, r);
    AssignApart(settings, e, current, r);
    AssignRest(settings, e, processed, current, r);
  }

  /** The victim is the last active interval that passes the filter, and there is none only when none passes. */
  lemma {:induction false} LastMatchingFacts(version: Version, s: seq<LiveInterval>, t: TypeId)
    ensures LastMatching(version, s, t).None? <==> forall i :: 0 <= i < |s| ==> !Matches(version, TypeOf(s[i]), t)
    ensures LastMatching(version, s, t).Some? ==>
      (exists i :: 0 <= i < |s| && s[i] == LastMatching(version, s, t).value &&
         Matches(version, TypeOf(s[i]), t) && forall j :: i < j < |s| ==> !Matches(version, TypeOf(s[j]), t))
    decreases |s|
  {
    if |s| > 0 && !Matches(version, TypeOf(s[|s| - 1]), t) {
      var p := s[..|s| - 1];
      LastMatchingFacts(version, p, t);
      assert forall i :: 0 <= i < |p| ==> p[i] == s[i];
    }
  }

  /** A class that counts zero has no member. */
  lemma {:induction false} CountZeroAbsent(s: seq<LiveInterval>, f: bool)
    requires CountClass(s, f) == 0
    ensures forall i :: 0 <= i < |s| ==> IsFloat(TypeOf(s[i])) != f
  {
    if |s| > 0 {
      CountZeroAbsent(s[1..], f);
      assert forall i :: 1 <= i < |s| ==> s[i] == s[1..][i - 1];
    }
  }

  /** The victim outlives the current interval: it hands over its register and is spilled. */
  lemma SpillVictimHeld(e: ScanState, current: LiveInterval, v: LiveInterval)
    requires ActiveHeld(e.tables)
    requires current !in e.tables.registers && v in e.tables.active && SameClass(TypeOf(v), TypeOf(current))
    ensures ActiveHeld(SpillVictim(e.tables, current, v))
  {
    var a := e.tables.active;
    RemoveKeepsOrder(a, v);
    InsertKeepsOrder(RemoveFrom(a, v), current);
  }

  lemma SpillVictimAccounted(settings: Settings, e: ScanState, current: LiveInterval, v: LiveInterval)
    requires ActiveHeld(e.tables) && FreeAccounted(settings, e)
    requires current !in e.tables.registers && v in e.tables.active && SameClass(TypeOf(v), TypeOf(current))
    ensures FreeAccounted(settings, ScanState(SpillVictim(e.tables, current, v), e.free))
  {
    var a := e.tables.active;
    RemoveKeepsOrder(a, v);
    InsertKeepsOrder(RemoveFrom(a, v), current);
  }

  lemma SpillVictimRanges(settings: Settings, e: ScanState, processed: seq<LiveInterval>, current: LiveInterval, v: LiveInterval)
    requires InRange(settings, e.tables.registers) && Partitioned(e.tables, processed) && current !in processed
    requires v in e.tables.registers && SameClass(TypeOf(v), TypeOf(current))
    ensures InRange(settings, SpillVictim(e.tables, current, v).registers)
    ensures Partitioned(SpillVictim(e.tables, current, v), processed + [current])
  {
    var sp := e.tables.spilled + [v];
    assert forall i :: 0 <= i < |e.tables.spilled| ==> sp[i] == e.tables.spilled[i];
  }

  lemma SpillVictimApart(settings: Settings, e: ScanState, current: LiveInterval, v: LiveInterval)
    requires ActiveHeld(e.tables) && NoOverlap(e.tables.registers) && Retired(e.tables, current.start)
    requires current !in e.tables.registers && v in e.tables.active && SameClass(TypeOf(v), TypeOf(current))
    ensures NoOverlap(SpillVictim(e.tables, current, v).registers)
  {
  }

  lemma SpillVictimRetired(e: ScanState, current: LiveInterval, v: LiveInterval)
    requires ActiveHeld(e.tables) && Retired(e.tables, current.start) && v in e.tables.active
    ensures Retired(SpillVictim(e.tables, current, v), current.start)
  {
    var a := e.tables.active;
    RemoveKeepsOrder(a, v);
    InsertKeepsOrder(RemoveFrom(a, v), current);
  }

  /** The current interval does not outlive the victim: it is spilled itself. */
  lemma SpillCurrentKeeps(settings: Settings, e: ScanState, processed: seq<LiveInterval>, current: LiveInterval)
    requires Inv(settings, e, processed, current.start) && current !in processed
    ensures Inv(settings, ScanState(SpillCurrent(e.tables, current), e.free), processed + [current], current.start)
  {
    var sp := e.tables.spilled + [current];
    assert e.tables.registers - {current} == e.tables.registers;
    assert forall i :: 0 <= i < |e.tables.spilled| ==> sp[i] == e.tables.spilled[i];
  }

  lemma SpillVictimKeeps(settings: Settings, e: ScanState, processed: seq<LiveInterval>, current: LiveInterval, v: LiveInterval)
    requires Inv(settings, e, processed, current.start) && current !in processed
    requires v in e.tables.active && SameClass(TypeOf(v), TypeOf(current))
    ensures v in e.tables.registers
    ensures Inv(settings, ScanState(SpillVictim(e.tables, current, v), e.free), processed + [current], current.start)
  {
    SpillVictimHeld(e, current, v);
    SpillVictimAccounted(settings, e, current, v);
    SpillVictimRanges(settings, e, processed, current, v);
    SpillVictimApart(settings, e, current, v);
    SpillVictimRetired(e, current, v);
  }

  /** With its class full and holding registers, the class has an active interval to spill. */
  lemma VictimExists(settings: Settings, e: ScanState, current: LiveInterval)
    requires FreeAccounted(settings, e)
    requires CountClass(e.tables.active, IsFloat(TypeOf(current))) == MaxForClass(settings, IsFloat(TypeOf(current)))
    ensures var v := LastMatching(Corrected, e.tables.active, TypeOf(current));
      (v.Some? <==> MaxForClass(settings, IsFloat(TypeOf(current))) > 0) &&
      (v.Some? ==> v.value in e.tables.active && SameClass(TypeOf(v.value), TypeOf(current)))
  {
    var a, c := e.tables.active, IsFloat(TypeOf(current));
    LastMatchingFacts(Corrected, a, TypeOf(current));
    if MaxForClass(settings, c) == 0 {
      CountZeroAbsent(a, c);
    } else {
      CountedHasMember(a, c);
    }
  }

  /** With its class full, the split panics exactly when the class has no registers. */
  lemma SplitPanics(settings: Settings, e: ScanState, current: LiveInterval)
    requires FreeAccounted(settings, e) && ActiveHeld(e.tables)
    requires CountClass(e.tables.active, IsFloat(TypeOf(current))) == MaxForClass(settings, IsFloat(TypeOf(current)))
    ensures Split(Corrected, e.tables, current).Some? <==> MaxForClass(settings, IsFloat(TypeOf(current))) > 0
  {
    VictimExists(settings, e, current);
  }

  /** A split that does not panic keeps the invariant. */
  lemma SplitKeeps(settings: Settings, e: ScanState, processed: seq<LiveInterval>, current: LiveInterval, t: Tables)
    requires Inv(settings, e, processed, current.start) && current !in processed
    requires CountClass(e.tables.active, IsFloat(TypeOf(current))) == MaxForClass(settings, IsFloat(TypeOf(current)))
    requires Split(Corrected, e.tables, current) == Some(t)
    ensures Inv(settings, ScanState(t, e.free), processed + [current], current.start)
  {
    VictimExists(settings, e, current);
    var v := LastMatching(Corrected, e.tables.active, TypeOf(current)).value;
    if v.end > current.end {
      SpillVictimKeeps(settings, e, processed, current, v);
    } else {
      SpillCurrentKeeps(settings, e, processed, current);
    }
  }

  /** One turn of the corrected allocator panics exactly when the interval's class has no registers. */
  lemma StepPanics(settings: Settings, s: ScanState, processed: seq<LiveInterval>, horizon: nat, current: LiveInterval)
    requires Inv(settings, s, processed, horizon) && horizon <= current.start
    ensures Step(Corrected, settings, s, current).Some? <==> MaxForClass(settings, IsFloat(TypeOf(current))) > 0
  {
    ExpireKeeps(settings, s, processed, horizon, current);
    var e := Expire(s, current).value;
    var c := IsFloat(TypeOf(current));
    if CountClass(e.tables.active, c) == MaxForClass(settings, c) {
      SplitPanics(settings, e, current);
      StepSplits(Corrected, settings, s, current, e, Split(Corrected, e.tables, current));
    } else {
      assert |e.free.ForClass(c)| > 0;
      StepTakesFree(Corrected, settings, s, current, e, Some(Smallest(e.free.ForClass(c))));
    }
  }

  /** A turn of the corrected allocator that does not panic keeps the invariant. */
  lemma StepKeeps(settings: Settings, s: ScanState, processed: seq<LiveInterval>, horizon: nat, current: LiveInterval, next: ScanState)
    requires Inv(settings, s, processed, horizon) && horizon <= current.start && current !in processed
    requires Step(Corrected, settings, s, current) == Some(next)
    ensures Inv(settings, next, processed + [current], current.start)
  {
    ExpireKeeps(settings, s, processed, horizon, current);
    var e := Expire(s, current).value;
    var c := IsFloat(TypeOf(current));
    if CountClass(e.tables.active, c) == MaxForClass(settings, c) {
      var t := Split(Corrected, e.tables, current);
      StepSplits(Corrected, settings, s, current, e, t);
      SplitKeeps(settings, e, processed, current, t.value);
    } else {
      AssignKeeps(settings, e, processed, current);
      StepTakesFree(Corrected, settings, s, current, e, Some(Smallest(e.free.ForClass(c))));
    }
  }

  lemma InitialInv(settings: Settings)
    ensures Inv(settings, Initial(settings), [], 0)
  {
    SpanSize(0, settings.numIntRegisters);
    SpanSize(0, settings.numFloatRegisters);
  }

  predicate StartOrdered(s: seq<LiveInterval>) {
    forall i, j :: 0 <= i < j < |s| ==> s[i].start <= s[j].start
  }

  /** The start of the last interval scanned, or 0 before the first. */
  function Horizon(xs: seq<LiveInterval>, k: nat): nat
    requires k <= |xs|
  {
    if k == 0 then 0 else xs[k - 1].start
  }

  /** A distinct sequence does not repeat an element in its prefix. */
  lemma PrefixExcludes(xs: seq<LiveInterval>, k: nat)
    requires Distinct(xs) && k < |xs|
    ensures xs[k] !in xs[..k]
  {
    forall i | 0 <= i < k ensures xs[i] != xs[k] {
    }
    assert forall i :: 0 <= i < k ==> xs[..k][i] == xs[i];
  }

  /** Scanning the next interval of a distinct sequence in start order. */
  lemma ScanNext(settings: Settings, xs: seq<LiveInterval>, k: nat, prev: ScanState)
    requires k < |xs| && Distinct(xs) && StartOrdered(xs)
    requires Inv(settings, prev, xs[..k], Horizon(xs, k))
    ensures var r := Step(Corrected, settings, prev, xs[k]);
      (r.Some? <==> MaxForClass(settings, IsFloat(TypeOf(xs[k]))) > 0) &&
      (r.Some? ==> Inv(settings, r.value, xs[..k + 1], Horizon(xs, k + 1)))
  {
    PrefixExcludes(xs, k);
    StepPanics(settings, prev, xs[..k], Horizon(xs, k), xs[k]);
    var r := Step(Corrected, settings, prev, xs[k]);
    if r.Some? {
      StepKeeps(settings, prev, xs[..k], Horizon(xs, k), xs[k], r.value);
    }
    assert xs[..k] + [xs[k]] == xs[..k + 1];
  }

  /** The corrected scan over distinct intervals in start order panics exactly when an interval's class has no registers. */
  lemma {:induction false} ScanKeeps(settings: Settings, xs: seq<LiveInterval>, k: nat)
    requires k <= |xs| && Distinct(xs) && StartOrdered(xs)
    ensures var r := Scan(Corrected, settings, xs[..k]);
      (r.Some? <==> forall i :: 0 <= i < k ==> MaxForClass(settings, IsFloat(TypeOf(xs[i]))) > 0) &&
      (r.Some? ==> Inv(settings, r.value, xs[..k], Horizon(xs, k)))
    decreases k
  {
    if k == 0 {
      InitialInv(settings);
      assert xs[..0] == [];
    } else {
      ScanKeeps(settings, xs, k - 1);
      ScanStep(Corrected, settings, xs, k - 1);
      var prev := Scan(Corrected, settings, xs[..k - 1]);
      if prev.Some? {
        ScanNext(settings, xs, k - 1, prev.value);
      }
    }
  }

  lemma {:induction false} InsertByStartMembers(x: LiveInterval, s: seq<LiveInterval>)
    ensures multiset(InsertByStart(x, s)) == multiset(s) + multiset{x}
    ensures forall y :: y in InsertByStart(x, s) <==> y in s || y == x
  {
    if |s| > 0 && x.start > s[0].start {
      InsertByStartMembers(x, s[1..]);
      assert s == [s[0]] + s[1..];
    }
  }

  lemma {:induction false} InsertByStartOrdered(x: LiveInterval, s: seq<LiveInterval>)
    requires StartOrdered(s)
    ensures StartOrdered(InsertByStart(x, s))
  {
    if |s| > 0 && x.start > s[0].start {
      InsertByStartOrdered(x, s[1..]);
      InsertByStartMembers(x, s[1..]);
      var rest := InsertByStart(x, s[1..]);
      forall j | 0 <= j < |rest| ensures s[0].start <= rest[j].start {
        assert rest[j] in rest;
        if rest[j] != x {
          var i :| 0 <= i < |s[1..]| && s[1..][i] == rest[j];
          assert s[i + 1] == rest[j];
        }
      }
    }
  }

  lemma {:induction false} InsertByStartDistinct(x: LiveInterval, s: seq<LiveInterval>)
    requires Distinct(s) && x !in s
    ensures Distinct(InsertByStart(x, s))
  {
    if |s| > 0 && x.start > s[0].start {
      InsertByStartDistinct(x, s[1..]);
      InsertByStartMembers(x, s[1..]);
      var rest := InsertByStart(x, s[1..]);
      assert s[0] !in s[1..];
      forall j | 0 <= j < |rest| ensures rest[j] != s[0] {
        assert rest[j] in rest;
      }
    }
  }

  /** `sort_by_key(start)` orders by start and permutes the intervals. */
  lemma {:induction false} SortByStartFacts(xs: seq<LiveInterval>)
    ensures StartOrdered(SortByStart(xs))
    ensures multiset(SortByStart(xs)) == multiset(xs)
  {
    if |xs| > 0 {
      SortByStartFacts(xs[1..]);
      assert xs == [xs[0]] + xs[1..];
      InsertByStartOrdered(xs[0], SortByStart(xs[1..]));
      InsertByStartMembers(xs[0], SortByStart(xs[1..]));
    }
  }

  /** Sorting distinct intervals repeats none. */
  lemma {:induction false} SortByStartDistinct(xs: seq<LiveInterval>)
    requires Distinct(xs)
    ensures Distinct(SortByStart(xs))
  {
    if |xs| > 0 {
      SortByStartDistinct(xs[1..]);
      SortByStartFacts(xs[1..]);
      assert xs[0] !in xs[1..];
      assert xs[0] !in multiset(SortByStart(xs[1..]));
      InsertByStartDistinct(xs[0], SortByStart(xs[1..]));
    }
  }

  /**
   * The corrected allocator over distinct intervals: it panics exactly when some interval's class
   * has no registers; otherwise every interval is either assigned a register of its class or
   * spilled once, and intervals of a class that share a register do not overlap.
   */
  lemma AllocationSound(intervals: seq<LiveInterval>, settings: Settings)
    requires Distinct(intervals)
    ensures var r := AllocateSpec(Corrected, intervals, settings);
      (r.Some? <==> forall x :: x in intervals ==> MaxForClass(settings, IsFloat(TypeOf(x))) > 0) &&
      (r.Some? ==>
        (forall x :: x in intervals <==> x in r.value.registers || x in r.value.spilled) &&
        (forall x :: x in r.value.registers ==> x !in r.value.spilled) &&
        Distinct(r.value.spilled) && InRange(settings, r.value.registers) && NoOverlap(r.value.registers))
  {
    var sorted := SortByStart(intervals);
    SortByStartFacts(intervals);
    SortByStartDistinct(intervals);
    ScanKeeps(settings, sorted, |sorted|);
    assert sorted[..|sorted|] == sorted;
    assert forall x :: x in intervals <==> x in sorted by {
      forall x ensures x in intervals <==> x in sorted {
        assert x in intervals <==> x in multiset(intervals);
        assert x in sorted <==> x in multiset(sorted);
      }
    }
  }

  // With one value type the two versions agree

  /** Over intervals of one type the capacity check counts every interval. */
  lemma {:induction false} CountOneType(s: seq<LiveInterval>, t: TypeId)
    requires forall x :: x in s ==> TypeOf(x) == t
    ensures CountClass(s, IsFloat(t)) == |s|
  {
    if |s| > 0 {
      assert s[0] in s;
      assert forall x :: x in s[1..] ==> x in s;
      CountOneType(s[1..], t);
    }
  }

  /** Over intervals of one type the exact and the class filters pick the same victim. */
  lemma {:induction false} LastMatchingOneType(s: seq<LiveInterval>, t: TypeId)
    requires forall x :: x in s ==> TypeOf(x) == t
    ensures LastMatching(AsWritten, s, t) == LastMatching(Corrected, s, t)
    decreases |s|
  {
    if |s| > 0 {
      assert s[|s| - 1] in s;
      assert forall x :: x in s[..|s| - 1] ==> x in s;
      LastMatchingOneType(s[..|s| - 1], t);
    }
  }

  /** A turn on an interval of the same type as every active one is the same in both versions. */
  lemma StepOneType(settings: Settings, s: ScanState, current: LiveInterval)
    requires forall x :: x in s.tables.active ==> TypeOf(x) == TypeOf(current)
    ensures Step(AsWritten, settings, s, current) == Step(Corrected, settings, s, current)
  {
    var e := Expire(s, current);
    if e.Some? {
      var n := ExpiredCount(s.tables.active, current.start);
      assert e.value.tables.active == s.tables.active[n..];
      assert forall x :: x in s.tables.active[n..] ==> x in s.tables.active;
      CountOneType(e.value.tables.active, TypeOf(current));
      LastMatchingOneType(e.value.tables.active, TypeOf(current));
    }
  }

  /** The corrected scan over intervals of one type keeps only intervals of that type active. */
  lemma ScanActiveOneType(settings: Settings, xs: seq<LiveInterval>, t: TypeId, k: nat)
    requires k <= |xs| && Distinct(xs) && StartOrdered(xs)
    requires forall x :: x in xs ==> TypeOf(x) == t
    ensures var r := Scan(Corrected, settings, xs[..k]);
      r.Some? ==> forall x :: x in r.value.tables.active ==> TypeOf(x) == t
  {
    ScanKeeps(settings, xs, k);
    var r := Scan(Corrected, settings, xs[..k]);
    if r.Some? {
      forall x | x in r.value.tables.active ensures TypeOf(x) == t {
        assert x in xs[..k];
      }
    }
  }

  lemma ScanOneTypeNext(settings: Settings, xs: seq<LiveInterval>, t: TypeId, k: nat, prev: ScanState)
    requires k < |xs| && Distinct(xs) && StartOrdered(xs)
    requires forall x :: x in xs ==> TypeOf(x) == t
    requires Scan(Corrected, settings, xs[..k]) == Some(prev)
    ensures Step(AsWritten, settings, prev, xs[k]) == Step(Corrected, settings, prev, xs[k])
  {
    ScanActiveOneType(settings, xs, t, k);
    assert xs[k] in xs;
    StepOneType(settings, prev, xs[k]);
  }

  /** Over distinct intervals of one type in start order, the scan as written is the corrected scan. */
  lemma {:induction false} ScanOneType(settings: Settings, xs: seq<LiveInterval>, t: TypeId, k: nat)
    requires k <= |xs| && Distinct(xs) && StartOrdered(xs)
    requires forall x :: x in xs ==> TypeOf(x) == t
    ensures Scan(AsWritten, settings, xs[..k]) == Scan(Corrected, settings, xs[..k])
    decreases k
  {
    if k > 0 {
      ScanOneType(settings, xs, t, k - 1);
      ScanStep(AsWritten, settings, xs, k - 1);
      ScanStep(Corrected, settings, xs, k - 1);
      var prev := Scan(Corrected, settings, xs[..k - 1]);
      if prev.Some? {
        ScanOneTypeNext(settings, xs, t, k - 1, prev.value);
      }
    }
  }

  /** When every interval has one value type, `allocate` as written gives the corrected allocation. */
  lemma AllocateOneType(intervals: seq<LiveInterval>, settings: Settings, t: TypeId)
    requires Distinct(intervals)
    requires forall x :: x in intervals ==> TypeOf(x) == t
    ensures AllocateSpec(AsWritten, intervals, settings) == AllocateSpec(Corrected, intervals, settings)
  {
    var sorted := SortByStart(intervals);
    SortByStartFacts(intervals);
    SortByStartDistinct(intervals);
    forall x | x in sorted ensures TypeOf(x) == t {
      assert x in multiset(sorted);
      assert x in intervals;
    }
    ScanOneType(settings, sorted, t, |sorted|);
    assert sorted[..|sorted|] == sorted;
  }
}
