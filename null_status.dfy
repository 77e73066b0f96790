/**
 * The register null status shared by both null-check analyses. Each map says, for the registers
 * it knows about, whether the register may hold null (`true`) or certainly holds an object
 * reference (`false`). An instruction acts on the map through an `Effect`; a block is analysed by
 * recording the map before each of its instructions and then applying that instruction's effect.
 */
module NullStatuses {
  import opened Wrappers

  type Status<R(==)> = map<R, bool>

  /**
   * What an instruction does to the status map: nothing, mark a register may-be-null or
   * non-null, copy one register's status to another (which fails when the source has none), or
   * fail outright.
   */
  datatype Effect<R> = Keep | MayBeNull(reg: R) | NonNull(reg: R) | CopyStatus(dest: R, source: R) | Fault

  function Apply<R(==)>(e: Effect<R>, s: Status<R>): (r: Option<Status<R>>)
    ensures r.None? <==> e.Fault? || (e.CopyStatus? && e.source !in s)
    ensures r.Some? && e.Keep? ==> r.value == s
    ensures r.Some? && e.MayBeNull? ==> r.value == s[e.reg := true]
    ensures r.Some? && e.NonNull? ==> r.value == s[e.reg := false]
    ensures r.Some? && e.CopyStatus? ==> r.value == s[e.dest := s[e.source]]
  {
    match e
    case Keep => Some(s)
    case MayBeNull(x) => Some(s[x := true])
    case NonNull(x) => Some(s[x := false])
    case CopyStatus(d, source) => if source in s then Some(s[d := s[source]]) else None
    case Fault => None
  }

  /** The statuses recorded before each instruction of a block, and the status after its last one. */
  datatype BlockResult<R(==)> = BlockResult(statuses: seq<Status<R>>, exit: Status<R>)

  /** Running a block's effects from `start`; `None` when one of them fails. */
  function Run<R(==)>(start: Status<R>, effects: seq<Effect<R>>): (r: Option<BlockResult<R>>)
    ensures r.Some? ==> |r.value.statuses| == |effects|
    ensures r.Some? && |effects| > 0 ==> r.value.statuses[0] == start
    ensures |effects| == 0 ==> r == Some(BlockResult([], start))
    decreases |effects|
  {
    if |effects| == 0 then Some(BlockResult([], start))
    else
      match Run(start, effects[..|effects| - 1])
      case None => None
      case Some(prev) =>
        match Apply(effects[|effects| - 1], prev.exit)
        case None => None
        case Some(next) => Some(BlockResult(prev.statuses + [prev.exit], next))
  }

  /**
   * Running a prefix of the effects gives a prefix of the statuses, and the status recorded before
   * effect `k` is exactly the exit status of the first `k` effects.
   */
  lemma {:induction false} RunPrefix<R>(start: Status<R>, effects: seq<Effect<R>>, k: nat)
    requires k <= |effects| && Run(start, effects).Some?
    ensures Run(start, effects[..k]).Some?
    ensures Run(start, effects[..k]).value.statuses == Run(start, effects).value.statuses[..k]
    ensures k < |effects| ==> Run(start, effects).value.statuses[k] == Run(start, effects[..k]).value.exit
    decreases |effects|
  {
    if k < |effects| {
      var n := |effects|;
      var shorter := effects[..n - 1];
      assert shorter[..k] == effects[..k];
      RunPrefix(start, shorter, k);
      if k == n - 1 {
        assert effects[..k] == shorter;
      }
    } else {
      assert effects[..k] == effects;
    }
  }

  /** Effect `k` is reached and fails on the status recorded before it. */
  ghost predicate FailsAt<R>(start: Status<R>, effects: seq<Effect<R>>, k: nat) {
    k < |effects| && Run(start, effects[..k]).Some? && Apply(effects[k], Run(start, effects[..k]).value.exit).None?
  }

  /** A run fails exactly when some effect fails on the status recorded before it. */
  lemma {:induction false} RunFailure<R>(start: Status<R>, effects: seq<Effect<R>>)
    ensures Run(start, effects).None? <==> exists k: nat :: FailsAt(start, effects, k)
    decreases |effects|
  {
    if |effects| > 0 {
      var n := |effects|;
      var shorter := effects[..n - 1];
      RunFailure(start, shorter);
      assert effects[..n - 1] == shorter;
      if Run(start, shorter).None? {
        var k: nat :| FailsAt(start, shorter, k);
        assert shorter[..k] == effects[..k];
        assert FailsAt(start, effects, k);
      } else if Run(start, effects).None? {
        assert FailsAt(start, effects, n - 1);
      } else {
        forall k: nat | FailsAt(start, effects, k) ensures false {
          if k < n - 1 {
            assert shorter[..k] == effects[..k];
            assert FailsAt(start, shorter, k);
          }
        }
      }
    }
  }

  /** One more effect taken: its status before is the previous exit, and its result the new exit. */
  lemma RunStep<R>(start: Status<R>, effects: seq<Effect<R>>, k: nat)
    requires k < |effects| && Run(start, effects[..k]).Some? && Apply(effects[k], Run(start, effects[..k]).value.exit).Some?
    ensures Run(start, effects[..k + 1]) ==
      Some(BlockResult(Run(start, effects[..k]).value.statuses + [Run(start, effects[..k]).value.exit],
                       Apply(effects[k], Run(start, effects[..k]).value.exit).value))
  {
    assert effects[..k + 1][..k] == effects[..k];
  }

  /** A run that has recorded `expected` so far, taking one more effect that produces the next expected status. */
  lemma Advance<R>(start: Status<R>, effects: seq<Effect<R>>, expected: seq<Status<R>>, k: nat)
    requires k < |effects| && k + 1 < |expected|
    requires Run(start, effects[..k]) == Some(BlockResult(expected[..k], expected[k]))
    requires Apply(effects[k], expected[k]) == Some(expected[k + 1])
    ensures Run(start, effects[..k + 1]) == Some(BlockResult(expected[..k + 1], expected[k + 1]))
  {
    RunStep(start, effects, k);
    assert expected[..k + 1] == expected[..k] + [expected[k]];
  }
}
