/**
 * Branch labels: every distinct branch target of a function's bytecode gets a label, numbered
 * 0, 1, 2, ... in order of first appearance, and a label marker in the compiled code can be found
 * again by its label.
 */
module Branches {
  import opened Wrappers
  import opened Program

  /** The branch target of an instruction, if it is a branch. */
  function BranchTarget(op: Op): (r: Option<nat>)
    ensures r.Some? <==> op.IsBranchInstruction()
    ensures r.Some? ==> r.value == op.target
  {
    if op.Branch? || op.BranchIf? then Some(op.target) else None
  }

  /** The branch targets of `instructions`, in instruction order, repeats included. */
  function TargetsOf(instructions: seq<Op>): seq<nat> {
    if |instructions| == 0 then []
    else
      var last := instructions[|instructions| - 1];
      TargetsOf(instructions[..|instructions| - 1]) + (if last.IsBranchInstruction() then [last.target] else [])
  }

  /** The labelling loop over `targets`: a target seen for the first time gets the next label. */
  function LabelTargets(labels: map<nat, nat>, next: nat, targets: seq<nat>): (map<nat, nat>, nat) {
    if |targets| == 0 then (labels, next)
    else
      var (l, n) := LabelTargets(labels, next, targets[..|targets| - 1]);
      var t := targets[|targets| - 1];
      if t in l then (l, n) else (l[t := n], n + 1)
  }

  /** The targets in order of first appearance. */
  function FirstAppearances(targets: seq<nat>): seq<nat> {
    if |targets| == 0 then []
    else
      var p := FirstAppearances(targets[..|targets| - 1]);
      var t := targets[|targets| - 1];
      if t in p then p else p + [t]
  }

  lemma TargetsOfStep(instructions: seq<Op>, i: nat)
    requires i < |instructions|
    ensures TargetsOf(instructions[..i + 1]) == TargetsOf(instructions[..i]) + (if instructions[i].IsBranchInstruction() then [instructions[i].target] else [])
  {
    assert instructions[..i + 1][..i] == instructions[..i];
  }

  lemma LabelTargetsStep(labels: map<nat, nat>, next: nat, targets: seq<nat>, t: nat)
    ensures var (l, n) := LabelTargets(labels, next, targets);
      LabelTargets(labels, next, targets + [t]) == if t in l then (l, n) else (l[t := n], n + 1)
  {
    assert (targets + [t])[..|targets|] == targets;
  }

  /** The labelling keeps the old labels' keys and adds exactly the targets. */
  lemma {:induction false} LabelTargetsKeys(labels: map<nat, nat>, next: nat, targets: seq<nat>)
    ensures forall t :: t in LabelTargets(labels, next, targets).0 <==> t in labels || t in targets
  {
    if |targets| > 0 {
      var prefix := targets[..|targets| - 1];
      LabelTargetsKeys(labels, next, prefix);
      assert targets == prefix + [targets[|targets| - 1]];
    }
  }

  /**
   * Starting from no labels, the labelling gives the `i`-th distinct target (in order of first
   * appearance) label `i`, labels exactly the targets, and leaves the counter at the number of
   * distinct targets.
   */
  lemma {:induction false} LabelsByFirstAppearance(targets: seq<nat>)
    ensures var (labels, next) := LabelTargets(map[], 0, targets); var f := FirstAppearances(targets);
      && next == |f|
      && (forall t :: t in labels <==> t in targets)
      && (forall t :: t in f <==> t in targets)
      && (forall i :: 0 <= i < |f| ==> f[i] in labels && labels[f[i]] == i)
      && (forall i, j :: 0 <= i < j < |f| ==> f[i] != f[j])
  {
    if |targets| > 0 {
      var prefix := targets[..|targets| - 1];
      LabelsByFirstAppearance(prefix);
      var t := targets[|targets| - 1];
      assert targets == prefix + [t];
      LabelTargetsStep(map[], 0, prefix, t);
      assert forall u :: u in targets <==> u in prefix || u == t;
      var (l, n) := LabelTargets(map[], 0, prefix);
      var p := FirstAppearances(prefix);
      assert t in l <==> t in p;
    }
  }

  /** Distinct targets get distinct labels. */
  lemma LabelsInjective(targets: seq<nat>, a: nat, b: nat)
    requires a in targets && b in targets && a != b
    ensures var labels := LabelTargets(map[], 0, targets).0; a in labels && b in labels && labels[a] != labels[b]
  {
    LabelsByFirstAppearance(targets);
    var f := FirstAppearances(targets);
    assert a in f && b in f;
    var i :| 0 <= i < |f| && f[i] == a;
    var j :| 0 <= j < |f| && f[j] == b;
  }

  class BranchManager {
    var branchTargets: set<nat>
    var branchLabels: map<nat, nat>
    var nextBranchLabel: nat

    /** Every recorded target has a label. */
    predicate Valid()
      reads this
    {
      branchTargets == branchLabels.Keys
    }

    constructor ()
      ensures Valid() && branchTargets == {} && branchLabels == map[] && nextBranchLabel == 0
    {
      branchTargets := {};
      branchLabels := map[];
      nextBranchLabel := 0;
    }

    /** Records every branch target and labels the ones not labelled yet. */
    method DefineBranchLabels(instructions: seq<Op>)
      requires Valid()
      modifies this
      ensures Valid()
      ensures forall t :: t in branchTargets <==> t in old(branchTargets) || t in TargetsOf(instructions)
      ensures (branchLabels, nextBranchLabel) == LabelTargets(old(branchLabels), old(nextBranchLabel), TargetsOf(instructions))
    {
      var i := 0;
      ghost var targets: seq<nat> := [];
      while i < |instructions|
        invariant 0 <= i <= |instructions|
        invariant targets == TargetsOf(instructions[..i])
        invariant branchLabels == LabelTargets(old(branchLabels), old(nextBranchLabel), targets).0
        invariant nextBranchLabel == LabelTargets(old(branchLabels), old(nextBranchLabel), targets).1
        invariant Valid()
      {
        TargetsOfStep(instructions, i);
        var target := BranchTarget(instructions[i]);
        if target.Some? {
          LabelTargetsStep(old(branchLabels), old(nextBranchLabel), targets, target.value);
          branchTargets := branchTargets + {target.value};
          if target.value !in branchLabels {
            var newLabel := nextBranchLabel;
            nextBranchLabel := nextBranchLabel + 1;
            branchLabels := branchLabels[target.value := newLabel];
          }
          targets := targets + [target.value];
        }
        i := i + 1;
      }
      assert instructions[..i] == instructions;
      LabelTargetsKeys(old(branchLabels), old(nextBranchLabel), targets);
    }

    /** The label of instruction index `i` if some branch targets it. */
    function IsBranch(i: nat): (r: Option<nat>)
      requires Valid()
      reads this
      ensures r.Some? <==> i in branchTargets
      ensures r.Some? ==> r.value == branchLabels[i]
    {
      if i in branchTargets then Some(branchLabels[i]) else None
    }

    /** The label of a branch target, `None` for a target never seen. */
    function GetLabel(target: nat): (r: Option<nat>)
      reads this
      ensures r.Some? <==> target in branchLabels
      ensures r.Some? ==> r.value == branchLabels[target]
    {
      if target in branchLabels then Some(branchLabels[target]) else None
    }
  }

  /** A fresh manager after one labelling pass labels targets by first appearance. */
  method NewBranchManager(instructions: seq<Op>) returns (m: BranchManager)
    ensures fresh(m) && m.Valid()
    ensures var f := FirstAppearances(TargetsOf(instructions));
      && m.nextBranchLabel == |f|
      && (forall t :: t in m.branchTargets <==> t in TargetsOf(instructions))
      && forall i :: 0 <= i < |f| ==> m.IsBranch(f[i]) == Some(i) && m.GetLabel(f[i]) == Some(i)
  {
    m := new BranchManager();
    m.DefineBranchLabels(instructions);
    LabelsByFirstAppearance(TargetsOf(instructions));
  }

  /**
   * The label-to-index map over compiled code: `labelOf` reads the label of a label marker.
   * A later marker with the same label overwrites an earlier one.
   */
  function LabelMapping<T>(instructions: seq<T>, labelOf: T -> Option<nat>): map<nat, nat> {
    if |instructions| == 0 then map[]
    else
      var k := |instructions| - 1;
      var m := LabelMapping(instructions[..k], labelOf);
      if labelOf(instructions[k]).Some? then m[labelOf(instructions[k]).value := k] else m
  }

  /** A key is mapped iff some marker carries that label, and then to the last such marker. */
  lemma {:induction false} LabelMappingMeaning<T>(instructions: seq<T>, labelOf: T -> Option<nat>, key: nat)
    ensures var m := LabelMapping(instructions, labelOf);
      && (key in m <==> exists k :: 0 <= k < |instructions| && labelOf(instructions[k]) == Some(key))
      && (key in m ==>
        && m[key] < |instructions| && labelOf(instructions[m[key]]) == Some(key)
        && forall k :: m[key] < k < |instructions| ==> labelOf(instructions[k]) != Some(key))
  {
    if |instructions| > 0 {
      var k := |instructions| - 1;
      LabelMappingMeaning(instructions[..k], labelOf, key);
      assert forall j :: 0 <= j < k ==> instructions[..k][j] == instructions[j];
      if labelOf(instructions[k]) != Some(key) {
        var m := LabelMapping(instructions[..k], labelOf);
        if exists j :: 0 <= j < |instructions| && labelOf(instructions[j]) == Some(key) {
          var j :| 0 <= j < |instructions| && labelOf(instructions[j]) == Some(key);
          assert j < k;
          assert labelOf(instructions[..k][j]) == Some(key);
        }
      }
    }
  }

  /** Fills the label-to-index map in one pass over the code. */
  method CreateLabelMapping<T>(instructions: seq<T>, labelOf: T -> Option<nat>) returns (mapping: map<nat, nat>)
    ensures mapping == LabelMapping(instructions, labelOf)
  {
    mapping := map[];
    var i := 0;
    while i < |instructions|
      invariant 0 <= i <= |instructions|
      invariant mapping == LabelMapping(instructions[..i], labelOf)
    {
      assert instructions[..i + 1][..i] == instructions[..i];
      var found := labelOf(instructions[i]);
      if found.Some? {
        mapping := mapping[found.value := i];
      }
      i := i + 1;
    }
    assert instructions[..i] == instructions;
  }
}
