/**
 * The control-flow graph over basic blocks: one vertex per block, and an edge from a block to
 * each block control can pass to from its last instruction: the branch target's block, the block
 * that starts right after it (its fall-through), both for a conditional branch, and none after a
 * return. The edges leaving a block are kept as a set under the block's index.
 */
module ControlFlowGraphs {
  import opened Wrappers
  import opened Ranges
  import opened Branches
  import opened BasicBlocks

  datatype Edge = Edge(from: nat, to: nat)

  datatype ControlFlowGraph = ControlFlowGraph(vertices: seq<nat>, edges: map<nat, set<Edge>>)

  function BlockStart(b: BasicBlock): Option<nat> {
    Some(b.startOffset)
  }

  /** The start-offset-to-block map; a later block with the same start offset wins. */
  function StartOffsets(blocks: seq<BasicBlock>): map<nat, nat> {
    LabelMapping(blocks, BlockStart)
  }

  /** An offset is mapped exactly when a block starts there, and then to the last such block. */
  lemma StartOffsetsMeaning(blocks: seq<BasicBlock>, offset: nat)
    ensures offset in StartOffsets(blocks) <==> exists b :: 0 <= b < |blocks| && blocks[b].startOffset == offset
    ensures offset in StartOffsets(blocks) ==>
      var b := StartOffsets(blocks)[offset];
      && b < |blocks| && blocks[b].startOffset == offset
      && forall c :: b < c < |blocks| ==> blocks[c].startOffset != offset
  {
    LabelMappingMeaning(blocks, BlockStart, offset);
    if exists b :: 0 <= b < |blocks| && blocks[b].startOffset == offset {
      var b :| 0 <= b < |blocks| && blocks[b].startOffset == offset;
      assert BlockStart(blocks[b]) == Some(offset);
    }
  }

  /** The offset just past a block: where control falls through to. */
  function FallThrough(b: BasicBlock): nat {
    b.startOffset + |b.instructions|
  }

  /**
   * The blocks control can pass to from block `b`, in the order the edges are added; `None` where
   * the source panics: an empty block, a last index outside the code, an unmapped label, or an
   * offset at which no block starts.
   */
  function Successors(blocks: seq<BasicBlock>, flows: seq<Flow>, labels: map<nat, nat>, starts: map<nat, nat>, b: nat): Option<seq<nat>>
    requires b < |blocks|
  {
    var last :- blocks[b].Last();
    if last >= |flows| then None
    else
      var fall := FallThrough(blocks[b]);
      match flows[last]
      case Jump(l) =>
        if l in labels && labels[l] in starts then Some([starts[labels[l]]]) else None
      case JumpIf(l) =>
        if l in labels && labels[l] in starts && fall in starts then Some([starts[labels[l]], starts[fall]]) else None
      case Exit => Some([])
      case _ => if fall in starts then Some([starts[fall]]) else None
  }

  /** `add_edge`: the edge joins the set kept under its source block, which is created on first use. */
  function AddEdge(edges: map<nat, set<Edge>>, from: nat, to: nat): map<nat, set<Edge>> {
    edges[from := (if from in edges then edges[from] else {}) + {Edge(from, to)}]
  }

  function AddEdges(edges: map<nat, set<Edge>>, from: nat, targets: seq<nat>): map<nat, set<Edge>> {
    if |targets| == 0 then edges
    else AddEdge(AddEdges(edges, from, targets[..|targets| - 1]), from, targets[|targets| - 1])
  }

  /** The edges of the first `k` blocks. */
  function EdgesUpTo(blocks: seq<BasicBlock>, flows: seq<Flow>, labels: map<nat, nat>, k: nat): Option<map<nat, set<Edge>>>
    requires k <= |blocks|
  {
    if k == 0 then Some(map[])
    else
      var edges :- EdgesUpTo(blocks, flows, labels, k - 1);
      var targets :- Successors(blocks, flows, labels, StartOffsets(blocks), k - 1);
      Some(AddEdges(edges, k - 1, targets))
  }

  /** The graph of the blocks of `flows` under the label map `labels`; `None` where the source panics. */
  function GraphOf(blocks: seq<BasicBlock>, flows: seq<Flow>, labels: map<nat, nat>): Option<ControlFlowGraph> {
    var edges :- EdgesUpTo(blocks, flows, labels, |blocks|);
    Some(ControlFlowGraph(Range(0, |blocks|), edges))
  }

  /** Builds the graph: the start-offset map first, then the edges block by block. */
  method NewGraph(blocks: seq<BasicBlock>, flows: seq<Flow>, labels: map<nat, nat>) returns (g: Option<ControlFlowGraph>)
    ensures g == GraphOf(blocks, flows, labels)
  {
    var vertices: seq<nat> := [];
    var v := 0;
    while v < |blocks|
      invariant 0 <= v <= |blocks|
      invariant vertices == Range(0, v)
    {
      RangeSplit(0, v, v + 1);
      vertices := vertices + [v];
      v := v + 1;
    }
    var starts := CreateLabelMapping(blocks, BlockStart);
    var edges: map<nat, set<Edge>> := map[];
    var blockIndex := 0;
    while blockIndex < |blocks|
      invariant 0 <= blockIndex <= |blocks|
      invariant EdgesUpTo(blocks, flows, labels, blockIndex) == Some(edges)
    {
      var block := blocks[blockIndex];
      var targets := Successors(blocks, flows, labels, starts, blockIndex);
      if targets.None? {
        EdgesFailureStays(blocks, flows, labels, blockIndex + 1, |blocks|);
        return None;
      }
      var i := 0;
      ghost var before := edges;
      while i < |targets.value|
        invariant 0 <= i <= |targets.value|
        invariant edges == AddEdges(before, blockIndex, targets.value[..i])
      {
        assert targets.value[..i + 1][..i] == targets.value[..i];
        edges := AddEdge(edges, blockIndex, targets.value[i]);
        i := i + 1;
      }
      assert targets.value[..i] == targets.value;
      blockIndex := blockIndex + 1;
    }
    g := Some(ControlFlowGraph(vertices, edges));
  }

  lemma {:induction false} EdgesFailureStays(blocks: seq<BasicBlock>, flows: seq<Flow>, labels: map<nat, nat>, i: nat, k: nat)
    requires i <= k <= |blocks| && EdgesUpTo(blocks, flows, labels, i).None?
    ensures EdgesUpTo(blocks, flows, labels, k).None?
    decreases k - i
  {
    if i < k {
      EdgesFailureStays(blocks, flows, labels, i + 1, k);
    }
  }

  /** Adding a block's edges touches only that block's entry, which gains exactly the edges to the targets. */
  lemma {:induction false} AddEdgesMeaning(edges: map<nat, set<Edge>>, from: nat, targets: seq<nat>)
    ensures var r := AddEdges(edges, from, targets);
      && (forall b :: b in r <==> b in edges || (b == from && |targets| > 0))
      && (forall b :: b in edges && b != from ==> r[b] == edges[b])
      && (from in r ==> forall e :: e in r[from] <==> (from in edges && e in edges[from]) || (e.from == from && e.to in targets))
  {
    if |targets| > 0 {
      var prefix := targets[..|targets| - 1];
      AddEdgesMeaning(edges, from, prefix);
      assert targets == prefix + [targets[|targets| - 1]];
    }
  }

  /** The edges of the first `k` blocks exist exactly when none of those blocks makes the source panic. */
  lemma {:induction false} EdgesExist(blocks: seq<BasicBlock>, flows: seq<Flow>, labels: map<nat, nat>, k: nat)
    requires k <= |blocks|
    ensures EdgesUpTo(blocks, flows, labels, k).Some? <==>
      forall b :: 0 <= b < k ==> Successors(blocks, flows, labels, StartOffsets(blocks), b).Some?
  {
    if k > 0 {
      EdgesExist(blocks, flows, labels, k - 1);
    }
  }

  /**
   * A block has an entry exactly when it has a successor, and its entry holds an edge to each
   * successor and nothing else: repeated targets collapse into one edge.
   */
  lemma {:induction false} EdgesMeaning(blocks: seq<BasicBlock>, flows: seq<Flow>, labels: map<nat, nat>, k: nat)
    requires k <= |blocks| && EdgesUpTo(blocks, flows, labels, k).Some?
    ensures var edges := EdgesUpTo(blocks, flows, labels, k).value;
      forall b: nat :: b in edges <==> b < k && Successors(blocks, flows, labels, StartOffsets(blocks), b) != Some([])
    ensures var edges := EdgesUpTo(blocks, flows, labels, k).value;
      forall b, e :: b in edges ==> var targets := Successors(blocks, flows, labels, StartOffsets(blocks), b);
        targets.Some? && (e in edges[b] <==> e.from == b && e.to in targets.value)
  {
    if k > 0 {
      var prev := EdgesUpTo(blocks, flows, labels, k - 1);
      var targets := Successors(blocks, flows, labels, StartOffsets(blocks), k - 1);
      EdgesExist(blocks, flows, labels, k);
      EdgesMeaning(blocks, flows, labels, k - 1);
      AddEdgesMeaning(prev.value, k - 1, targets.value);
    }
  }

  /** The vertices are the block indices 0..|blocks|-1, in order. */
  lemma GraphVertices(blocks: seq<BasicBlock>, flows: seq<Flow>, labels: map<nat, nat>)
    requires GraphOf(blocks, flows, labels).Some?
    ensures var g := GraphOf(blocks, flows, labels).value;
      && |g.vertices| == |blocks|
      && forall v :: 0 <= v < |g.vertices| ==> g.vertices[v] == v
  {
  }

  /** The edge set of block `b` in the whole graph. */
  lemma GraphEdges(blocks: seq<BasicBlock>, flows: seq<Flow>, labels: map<nat, nat>, b: nat)
    requires GraphOf(blocks, flows, labels).Some? && b < |blocks|
    ensures var edges := GraphOf(blocks, flows, labels).value.edges;
      var targets := Successors(blocks, flows, labels, StartOffsets(blocks), b);
      && targets.Some?
      && (b in edges <==> |targets.value| > 0)
      && (b in edges ==> forall e :: e in edges[b] <==> e.from == b && e.to in targets.value)
  {
    EdgesExist(blocks, flows, labels, |blocks|);
    EdgesMeaning(blocks, flows, labels, |blocks|);
  }

  /** A block ending in an unconditional branch has one successor: the block starting at the label's instruction. */
  lemma BranchSuccessor(blocks: seq<BasicBlock>, flows: seq<Flow>, labels: map<nat, nat>, b: nat)
    requires b < |blocks|
    requires Successors(blocks, flows, labels, StartOffsets(blocks), b).Some?
    requires flows[blocks[b].Last().value].Jump?
    ensures var targets := Successors(blocks, flows, labels, StartOffsets(blocks), b).value;
      var l := flows[blocks[b].Last().value].branchLabel;
      && |targets| == 1 && l in labels
      && targets[0] < |blocks| && blocks[targets[0]].startOffset == labels[l]
  {
    var l := flows[blocks[b].Last().value].branchLabel;
    StartOffsetsMeaning(blocks, labels[l]);
  }

  /** A block ending in a conditional branch goes to the target's block and to the block right after it. */
  lemma ConditionalSuccessors(blocks: seq<BasicBlock>, flows: seq<Flow>, labels: map<nat, nat>, b: nat)
    requires b < |blocks|
    requires Successors(blocks, flows, labels, StartOffsets(blocks), b).Some?
    requires flows[blocks[b].Last().value].JumpIf?
    ensures var targets := Successors(blocks, flows, labels, StartOffsets(blocks), b).value;
      var l := flows[blocks[b].Last().value].branchLabel;
      && |targets| == 2 && l in labels
      && targets[0] < |blocks| && blocks[targets[0]].startOffset == labels[l]
      && targets[1] < |blocks| && blocks[targets[1]].startOffset == FallThrough(blocks[b])
  {
    var l := flows[blocks[b].Last().value].branchLabel;
    StartOffsetsMeaning(blocks, labels[l]);
    StartOffsetsMeaning(blocks, FallThrough(blocks[b]));
  }

  /** A block ending in a return has no successor. */
  lemma ReturnNoSuccessor(blocks: seq<BasicBlock>, flows: seq<Flow>, labels: map<nat, nat>, b: nat)
    requires b < |blocks|
    requires Successors(blocks, flows, labels, StartOffsets(blocks), b).Some?
    requires flows[blocks[b].Last().value].Exit?
    ensures Successors(blocks, flows, labels, StartOffsets(blocks), b).value == []
  {
  }

  /**
   * Any other last instruction falls through to the block starting right after; where no block
   * starts there the graph cannot be built.
   */
  lemma FallThroughSuccessor(blocks: seq<BasicBlock>, flows: seq<Flow>, labels: map<nat, nat>, b: nat)
    requires b < |blocks| && |blocks[b].instructions| > 0
    requires blocks[b].Last().value < |flows| && !flows[blocks[b].Last().value].EndsBlock()
    ensures var targets := Successors(blocks, flows, labels, StartOffsets(blocks), b);
      && (targets.Some? <==> exists c :: 0 <= c < |blocks| && blocks[c].startOffset == FallThrough(blocks[b]))
      && (targets.Some? ==> |targets.value| == 1 && targets.value[0] < |blocks| && blocks[targets.value[0]].startOffset == FallThrough(blocks[b]))
  {
    StartOffsetsMeaning(blocks, FallThrough(blocks[b]));
  }

  /** A conditional branch to the instruction right after its block gives that block a single edge. */
  lemma DuplicateEdgesCollapse(blocks: seq<BasicBlock>, flows: seq<Flow>, labels: map<nat, nat>, b: nat)
    requires GraphOf(blocks, flows, labels).Some? && b < |blocks| && |blocks[b].instructions| > 0
    requires blocks[b].Last().value < |flows| && flows[blocks[b].Last().value].JumpIf?
    requires flows[blocks[b].Last().value].branchLabel in labels
    requires labels[flows[blocks[b].Last().value].branchLabel] == FallThrough(blocks[b])
    ensures var edges := GraphOf(blocks, flows, labels).value.edges;
      b in edges && |edges[b]| == 1
  {
    GraphEdges(blocks, flows, labels, b);
    var edges := GraphOf(blocks, flows, labels).value.edges;
    var targets := Successors(blocks, flows, labels, StartOffsets(blocks), b).value;
    assert targets[0] == targets[1];
    assert edges[b] == {Edge(b, targets[0])};
  }

  /** The blocks with an edge into `b`, read off the graph's edge sets. */
  function Predecessors(g: ControlFlowGraph, b: nat): (r: set<nat>)
    ensures forall p :: p in r <==> p in g.edges && Edge(p, b) in g.edges[p]
  {
    set p | p in g.edges && Edge(p, b) in g.edges[p]
  }

  /**
   * The edges turned around and kept under the block they enter: an edge `Edge(b, p)` under `b`
   * says that `p` is a predecessor of `b`.
   */
  function BackEdges(g: ControlFlowGraph): (r: map<nat, set<Edge>>)
    ensures forall b, p :: (b in r && Edge(b, p) in r[b]) <==> p in g.edges && Edge(p, b) in g.edges[p]
    ensures forall b, e :: b in r && e in r[b] ==> e.from == b
  {
    var targets := set p, e | p in g.edges && e in g.edges[p] :: e.to;
    map b | b in targets :: set p | p in Predecessors(g, b) :: Edge(b, p)
  }
}
