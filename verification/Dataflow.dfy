/** The static shape of a run: executions with named ports, and the channels that wire them. */
module Dataflow {
  import opened Wrappers

  datatype Node = Node(ins: seq<string>, outs: seq<string>)

  datatype Wire = Wire(source: nat, sourcePort: string, target: nat, targetPort: string)

  /** `compute(e, j, inputs)` is what execution `e` writes on its `j`-th out-port for these inputs. */
  datatype Graph = Graph(nodes: seq<Node>, wires: seq<Wire>, compute: (nat, nat, seq<Table>) -> Table)

  /** Position of the first occurrence of `name`, or the length of `names`. */
  function FirstIndex(names: seq<string>, name: string): (i: nat)
    ensures i <= |names|
    ensures i < |names| ==> names[i] == name
    ensures name !in names[..i]
  {
    if names == [] || names[0] == name then 0 else 1 + FirstIndex(names[1..], name)
  }

  ghost predicate Distinct(names: seq<string>) {
    forall i, j :: 0 <= i < j < |names| ==> names[i] != names[j]
  }

  ghost predicate Closed(g: Graph) {
    forall k :: 0 <= k < |g.wires| ==>
      && g.wires[k].source < |g.nodes| && g.wires[k].target < |g.nodes|
      && g.wires[k].sourcePort in g.nodes[g.wires[k].source].outs
      && g.wires[k].targetPort in g.nodes[g.wires[k].target].ins
  }

  ghost predicate Feeds(g: Graph, k: nat, e: nat, p: nat)
    requires e < |g.nodes| && p < |g.nodes[e].ins|
  {
    k < |g.wires| && g.wires[k].target == e && g.wires[k].targetPort == g.nodes[e].ins[p]
  }

  ghost predicate Fed(g: Graph, e: nat, p: nat)
    requires e < |g.nodes| && p < |g.nodes[e].ins|
  {
    exists k: nat :: Feeds(g, k, e, p)
  }

  ghost predicate Ranked(g: Graph, rank: seq<nat>)
    requires Closed(g)
  {
    |rank| == |g.nodes| && forall k :: 0 <= k < |g.wires| ==> rank[g.wires[k].source] < rank[g.wires[k].target]
  }

  /** Port names are distinct, every in-port has exactly one channel, and there is no cycle. */
  ghost predicate WellWired(g: Graph) {
    && Closed(g)
    && (forall e :: 0 <= e < |g.nodes| ==>
          Distinct(g.nodes[e].ins) && Distinct(g.nodes[e].outs) && g.nodes[e].outs != [])
    && (forall e, p :: 0 <= e < |g.nodes| && 0 <= p < |g.nodes[e].ins| ==> Fed(g, e, p))
    && (forall k, l :: 0 <= k < l < |g.wires| ==>
          g.wires[k].target != g.wires[l].target || g.wires[k].targetPort != g.wires[l].targetPort)
    && (exists rank :: Ranked(g, rank))
  }

  ghost function Feeder(g: Graph, e: nat, p: nat): (k: nat)
    requires WellWired(g) && e < |g.nodes| && p < |g.nodes[e].ins|
    ensures Feeds(g, k, e, p)
  {
    assert Fed(g, e, p);
    var k: nat :| Feeds(g, k, e, p);
    k
  }

  /** The in-port of its target that channel `k` fills. */
  function InIndex(g: Graph, k: nat): (p: nat)
    requires k < |g.wires| && g.wires[k].target < |g.nodes|
    requires g.wires[k].targetPort in g.nodes[g.wires[k].target].ins
    ensures p < |g.nodes[g.wires[k].target].ins| && g.nodes[g.wires[k].target].ins[p] == g.wires[k].targetPort
  {
    FirstIndex(g.nodes[g.wires[k].target].ins, g.wires[k].targetPort)
  }

  /** The out-port of its source that channel `k` reads. */
  function OutIndex(g: Graph, k: nat): (j: nat)
    requires k < |g.wires| && g.wires[k].source < |g.nodes|
    requires g.wires[k].sourcePort in g.nodes[g.wires[k].source].outs
    ensures j < |g.nodes[g.wires[k].source].outs| && g.nodes[g.wires[k].source].outs[j] == g.wires[k].sourcePort
  {
    FirstIndex(g.nodes[g.wires[k].source].outs, g.wires[k].sourcePort)
  }

  ghost predicate Shaped(g: Graph, v: seq<seq<Table>>) {
    |v| == |g.nodes| && forall e :: 0 <= e < |v| ==> |v[e]| == |g.nodes[e].outs|
  }

  ghost function Inputs(g: Graph, v: seq<seq<Table>>, e: nat): (r: seq<Table>)
    requires WellWired(g) && Shaped(g, v) && e < |g.nodes|
    ensures |r| == |g.nodes[e].ins|
  {
    seq(|g.nodes[e].ins|, p requires 0 <= p < |g.nodes[e].ins| =>
      var k := Feeder(g, e, p); v[g.wires[k].source][OutIndex(g, k)])
  }

  /** `v[e][j]` is the value of out-port `j` of execution `e` when the graph is read as a system of equations. */
  ghost predicate Evaluates(g: Graph, v: seq<seq<Table>>)
    requires WellWired(g)
  {
    Shaped(g, v)
    && forall e, j :: 0 <= e < |v| && 0 <= j < |v[e]| ==> v[e][j] == g.compute(e, j, Inputs(g, v, e))
  }

  /** One topological evaluation, following the ranks. */
  ghost function Eval(g: Graph, rank: seq<nat>, e: nat): (r: seq<Table>)
    requires WellWired(g) && Ranked(g, rank) && e < |g.nodes|
    ensures |r| == |g.nodes[e].outs|
    decreases rank[e]
  {
    var ins := seq(|g.nodes[e].ins|, p requires 0 <= p < |g.nodes[e].ins| =>
      var k := Feeder(g, e, p); Eval(g, rank, g.wires[k].source)[OutIndex(g, k)]);
    seq(|g.nodes[e].outs|, j requires 0 <= j < |g.nodes[e].outs| => g.compute(e, j, ins))
  }

  /** Every well-wired graph has an evaluation ... */
  lemma EvaluationExists(g: Graph) returns (v: seq<seq<Table>>)
    requires WellWired(g)
    ensures Evaluates(g, v)
  {
    var rank :| Ranked(g, rank);
    v := seq(|g.nodes|, e requires 0 <= e < |g.nodes| => Eval(g, rank, e));
    forall e, j | 0 <= e < |v| && 0 <= j < |v[e]|
      ensures v[e][j] == g.compute(e, j, Inputs(g, v, e))
    {
      assert Inputs(g, v, e) == seq(|g.nodes[e].ins|, p requires 0 <= p < |g.nodes[e].ins| =>
        var k := Feeder(g, e, p); Eval(g, rank, g.wires[k].source)[OutIndex(g, k)]);
    }
  }

  /** ... and only one, so "the value of a port" is well defined whatever the evaluation order. */
  lemma EvaluationUnique(g: Graph, v: seq<seq<Table>>, w: seq<seq<Table>>)
    requires WellWired(g) && Evaluates(g, v) && Evaluates(g, w)
    ensures v == w
  {
    var rank :| Ranked(g, rank);
    forall e | 0 <= e < |v| ensures v[e] == w[e] {
      EvaluationUniqueAt(g, rank, v, w, e);
    }
  }

  lemma {:induction false} EvaluationUniqueAt(g: Graph, rank: seq<nat>, v: seq<seq<Table>>, w: seq<seq<Table>>, e: nat)
    requires WellWired(g) && Ranked(g, rank) && Evaluates(g, v) && Evaluates(g, w) && e < |g.nodes|
    ensures v[e] == w[e]
    decreases rank[e]
  {
    forall p | 0 <= p < |g.nodes[e].ins| ensures Inputs(g, v, e)[p] == Inputs(g, w, e)[p] {
      EvaluationUniqueAt(g, rank, v, w, g.wires[Feeder(g, e, p)].source);
    }
    assert Inputs(g, v, e) == Inputs(g, w, e);
  }
}
