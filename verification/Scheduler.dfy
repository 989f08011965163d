/** The query processor as a function from states to states: one `Sys` is everything it changes. */
module Scheduler {
  import opened Wrappers
  import opened Dataflow
  import opened ExecutionModel

  /** A cached item is found under the id of an out-port; here the id is the execution and the port's name. */
  type PortId = (nat, string)

  datatype Sys = Sys(execs: seq<Exec>, chans: seq<ChannelState>, cache: map<PortId, Table>)

  ghost predicate Fits(g: Graph, s: Sys) {
    |s.execs| == |g.nodes| && |s.chans| == |g.wires|
  }

  /** The order in which the set of executions is iterated: any permutation. */
  ghost predicate Ordering(g: Graph, order: seq<nat>) {
    && (forall i :: 0 <= i < |order| ==> order[i] < |g.nodes|)
    && (forall i, j :: 0 <= i < j < |order| ==> order[i] != order[j])
    && (forall e :: 0 <= e < |g.nodes| ==> e in order)
  }

  /** The channels leaving `e`, numbered from `k` on, in creation order. */
  function OutWires(g: Graph, e: nat, k: nat): (r: seq<nat>)
    requires k <= |g.wires|
    ensures forall i :: 0 <= i < |r| ==> k <= r[i] < |g.wires| && g.wires[r[i]].source == e
    decreases |g.wires| - k
  {
    if k == |g.wires| then []
    else if g.wires[k].source == e then [k] + OutWires(g, e, k + 1)
    else OutWires(g, e, k + 1)
  }

  ghost predicate Increasing(s: seq<nat>) {
    forall i, j :: 0 <= i < j < |s| ==> s[i] < s[j]
  }

  lemma IncreasingFrom(k: nat, rest: seq<nat>)
    requires Increasing(rest) && forall j :: 0 <= j < |rest| ==> k < rest[j]
    ensures Increasing([k] + rest)
  {
  }

  lemma {:induction false} OutWiresIncrease(g: Graph, e: nat, k: nat)
    requires k <= |g.wires|
    ensures Increasing(OutWires(g, e, k))
    decreases |g.wires| - k
  {
    if k < |g.wires| {
      OutWiresIncrease(g, e, k + 1);
      hide Increasing;
      if g.wires[k].source == e {
        IncreasingFrom(k, OutWires(g, e, k + 1));
      }
    }
  }

  lemma {:induction false} OutWiresList(g: Graph, e: nat, k: nat, l: nat)
    requires k <= l < |g.wires| && g.wires[l].source == e
    ensures l in OutWires(g, e, k)
    decreases |g.wires| - k
  {
    var r := OutWires(g, e, k);
    if k == l {
      assert r[0] == l;
    } else {
      OutWiresList(g, e, k + 1, l);
    }
  }

  lemma OutWiresComplete(g: Graph, e: nat)
    ensures Increasing(OutWires(g, e, 0))
    ensures forall l :: 0 <= l < |g.wires| && g.wires[l].source == e ==> l in OutWires(g, e, 0)
  {
    hide OutWires;
    hide Increasing;
    OutWiresIncrease(g, e, 0);
    forall l | 0 <= l < |g.wires| && g.wires[l].source == e ensures l in OutWires(g, e, 0) {
      OutWiresList(g, e, 0, l);
    }
  }

  /** open, send, close */
  function Deliver(g: Graph, s: Sys, k: nat, data: Option<Table>): (r: Result<Sys, Fault>)
    requires Fits(g, s) && k < |g.wires| && g.wires[k].target < |g.nodes|
    ensures r.Ok? ==> Fits(g, r.value)
  {
    if s.chans[k] != READY then Err(ChannelNotReady)
    else
      var t := g.wires[k].target;
      var x :- s.execs[t].Receive(g.wires[k].targetPort, data);
      Ok(s.(execs := s.execs[t := x], chans := s.chans[k := CLOSED]))
  }

  /** Sends over channel `k` unless its target is DONE; with `onlyReady`, also not when it is not READY. */
  function SendOne(g: Graph, s: Sys, e: nat, k: nat, onlyReady: bool): (r: Result<Sys, Fault>)
    requires Fits(g, s) && e < |g.nodes| && k < |g.wires| && g.wires[k].target < |g.nodes|
    ensures r.Ok? ==> Fits(g, r.value)
  {
    if s.execs[g.wires[k].target].state == DONE || (onlyReady && s.chans[k] != READY) then Ok(s)
    else
      var data :- s.execs[e].GetResult(g.wires[k].sourcePort);
      Deliver(g, s, k, data)
  }

  /** Sends over the channels of `e` from the `i`-th on. */
  function SendFrom(g: Graph, s: Sys, e: nat, i: nat, onlyReady: bool): (r: Result<Sys, Fault>)
    requires Fits(g, s) && Closed(g) && e < |g.nodes| && i <= |OutWires(g, e, 0)|
    ensures r.Ok? ==> Fits(g, r.value)
    decreases |OutWires(g, e, 0)| - i
  {
    if i == |OutWires(g, e, 0)| then Ok(s)
    else
      var s' :- SendOne(g, s, e, OutWires(g, e, 0)[i], onlyReady);
      SendFrom(g, s', e, i + 1, onlyReady)
  }

  predicate ResultsReady(g: Graph, x: Exec, ks: seq<nat>)
    requires forall i :: 0 <= i < |ks| ==> ks[i] < |g.wires|
  {
    forall i :: 0 <= i < |ks| ==> var r := x.GetResult(g.wires[ks[i]].sourcePort); r.Ok? && r.value.Some?
  }

  /** Saves the out-ports of `e` from port `j` on; stops at an empty port. */
  function CacheFrom(cache: map<PortId, Table>, e: nat, ports: seq<Port>, j: nat): map<PortId, Table>
    requires j <= |ports|
    decreases |ports| - j
  {
    if j == |ports| || ports[j].result.None? then cache
    else CacheFrom(cache[(e, ports[j].name) := ports[j].result.value], e, ports, j + 1)
  }

  function SaveAndRelease(s: Sys, e: nat): (r: Sys)
    requires e < |s.execs|
    ensures |r.execs| == |s.execs| && r.chans == s.chans
  {
    Sys(s.execs[e := s.execs[e].Release()], s.chans, CacheFrom(s.cache, e, s.execs[e].outPorts, 0))
  }

  function OutputResult(g: Graph, s: Sys, e: nat): (r: Result<Sys, Fault>)
    requires Fits(g, s) && Closed(g) && e < |g.nodes|
    ensures r.Ok? ==> Fits(g, r.value)
  {
    var ks := OutWires(g, e, 0);
    if s.execs[e].state != DONE then Err(NotDone)
    else if !ResultsReady(g, s.execs[e], ks) then Err(ResultNotReady)
    else
      var s1 :- SendFrom(g, s, e, 0, false);
      Ok(SaveAndRelease(s1, e))
  }

  function Executables(s: Sys, order: seq<nat>): (r: seq<nat>)
    requires forall i :: 0 <= i < |order| ==> order[i] < |s.execs|
    ensures forall i :: 0 <= i < |r| ==> r[i] in order && r[i] < |s.execs| && Executable(s.execs[r[i]].state)
    ensures forall i :: 0 <= i < |order| && Executable(s.execs[order[i]].state) ==> order[i] in r
  {
    if order == [] then []
    else if Executable(s.execs[order[0]].state) then [order[0]] + Executables(s, order[1..])
    else Executables(s, order[1..])
  }

  /** Schedules an execution that is not SCHEDULED yet. */
  function ScheduleOne(g: Graph, s: Sys, e: nat): (r: Result<Sys, Fault>)
    requires Fits(g, s) && e < |s.execs|
    ensures r.Ok? ==> Fits(g, r.value)
  {
    if s.execs[e].state == SCHEDULED then Ok(s)
    else
      var x :- s.execs[e].Schedule();
      Ok(s.(execs := s.execs[e := x]))
  }

  function ScheduleEach(g: Graph, s: Sys, es: seq<nat>): (r: Result<Sys, Fault>)
    requires Fits(g, s) && forall i :: 0 <= i < |es| ==> es[i] < |s.execs|
    ensures r.Ok? ==> Fits(g, r.value)
    decreases |es|
  {
    if es == [] then Ok(s)
    else
      var s' :- ScheduleOne(g, s, es[0]);
      ScheduleEach(g, s', es[1..])
  }

  function FindExecutables(g: Graph, s: Sys, order: seq<nat>): (r: Result<Sys, Fault>)
    requires Fits(g, s) && forall i :: 0 <= i < |order| ==> order[i] < |s.execs|
    ensures r.Ok? ==> Fits(g, r.value)
  {
    ScheduleEach(g, s, Executables(s, order))
  }

  /** Processes `e` if fewer than `maxPar` executions are running, and outputs its result if that finished it. */
  function ProcessIfRoom(g: Graph, maxPar: nat, s: Sys, running: set<nat>, e: nat): (r: Result<(Sys, set<nat>), Fault>)
    requires Fits(g, s) && Closed(g) && e < |g.nodes|
    ensures r.Ok? ==> Fits(g, r.value.0)
  {
    if |running| < maxPar || e in running then
      var y :- s.execs[e].Process(e, g.compute);
      var s1 := s.(execs := s.execs[e := y.0]);
      if y.1 then
        var s2 :- OutputResult(g, s1, e);
        Ok((s2, running - {e}))
      else Ok((s1, running + {e}))
    else Ok((s, running))
  }

  /** One execution's share of a step: schedule it if it is COMPLETE, then process it if there is room. */
  function Visit(g: Graph, maxPar: nat, s: Sys, running: set<nat>, e: nat): (r: Result<(Sys, set<nat>), Fault>)
    requires Fits(g, s) && Closed(g) && e < |g.nodes|
    ensures r.Ok? ==> Fits(g, r.value.0)
  {
    var st := s.execs[e].state;
    if !Executable(st) then Ok((s, running))
    else if st == COMPLETE then
      var x :- s.execs[e].Schedule();
      ProcessIfRoom(g, maxPar, s.(execs := s.execs[e := x]), running, e)
    else ProcessIfRoom(g, maxPar, s, running, e)
  }

  function Turn(g: Graph, maxPar: nat, s: Sys, running: set<nat>, order: seq<nat>, e: nat):
    (r: Result<(Sys, set<nat>), Fault>)
    requires Fits(g, s) && Closed(g) && e < |g.nodes| && forall i :: 0 <= i < |order| ==> order[i] < |g.nodes|
    ensures r.Ok? ==> Fits(g, r.value.0)
  {
    var v :- Visit(g, maxPar, s, running, e);
    var s' :- FindExecutables(g, v.0, order);
    Ok((s', v.1))
  }

  /** The turns of one step for the executions `order[i..]`. */
  function Turns(g: Graph, maxPar: nat, s: Sys, running: set<nat>, order: seq<nat>, i: nat):
    (r: Result<(Sys, set<nat>), Fault>)
    requires Fits(g, s) && Closed(g) && i <= |order| && forall i :: 0 <= i < |order| ==> order[i] < |g.nodes|
    ensures r.Ok? ==> Fits(g, r.value.0)
    decreases |order| - i
  {
    if i == |order| then Ok((s, running))
    else
      var t :- Turn(g, maxPar, s, running, order, order[i]);
      Turns(g, maxPar, t.0, t.1, order, i + 1)
  }

  predicate AllDone(s: Sys) {
    forall e :: 0 <= e < |s.execs| ==> s.execs[e].state == DONE
  }

  /** Fills the out-ports of `e`, from port `j` on, with whatever the cache holds for them. */
  function PreloadPorts(s: Sys, e: nat, j: nat): (r: Result<Sys, Fault>)
    requires e < |s.execs| && j <= |s.execs[e].outPorts|
    ensures r.Ok? ==> |r.value.execs| == |s.execs| && r.value.chans == s.chans && r.value.cache == s.cache
    decreases |s.execs[e].outPorts| - j
  {
    if j == |s.execs[e].outPorts| then Ok(s)
    else
      var name := s.execs[e].outPorts[j].name;
      if (e, name) in s.cache then
        var x :- s.execs[e].SetResult(name, s.cache[(e, name)]);
        PreloadPorts(s.(execs := s.execs[e := x]), e, j + 1)
      else PreloadPorts(s, e, j + 1)
  }

  function PreloadEach(g: Graph, s: Sys, es: seq<nat>): (r: Result<Sys, Fault>)
    requires Fits(g, s) && forall i :: 0 <= i < |es| ==> es[i] < |s.execs|
    ensures r.Ok? ==> Fits(g, r.value) && r.value.chans == s.chans && r.value.cache == s.cache
    decreases |es|
  {
    if es == [] then Ok(s)
    else
      var s' :- PreloadPorts(s, es[0], 0);
      PreloadEach(g, s', es[1..])
  }

  /** An execution that the cache made DONE passes its results on and is released. */
  function ForwardOne(g: Graph, s: Sys, e: nat): (r: Result<Sys, Fault>)
    requires Fits(g, s) && Closed(g) && e < |s.execs|
    ensures r.Ok? ==> Fits(g, r.value)
  {
    if s.execs[e].state != DONE then Ok(s)
    else
      var s1 :- SendFrom(g, s, e, 0, true);
      Ok(s1.(execs := s1.execs[e := s1.execs[e].Release()]))
  }

  function ForwardEach(g: Graph, s: Sys, es: seq<nat>): (r: Result<Sys, Fault>)
    requires Fits(g, s) && Closed(g) && forall i :: 0 <= i < |es| ==> es[i] < |s.execs|
    ensures r.Ok? ==> Fits(g, r.value)
    decreases |es|
  {
    if es == [] then Ok(s)
    else
      var s' :- ForwardOne(g, s, es[0]);
      ForwardEach(g, s', es[1..])
  }

  function LoadFromCache(g: Graph, s: Sys, order: seq<nat>, disableCache: bool): (r: Result<Sys, Fault>)
    requires Fits(g, s) && Closed(g) && forall i :: 0 <= i < |order| ==> order[i] < |g.nodes|
    ensures r.Ok? ==> Fits(g, r.value)
  {
    var s1 :- if disableCache then Ok(s) else PreloadEach(g, s, order);
    ForwardEach(g, s1, order)
  }

  /** Right after construction: an execution without dependencies is COMPLETE, every other one INITIAL. */
  ghost predicate Fresh(g: Graph, s: Sys) {
    && Fits(g, s)
    && (forall e :: 0 <= e < |s.execs| ==>
          var x := s.execs[e];
          && x.state == (if g.nodes[e].ins == [] then COMPLETE else INITIAL) && x.tasks == 0
          && Named(x.inPorts, g.nodes[e].ins) && Named(x.outPorts, g.nodes[e].outs)
          && (forall p :: 0 <= p < |x.inPorts| ==> x.inPorts[p].result.None?)
          && (forall j :: 0 <= j < |x.outPorts| ==> x.outPorts[j].result.None?))
    && (forall k :: 0 <= k < |s.chans| ==> s.chans[k] == READY)
  }

  /** `steps[i]` is the iteration order the `i`-th call of step() happened to use. */
  ghost function Run(g: Graph, maxPar: nat, s: Sys, steps: seq<seq<nat>>): (r: Result<Sys, Fault>)
    requires Fits(g, s) && Closed(g)
    requires forall i :: 0 <= i < |steps| ==> Ordering(g, steps[i])
    ensures r.Ok? ==> Fits(g, r.value)
    decreases |steps|
  {
    if steps == [] then Ok(s)
    else
      assert Ordering(g, steps[0]);
      var t :- Turns(g, maxPar, s, {}, steps[0], 0);
      Run(g, maxPar, t.0, steps[1..])
  }
}
