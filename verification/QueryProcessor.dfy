/** The query processor itself: loops over executions and channels, changing them in place. */
module QueryProcessor {
  import opened Wrappers
  import opened Dataflow
  import opened ExecutionModel
  import opened QueryExecution
  import S = Scheduler
  import I = SchedulerInvariant
  import T = SchedulerTheorems

  ghost predicate AgreesSys(r: Result<(), Fault>, spec: Result<S.Sys, Fault>, now: S.Sys) {
    match spec
    case Ok(x) => r.Ok? && now == x
    case Err(f) => r == Err(f)
  }

  /** Scheduling makes nobody DONE, so step() may decide "all done" before it looks for executables. */
  lemma {:induction false} ScheduleEachSameDone(g: Graph, s: S.Sys, es: seq<nat>)
    requires S.Fits(g, s) && forall i :: 0 <= i < |es| ==> es[i] < |s.execs|
    ensures var r := S.ScheduleEach(g, s, es); r.Ok? ==> (S.AllDone(r.value) <==> S.AllDone(s))
    decreases |es|
  {
    if es != [] {
      var t := S.ScheduleOne(g, s, es[0]);
      if t.Ok? {
        ScheduleEachSameDone(g, t.value, es[1..]);
        if s.execs[es[0]].state != SCHEDULED {
          assert s.execs[es[0]].state == COMPLETE && t.value.execs[es[0]].state == SCHEDULED;
        }
      }
    }
  }

  lemma ScheduleNext(g: Graph, s: S.Sys, es: seq<nat>, i: nat)
    requires S.Fits(g, s) && i < |es| && forall j :: 0 <= j < |es| ==> es[j] < |s.execs|
    ensures match S.ScheduleOne(g, s, es[i])
            case Ok(x) => S.ScheduleEach(g, s, es[i..]) == S.ScheduleEach(g, x, es[i + 1..])
            case Err(f) => S.ScheduleEach(g, s, es[i..]) == Err(f)
  {
    assert es[i..][0] == es[i] && es[i..][1..] == es[i + 1..];
  }

  lemma ScheduleNone(g: Graph, s: S.Sys, es: seq<nat>)
    requires S.Fits(g, s)
    ensures S.ScheduleEach(g, s, es[|es|..]) == Ok(s)
  {
  }

  class QueryProcessor {
    const g: Graph
    const nodes: seq<QueryExecution>
    const edges: seq<Channel>
    const maxParallelExecutions: nat
    var cache: map<S.PortId, Table>

    /** The objects are the graph's: distinct, and every channel is listed at its source in creation order. */
    ghost predicate Valid()
      reads this, nodes, edges
    {
      && Closed(g) && |nodes| == |g.nodes| && |edges| == |g.wires|
      && (forall i, j :: 0 <= i < j < |nodes| ==> nodes[i] != nodes[j])
      && (forall k, l :: 0 <= k < l < |edges| ==> edges[k] != edges[l])
      && (forall k :: 0 <= k < |edges| ==>
            && edges[k].source == nodes[g.wires[k].source] && edges[k].sourcePort == g.wires[k].sourcePort
            && edges[k].target == nodes[g.wires[k].target] && edges[k].targetPort == g.wires[k].targetPort)
      && (forall e :: 0 <= e < |nodes| ==> |nodes[e].channels| == |S.OutWires(g, e, 0)|)
      && (forall e, i :: 0 <= e < |nodes| && 0 <= i < |nodes[e].channels| ==>
            nodes[e].channels[i] == edges[S.OutWires(g, e, 0)[i]])
    }

    ghost function Snapshot(): (s: S.Sys)
      reads this, nodes, edges
      ensures |s.execs| == |nodes| && |s.chans| == |edges|
    {
      S.Sys(seq(|nodes|, i requires 0 <= i < |nodes| reads nodes => nodes[i].Value()),
            seq(|edges|, k requires 0 <= k < |edges| reads edges => edges[k].state), cache)
    }

    twostate lemma NodeChanged(e: nat)
      requires e < |nodes| && old(Valid()) && unchanged(this) && unchanged(edges)
      requires forall i :: 0 <= i < |nodes| && i != e ==> unchanged(nodes[i])
      requires nodes[e].channels == old(nodes[e].channels)
      ensures Valid() && Snapshot() == old(Snapshot()).(execs := old(Snapshot()).execs[e := nodes[e].Value()])
    {
      forall i | 0 <= i < |nodes| ensures nodes[i].channels == old(nodes[i].channels) { }
      assert Snapshot().execs == old(Snapshot()).execs[e := nodes[e].Value()];
      assert Snapshot().chans == old(Snapshot()).chans;
    }

    /** Wires the given objects up: every channel object is added at its source. */
    constructor (g: Graph, nodes: seq<QueryExecution>, edges: seq<Channel>, maxPar: nat, cache: map<S.PortId, Table>)
      requires Closed(g) && |nodes| == |g.nodes| && |edges| == |g.wires|
      requires forall i, j :: 0 <= i < j < |nodes| ==> nodes[i] != nodes[j]
      requires forall k, l :: 0 <= k < l < |edges| ==> edges[k] != edges[l]
      requires forall k :: 0 <= k < |edges| ==>
            && edges[k].source == nodes[g.wires[k].source] && edges[k].sourcePort == g.wires[k].sourcePort
            && edges[k].target == nodes[g.wires[k].target] && edges[k].targetPort == g.wires[k].targetPort
      requires forall e :: 0 <= e < |nodes| ==> |nodes[e].channels| == |S.OutWires(g, e, 0)|
      requires forall e, i :: 0 <= e < |nodes| && 0 <= i < |nodes[e].channels| ==>
        nodes[e].channels[i] == edges[S.OutWires(g, e, 0)[i]]
      ensures Valid() && this.g == g && this.nodes == nodes && this.edges == edges && maxParallelExecutions == maxPar
      ensures this.cache == cache
    {
      this.g, this.nodes, this.edges, maxParallelExecutions := g, nodes, edges, maxPar;
      this.cache := cache;
    }

    twostate lemma Delivered(k: nat)
      requires k < |edges| && old(Valid()) && unchanged(this)
      requires forall i :: 0 <= i < |nodes| && nodes[i] != edges[k].target ==> unchanged(nodes[i])
      requires forall l :: 0 <= l < |edges| && l != k ==> unchanged(edges[l])
      requires edges[k].target.channels == old(edges[k].target.channels)
      ensures Valid()
      ensures Snapshot() == old(Snapshot()).(
        execs := old(Snapshot()).execs[g.wires[k].target := edges[k].target.Value()],
        chans := old(Snapshot()).chans[k := edges[k].state])
    {
      forall i | 0 <= i < |nodes| ensures nodes[i].channels == old(nodes[i].channels) { }
      assert Snapshot().execs == old(Snapshot()).execs[g.wires[k].target := edges[k].target.Value()];
      assert Snapshot().chans == old(Snapshot()).chans[k := edges[k].state];
    }

    /** open, send and close one channel */
    method Deliver(channel: Channel, data: Option<Table>, ghost k: nat) returns (r: Result<(), Fault>)
      requires Valid() && k < |edges| && channel == edges[k]
      modifies channel, channel.target`state, channel.target`inPorts
      ensures r.Ok? ==> Valid()
      ensures AgreesSys(r, S.Deliver(g, old(Snapshot()), k, data), Snapshot())
    {
      r := channel.Open();
      if r.Err? { return; }
      r := channel.Send(data);
      if r.Err? { return; }
      r := channel.Close();
      Delivered(k);
    }

    method SendOne(e: nat, channel: Channel, onlyReady: bool, ghost k: nat) returns (r: Result<(), Fault>)
      requires Valid() && e < |nodes| && k < |edges| && channel == edges[k]
      modifies nodes, edges
      ensures r.Ok? ==> Valid()
      ensures AgreesSys(r, S.SendOne(g, old(Snapshot()), e, k, onlyReady), Snapshot())
    {
      if channel.target.state != DONE && (!onlyReady || channel.state == READY) {
        var data := nodes[e].GetResult(channel.sourcePort);
        if data.Err? {
          return Err(data.fault);
        }
        r := Deliver(channel, data.value, k);
      } else {
        r := Ok(());
      }
    }

    lemma Channels(e: nat)
      requires Valid() && e < |nodes|
      ensures |nodes| == |g.nodes| && |edges| == |g.wires| && Closed(g)
      ensures var chans, ks := nodes[e].channels, S.OutWires(g, e, 0);
        |chans| == |ks| && forall i :: 0 <= i < |ks| ==> ks[i] < |edges| && chans[i] == edges[ks[i]]
    {
    }

    static lemma SendNext(g: Graph, s: S.Sys, e: nat, i: nat, onlyReady: bool)
      requires S.Fits(g, s) && Closed(g) && e < |g.nodes| && i < |S.OutWires(g, e, 0)|
      ensures match S.SendOne(g, s, e, S.OutWires(g, e, 0)[i], onlyReady)
              case Ok(x) => S.SendFrom(g, s, e, i, onlyReady) == S.SendFrom(g, x, e, i + 1, onlyReady)
              case Err(f) => S.SendFrom(g, s, e, i, onlyReady) == Err(f)
    {
    }

    static lemma SendNone(g: Graph, s: S.Sys, e: nat, onlyReady: bool)
      requires S.Fits(g, s) && Closed(g) && e < |g.nodes|
      ensures S.SendFrom(g, s, e, |S.OutWires(g, e, 0)|, onlyReady) == Ok(s)
    {
    }

    method SendAll(e: nat, onlyReady: bool) returns (r: Result<(), Fault>)
      requires Valid() && e < |nodes|
      modifies nodes, edges
      ensures r.Ok? ==> Valid()
      ensures AgreesSys(r, S.SendFrom(g, old(Snapshot()), e, 0, onlyReady), Snapshot())
    {
      hide Valid;
      hide Snapshot;
      Channels(e);
      var chans := nodes[e].channels;
      ghost var ks, s := S.OutWires(g, e, 0), Snapshot();
      hide Closed;
      hide S.OutWires;
      hide S.SendOne;
      hide S.SendFrom;
      r := Ok(());
      var i := 0;
      while i < |chans| && r.Ok?
        invariant 0 <= i <= |chans|
        invariant r.Ok? ==> Valid() && S.SendFrom(g, s, e, 0, onlyReady) == S.SendFrom(g, Snapshot(), e, i, onlyReady)
        invariant r.Err? ==> AgreesSys(r, S.SendFrom(g, s, e, 0, onlyReady), Snapshot())
        decreases |chans| - i
      {
        SendNext(g, Snapshot(), e, i, onlyReady);
        r := SendOne(e, chans[i], onlyReady, ks[i]);
        i := i + 1;
      }
      SendNone(g, Snapshot(), e, onlyReady);
    }

    method CacheItem(e: nat)
      requires Valid() && e < |nodes|
      modifies this`cache
      ensures cache == S.CacheFrom(old(cache), e, nodes[e].outPorts, 0)
    {
      var ports := nodes[e].outPorts;
      for j := 0 to |ports|
        invariant S.CacheFrom(old(cache), e, ports, 0) == S.CacheFrom(cache, e, ports, j)
      {
        if ports[j].result.None? {
          return;
        }
        cache := cache[(e, ports[j].name) := ports[j].result.value];
      }
    }

    method SaveAndRelease(e: nat)
      requires Valid() && e < |nodes|
      modifies this`cache, nodes[e]
      ensures Valid() && Snapshot() == S.SaveAndRelease(old(Snapshot()), e)
    {
      CacheItem(e);
      assert Snapshot() == old(Snapshot()).(cache := cache);
      label Cached:
      nodes[e].Release();
      NodeChanged@Cached(e);
    }

    method AllReady(e: nat) returns (allReady: bool)
      requires Valid() && e < |nodes|
      ensures allReady <==> S.ResultsReady(g, Snapshot().execs[e], S.OutWires(g, e, 0))
    {
      ghost var ks := S.OutWires(g, e, 0);
      ghost var x := Snapshot().execs[e];
      var chans := nodes[e].channels;
      allReady := true;
      for i := 0 to |chans|
        invariant allReady <==> forall l :: 0 <= l < i ==>
          var r := x.GetResult(g.wires[ks[l]].sourcePort); r.Ok? && r.value.Some?
      {
        var ready := nodes[e].GetResult(chans[i].sourcePort);
        assert chans[i] == edges[ks[i]];
        allReady := allReady && ready.Ok? && ready.value.Some?;
      }
    }

    method OutputResult(e: nat) returns (r: Result<(), Fault>)
      requires Valid() && e < |nodes|
      modifies this`cache, nodes, edges
      ensures r.Ok? ==> Valid()
      ensures AgreesSys(r, S.OutputResult(g, old(Snapshot()), e), Snapshot())
    {
      if nodes[e].state != DONE {
        return Err(NotDone);
      }
      var allReady := AllReady(e);
      if !allReady {
        return Err(ResultNotReady);
      }
      r := SendAll(e, false);
      if r.Err? { return; }
      SaveAndRelease(e);
    }

    method CollectExecutables(order: seq<nat>) returns (executables: seq<nat>)
      requires Valid() && forall i :: 0 <= i < |order| ==> order[i] < |nodes|
      ensures executables == S.Executables(Snapshot(), order)
    {
      executables := [];
      ghost var s := Snapshot();
      assert order[0..] == order;
      for i := 0 to |order|
        invariant S.Executables(s, order) == executables + S.Executables(s, order[i..])
      {
        assert order[i..][0] == order[i] && order[i..][1..] == order[i + 1..];
        var state := nodes[order[i]].state;
        assert s.execs[order[i]].state == state;
        if Executable(state) {
          executables := executables + [order[i]];
        }
      }
      assert order[|order|..] == [];
    }

    method ScheduleOne(e: nat) returns (r: Result<(), Fault>)
      requires Valid() && e < |nodes|
      modifies nodes[e]
      ensures r.Ok? ==> Valid()
      ensures AgreesSys(r, S.ScheduleOne(g, old(Snapshot()), e), Snapshot())
    {
      assert Snapshot().execs[e] == nodes[e].Value();
      if nodes[e].state != SCHEDULED {
        r := nodes[e].Schedule();
        NodeChanged(e);
      } else {
        r := Ok(());
      }
    }

    method ScheduleExecutables(executables: seq<nat>) returns (r: Result<(), Fault>)
      requires Valid() && forall i :: 0 <= i < |executables| ==> executables[i] < |nodes|
      modifies nodes
      ensures r.Ok? ==> Valid()
      ensures AgreesSys(r, S.ScheduleEach(g, old(Snapshot()), executables), Snapshot())
    {
      assert |nodes| == |g.nodes| && |edges| == |g.wires|;
      hide Valid;
      hide Snapshot;
      hide S.ScheduleEach;
      hide S.ScheduleOne;
      ghost var s := Snapshot();
      assert executables[0..] == executables;
      for i := 0 to |executables|
        invariant Valid() && S.ScheduleEach(g, s, executables) == S.ScheduleEach(g, Snapshot(), executables[i..])
      {
        ScheduleNext(g, Snapshot(), executables, i);
        r := ScheduleOne(executables[i]);
        if r.Err? { return; }
      }
      ScheduleNone(g, Snapshot(), executables);
      r := Ok(());
    }

    method FindExecutables(order: seq<nat>) returns (r: Result<(), Fault>)
      requires Valid() && forall i :: 0 <= i < |order| ==> order[i] < |nodes|
      modifies nodes
      ensures r.Ok? ==> Valid()
      ensures AgreesSys(r, S.FindExecutables(g, old(Snapshot()), order), Snapshot())
    {
      assert |nodes| == |g.nodes| && |edges| == |g.wires|;
      hide Valid;
      hide Snapshot;
      hide S.ScheduleEach;
      var executables := CollectExecutables(order);
      r := ScheduleExecutables(executables);
    }

    method ProcessIfRoom(running: set<nat>, e: nat) returns (r: Result<set<nat>, Fault>)
      requires Valid() && e < |nodes|
      modifies this`cache, nodes, edges
      ensures r.Ok? ==> Valid()
      ensures match S.ProcessIfRoom(g, maxParallelExecutions, old(Snapshot()), running, e)
              case Ok(x) => r == Ok(x.1) && Snapshot() == x.0
              case Err(f) => r == Err(f)
    {
      if |running| < maxParallelExecutions || e in running {
        var execDone := nodes[e].Process(e, g.compute);
        NodeChanged(e);
        if execDone.Err? {
          return Err(execDone.fault);
        }
        if execDone.value {
          var o := OutputResult(e);
          if o.Err? {
            return Err(o.fault);
          }
          return Ok(running - {e});
        }
        return Ok(running + {e});
      }
      return Ok(running);
    }

    method Visit(running: set<nat>, e: nat) returns (r: Result<set<nat>, Fault>)
      requires Valid() && e < |nodes|
      modifies this`cache, nodes, edges
      ensures r.Ok? ==> Valid()
      ensures match S.Visit(g, maxParallelExecutions, old(Snapshot()), running, e)
              case Ok(x) => r == Ok(x.1) && Snapshot() == x.0
              case Err(f) => r == Err(f)
    {
      var state := nodes[e].state;
      assert Snapshot().execs[e] == nodes[e].Value();
      if !Executable(state) {
        return Ok(running);
      }
      if state == COMPLETE {
        var o := nodes[e].Schedule();
        NodeChanged(e);
        if o.Err? {
          return Err(o.fault);
        }
      }
      r := ProcessIfRoom(running, e);
    }

    method IsAllDone(order: seq<nat>) returns (done: bool)
      requires Valid() && S.Ordering(g, order)
      ensures done <==> S.AllDone(Snapshot())
    {
      done := true;
      for l := 0 to |order|
        invariant done <==> forall m :: 0 <= m < l ==> nodes[order[m]].state == DONE
      {
        if nodes[order[l]].state != DONE {
          done := false;
        }
      }
      if done {
        forall e | 0 <= e < |nodes| ensures Snapshot().execs[e].state == DONE { assert e in order; }
      } else {
        var m :| 0 <= m < |order| && nodes[order[m]].state != DONE;
        assert Snapshot().execs[order[m]].state != DONE;
      }
    }

    /** One execution's turn; also reports whether every execution is DONE now. */
    method Turn(running: set<nat>, order: seq<nat>, e: nat) returns (r: Result<(set<nat>, bool), Fault>)
      requires Valid() && S.Ordering(g, order) && e < |nodes|
      modifies this`cache, nodes, edges
      ensures r.Ok? ==> Valid()
      ensures match S.Turn(g, maxParallelExecutions, old(Snapshot()), running, order, e)
              case Ok(x) => r == Ok((x.1, S.AllDone(x.0))) && Snapshot() == x.0
              case Err(f) => r == Err(f)
    {
      assert |nodes| == |g.nodes| && |edges| == |g.wires|;
      hide Valid;
      hide Snapshot;
      hide S.Visit;
      hide S.ScheduleEach;
      hide S.Executables;
      var v := Visit(running, e);
      if v.Err? {
        return Err(v.fault);
      }
      var done := IsAllDone(order);
      ghost var s := Snapshot();
      var f := FindExecutables(order);
      if f.Err? {
        return Err(f.fault);
      }
      ScheduleEachSameDone(g, s, S.Executables(s, order));
      r := Ok((v.value, done));
    }

    /** One polling step. True exactly when every execution is DONE. */
    method Step(order: seq<nat>) returns (r: Result<bool, Fault>)
      requires Valid() && S.Ordering(g, order) && nodes != []
      modifies this`cache, nodes, edges
      ensures r.Ok? ==> Valid()
      ensures match S.Turns(g, maxParallelExecutions, old(Snapshot()), {}, order, 0)
              case Ok(x) => r == Ok(S.AllDone(Snapshot())) && Snapshot() == x.0
              case Err(f) => r == Err(f)
    {
      assert 0 in order;
      var running: set<nat> := {};
      var done := false;
      for i := 0 to |order|
        invariant Valid() && S.Turns(g, maxParallelExecutions, old(Snapshot()), {}, order, 0)
                           == S.Turns(g, maxParallelExecutions, Snapshot(), running, order, i)
        invariant i > 0 ==> (done <==> S.AllDone(Snapshot()))
      {
        var t := Turn(running, order, order[i]);
        if t.Err? {
          return Err(t.fault);
        }
        running, done := t.value.0, t.value.1;
      }
      r := Ok(done);
    }

    /** Polls until done. On a well-wired graph it ends, throws nothing, and leaves every result in the cache. */
    method Process(order: seq<nat>, ghost v: seq<seq<Table>>) returns (r: Result<(), Fault>)
      requires Valid() && S.Ordering(g, order) && nodes != [] && maxParallelExecutions > 0
      requires WellWired(g) && Evaluates(g, v) && I.Inv(g, v, Snapshot(), {}, {})
      modifies this`cache, nodes, edges
      ensures Valid() && r.Ok? && S.AllDone(Snapshot()) && T.AllCached(g, v, cache)
    {
      var done := false;
      while !done
        invariant Valid() && I.Inv(g, v, Snapshot(), {}, {}) && (done ==> S.AllDone(Snapshot()))
        decreases I.Work(Snapshot().execs) + if done then 0 else 1
      {
        T.StepProgress(g, v, maxParallelExecutions, Snapshot(), order);
        ghost var before := Snapshot();
        var o := Step(order);
        if S.AllDone(before) {
          T.OnwardWork(before, Snapshot());
          StaysDone(before, Snapshot());
        }
        done := o.value;
      }
      T.DoneIsCached(g, v, Snapshot());
      r := Ok(());
    }

    lemma StaysDone(s: S.Sys, t: S.Sys)
      requires I.Advances(s, t) && S.AllDone(s)
      ensures S.AllDone(t)
    {
      forall e | 0 <= e < |t.execs| ensures t.execs[e].state == DONE { assert I.Onward(s.execs[e], t.execs[e]); }
    }

    method PreloadPorts(e: nat) returns (r: Result<(), Fault>)
      requires Valid() && e < |nodes|
      modifies nodes
      ensures r.Ok? ==> Valid()
      ensures AgreesSys(r, S.PreloadPorts(old(Snapshot()), e, 0), Snapshot())
    {
      var j := 0;
      while j < |nodes[e].outPorts|
        invariant Valid() && j <= |nodes[e].outPorts|
        invariant S.PreloadPorts(old(Snapshot()), e, 0) == S.PreloadPorts(Snapshot(), e, j)
        decreases |nodes[e].outPorts| - j
      {
        assert Snapshot().execs[e] == nodes[e].Value();
        var portName := nodes[e].outPorts[j].name;
        if (e, portName) in cache {
          label Before:
          r := nodes[e].SetResult(portName, cache[(e, portName)]);
          NodeChanged@Before(e);
          if r.Err? { return; }
        }
        j := j + 1;
      }
      r := Ok(());
    }

    method PreloadEach(order: seq<nat>) returns (r: Result<(), Fault>)
      requires Valid() && forall i :: 0 <= i < |order| ==> order[i] < |nodes|
      modifies nodes
      ensures r.Ok? ==> Valid()
      ensures AgreesSys(r, S.PreloadEach(g, old(Snapshot()), order), Snapshot())
    {
      assert order[0..] == order && order[|order|..] == [];
      for i := 0 to |order|
        invariant Valid() && S.PreloadEach(g, old(Snapshot()), order) == S.PreloadEach(g, Snapshot(), order[i..])
      {
        assert order[i..][0] == order[i] && order[i..][1..] == order[i + 1..];
        r := PreloadPorts(order[i]);
        if r.Err? { return; }
      }
      r := Ok(());
    }

    method ForwardOne(e: nat) returns (r: Result<(), Fault>)
      requires Valid() && e < |nodes|
      modifies nodes, edges
      ensures r.Ok? ==> Valid()
      ensures AgreesSys(r, S.ForwardOne(g, old(Snapshot()), e), Snapshot())
    {
      assert Snapshot().execs[e] == nodes[e].Value();
      if nodes[e].state != DONE {
        return Ok(());
      }
      r := SendAll(e, true);
      if r.Err? { return; }
      label Sent:
      nodes[e].Release();
      NodeChanged@Sent(e);
    }

    method LoadFromCache(order: seq<nat>, disableCache: bool) returns (r: Result<(), Fault>)
      requires Valid() && forall i :: 0 <= i < |order| ==> order[i] < |nodes|
      modifies nodes, edges
      ensures r.Ok? ==> Valid()
      ensures AgreesSys(r, S.LoadFromCache(g, old(Snapshot()), order, disableCache), Snapshot())
    {
      if !disableCache {
        r := PreloadEach(order);
        if r.Err? { return; }
      }
      ghost var s := Snapshot();
      assert order[0..] == order && order[|order|..] == [];
      for i := 0 to |order|
        invariant Valid() && S.ForwardEach(g, s, order) == S.ForwardEach(g, Snapshot(), order[i..])
      {
        assert order[i..][0] == order[i] && order[i..][1..] == order[i + 1..];
        r := ForwardOne(order[i]);
        if r.Err? { return; }
      }
      r := Ok(());
    }
  }
}
