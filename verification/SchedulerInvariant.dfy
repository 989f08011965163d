/** What every reachable state of the query processor satisfies, and that no call in it ever throws. */
module SchedulerInvariant {
  import opened Wrappers
  import opened Dataflow
  import opened ExecutionModel
  import opened Scheduler

  /** Per execution: its ports keep their names, it leaves INITIAL exactly when its inputs are complete,
      and its statement has been handed over once it is SCHEDULED, and at most once. */
  ghost predicate ExecOk(g: Graph, s: Sys, e: nat)
    requires Fits(g, s) && e < |s.execs|
  {
    var x := s.execs[e];
    && Named(x.inPorts, g.nodes[e].ins) && Named(x.outPorts, g.nodes[e].outs)
    && x.state in {INITIAL, COMPLETE, SCHEDULED, DONE}
    && (x.state in {INITIAL, COMPLETE} ==> x.tasks == 0) && (x.state == SCHEDULED ==> x.tasks == 1) && x.tasks <= 1
    && (x.state != DONE ==> (x.state == INITIAL <==> !AllFilled(x.inPorts)) && !AllFilled(x.outPorts))
  }

  /** Per channel: an in-port of an unfinished execution is filled iff its channel is CLOSED iff its source is
      DONE, and then with the right value. `un` holds the channels whose DONE source has yet to send. */
  ghost predicate WireOk(g: Graph, v: seq<seq<Table>>, s: Sys, un: set<nat>, k: nat)
    requires Fits(g, s) && Closed(g) && Shaped(g, v) && k < |g.wires|
  {
    var src, tgt := g.wires[k].source, g.wires[k].target;
    && s.chans[k] in {READY, CLOSED}
    && (s.chans[k] == CLOSED ==> s.execs[src].state == DONE)
    && (k in un ==> s.chans[k] == READY && s.execs[src].state == DONE && Holds(s.execs[src].outPorts, v[src]))
    && (s.execs[tgt].state != DONE ==>
          var sent := s.execs[src].state == DONE && k !in un;
          var p := InIndex(g, k);
          && p < |s.execs[tgt].inPorts|
          && (s.chans[k] == CLOSED <==> sent)
          && s.execs[tgt].inPorts[p].result == if sent then Some(v[src][OutIndex(g, k)]) else None)
  }

  ghost predicate Truthful(g: Graph, v: seq<seq<Table>>, cache: map<PortId, Table>)
    requires Shaped(g, v)
  {
    forall e, j {:trigger v[e][j]} :: 0 <= e < |v| && 0 <= j < |v[e]| && (e, g.nodes[e].outs[j]) in cache ==>
      cache[(e, g.nodes[e].outs[j])] == v[e][j]
  }

  ghost predicate Saved(g: Graph, s: Sys, e: nat)
    requires e < |g.nodes|
  {
    forall j :: 0 <= j < |g.nodes[e].outs| ==> (e, g.nodes[e].outs[j]) in s.cache
  }

  /** The invariant, with `un` the channels still to be served and `unsaved` the DONE executions still to be cached. */
  ghost predicate Inv(g: Graph, v: seq<seq<Table>>, s: Sys, un: set<nat>, unsaved: set<nat>)
    requires WellWired(g) && Shaped(g, v)
  {
    && Fits(g, s)
    && (forall e :: 0 <= e < |s.execs| ==> ExecOk(g, s, e))
    && (forall k :: 0 <= k < |g.wires| ==> WireOk(g, v, s, un, k))
    && Truthful(g, v, s.cache)
    && (forall e :: 0 <= e < |s.execs| && s.execs[e].state == DONE && e !in unsaved ==> Saved(g, s, e))
  }

  /** DONE is final, nobody gains work, and whoever can be processed stays so until DONE. */
  ghost predicate Onward(x: Exec, y: Exec) {
    && (x.state == DONE ==> y.state == DONE)
    && y.work <= x.work
    && (Executable(x.state) ==> y.state == DONE || Executable(y.state))
  }

  /** Onward, but without finishing or processing. */
  ghost predicate Idle(x: Exec, y: Exec) {
    && (x.state == DONE <==> y.state == DONE)
    && y.work == x.work
    && (Executable(x.state) ==> Executable(y.state))
    && (x.state == SCHEDULED ==> y.state == SCHEDULED)
  }

  ghost predicate Advances(s: Sys, t: Sys) {
    && |t.execs| == |s.execs| && |t.chans| == |s.chans|
    && (forall e :: 0 <= e < |s.execs| ==> Onward(s.execs[e], t.execs[e]))
    && (forall k :: 0 <= k < |s.chans| && s.chans[k] == CLOSED ==> t.chans[k] == CLOSED)
  }

  ghost predicate SameWork(s: Sys, t: Sys) {
    && |t.execs| == |s.execs| && |t.chans| == |s.chans|
    && (forall e :: 0 <= e < |s.execs| ==> Idle(s.execs[e], t.execs[e]))
    && (forall k :: 0 <= k < |s.chans| && s.chans[k] == CLOSED ==> t.chans[k] == CLOSED)
  }

  ghost function Elems(ks: seq<nat>): set<nat> {
    set k | k in ks
  }

  lemma IndexOf(names: seq<string>, i: nat)
    requires Distinct(names) && i < |names|
    ensures FirstIndex(names, names[i]) == i
  {
  }

  /** The port that receive() picks by name is the in-port the channel was made for. */
  lemma LastNamedIs(ports: seq<Port>, names: seq<string>, i: nat)
    requires Named(ports, names) && Distinct(names) && i < |names|
    ensures LastNamed(ports, names[i]) == i
  {
    assert ports[i].name == names[i];
  }

  lemma FirstNamedIs(ports: seq<Port>, names: seq<string>, i: nat)
    requires Named(ports, names) && Distinct(names) && i < |names|
    ensures FirstNamed(ports, names[i]) == i
  {
    assert ports[i].name == names[i];
  }

  /** Replacing an unfinished execution by an unfinished one with the same in-ports. */
  lemma Replace(g: Graph, v: seq<seq<Table>>, s: Sys, un: set<nat>, unsaved: set<nat>, e: nat, y: Exec)
    requires WellWired(g) && Shaped(g, v) && Inv(g, v, s, un, unsaved) && e < |s.execs|
    requires s.execs[e].state != DONE && y.state != DONE && y.inPorts == s.execs[e].inPorts
    requires ExecOk(g, s.(execs := s.execs[e := y]), e)
    ensures Inv(g, v, s.(execs := s.execs[e := y]), un, unsaved)
  {
    var t := s.(execs := s.execs[e := y]);
    forall i | 0 <= i < |t.execs| ensures ExecOk(g, t, i) { assert ExecOk(g, s, i); }
    forall k | 0 <= k < |g.wires| ensures WireOk(g, v, t, un, k) { assert WireOk(g, v, s, un, k); }
    forall i | 0 <= i < |t.execs| && t.execs[i].state == DONE && i !in unsaved ensures Saved(g, t, i) {
      assert Saved(g, s, i);
    }
  }

  /** open() meets a READY channel, receive() finds the port, and the target leaves INITIAL on its last input. */
  lemma DeliverKeeps(g: Graph, v: seq<seq<Table>>, s: Sys, un: set<nat>, unsaved: set<nat>, k: nat)
    requires WellWired(g) && Shaped(g, v) && Inv(g, v, s, un, unsaved) && k in un && k < |g.wires|
    requires s.execs[g.wires[k].target].state != DONE
    ensures var r := Deliver(g, s, k, Some(v[g.wires[k].source][OutIndex(g, k)]));
      r.Ok? && Inv(g, v, r.value, un - {k}, unsaved) && SameWork(s, r.value) && r.value.cache == s.cache
      && forall e :: 0 <= e < |s.execs| && s.execs[e].state == DONE ==> r.value.execs[e] == s.execs[e]
  {
    var src, tgt := g.wires[k].source, g.wires[k].target;
    var p := InIndex(g, k);
    assert WireOk(g, v, s, un, k) && ExecOk(g, s, tgt);
    LastNamedIs(s.execs[tgt].inPorts, g.nodes[tgt].ins, p);
    var x := s.execs[tgt];
    var data := Some(v[src][OutIndex(g, k)]);
    assert x.state == INITIAL by { assert x.inPorts[p].result.None?; }
    var y := x.Receive(g.wires[k].targetPort, data).value;
    assert y.inPorts == Fill(x.inPorts, p, data);
    var t := Deliver(g, s, k, data).value;
    forall i | 0 <= i < |t.execs| ensures ExecOk(g, t, i) { assert ExecOk(g, s, i); }
    forall l | 0 <= l < |g.wires| ensures WireOk(g, v, t, un - {k}, l) {
      assert WireOk(g, v, s, un, l);
      if l != k && g.wires[l].target == tgt {
        assert InIndex(g, l) != p;
      }
    }
    forall i | 0 <= i < |t.execs| && t.execs[i].state == DONE && i !in unsaved ensures Saved(g, t, i) {
      assert Saved(g, s, i);
    }
  }

  lemma SkipKeeps(g: Graph, v: seq<seq<Table>>, s: Sys, un: set<nat>, unsaved: set<nat>, k: nat)
    requires WellWired(g) && Shaped(g, v) && Inv(g, v, s, un, unsaved) && k < |g.wires|
    requires s.execs[g.wires[k].target].state == DONE
    ensures Inv(g, v, s, un - {k}, unsaved)
  {
    forall l | 0 <= l < |g.wires| ensures WireOk(g, v, s, un - {k}, l) { assert WireOk(g, v, s, un, l); }
  }

  lemma SendOneKeeps(g: Graph, v: seq<seq<Table>>, s: Sys, un: set<nat>, unsaved: set<nat>, e: nat, k: nat,
                     onlyReady: bool)
    requires WellWired(g) && Shaped(g, v) && Inv(g, v, s, un, unsaved) && e < |s.execs|
    requires k in un && k < |g.wires| && g.wires[k].source == e
    ensures var r := SendOne(g, s, e, k, onlyReady);
      r.Ok? && Inv(g, v, r.value, un - {k}, unsaved) && SameWork(s, r.value) && r.value.cache == s.cache
      && forall i :: 0 <= i < |s.execs| && s.execs[i].state == DONE ==> r.value.execs[i] == s.execs[i]
  {
    assert WireOk(g, v, s, un, k);
    if s.execs[g.wires[k].target].state == DONE {
      SkipKeeps(g, v, s, un, unsaved, k);
    } else {
      assert ExecOk(g, s, e);
      FirstNamedIs(s.execs[e].outPorts, g.nodes[e].outs, OutIndex(g, k));
      DeliverKeeps(g, v, s, un, unsaved, k);
    }
  }

  lemma ElemsStep(g: Graph, e: nat, i: nat, un: set<nat>)
    requires i < |OutWires(g, e, 0)| && Elems(OutWires(g, e, 0)[i..]) <= un
    ensures var ks := OutWires(g, e, 0);
      ks[i] in un && Elems(ks[i + 1..]) <= un - {ks[i]} && un - {ks[i]} - Elems(ks[i + 1..]) == un - Elems(ks[i..])
  {
    OutWiresComplete(g, e);
    hide OutWires;
    var ks := OutWires(g, e, 0);
    assert ks[i..] == [ks[i]] + ks[i + 1..];
    assert Elems(ks[i..]) == {ks[i]} + Elems(ks[i + 1..]);
    assert ks[i] !in ks[i + 1..];
  }

  lemma {:induction false} SendFromKeeps(g: Graph, v: seq<seq<Table>>, s: Sys, un: set<nat>, unsaved: set<nat>, e: nat,
                                         i: nat, onlyReady: bool)
    requires WellWired(g) && Shaped(g, v) && Inv(g, v, s, un, unsaved) && e < |s.execs| && i <= |OutWires(g, e, 0)|
    requires Elems(OutWires(g, e, 0)[i..]) <= un
    ensures var r := SendFrom(g, s, e, i, onlyReady);
      r.Ok? && Inv(g, v, r.value, un - Elems(OutWires(g, e, 0)[i..]), unsaved) && SameWork(s, r.value)
      && r.value.cache == s.cache
      && forall l :: 0 <= l < |s.execs| && s.execs[l].state == DONE ==> r.value.execs[l] == s.execs[l]
    decreases |OutWires(g, e, 0)| - i
  {
    var ks := OutWires(g, e, 0);
    if i == |ks| {
      assert un - Elems(ks[i..]) == un;
    } else {
      ElemsStep(g, e, i, un);
      SendOneKeeps(g, v, s, un, unsaved, e, ks[i], onlyReady);
      SendFromKeeps(g, v, SendOne(g, s, e, ks[i], onlyReady).value, un - {ks[i]}, unsaved, e, i + 1, onlyReady);
    }
  }

  /** Caching saves every out-port, none being empty, and touches no other entry. */
  lemma {:induction false} CacheFromSaves(cache: map<PortId, Table>, e: nat, ports: seq<Port>, names: seq<string>,
                                          values: seq<Table>, j: nat)
    requires Named(ports, names) && Distinct(names) && Holds(ports, values) && j <= |ports|
    requires forall i :: 0 <= i < j ==> (e, names[i]) in cache && cache[(e, names[i])] == values[i]
    ensures var r := CacheFrom(cache, e, ports, j);
      && (forall i :: 0 <= i < |names| ==> (e, names[i]) in r && r[(e, names[i])] == values[i])
      && (forall q :: q in cache ==> q in r)
      && (forall q :: q in r && q.0 != e ==> q in cache && r[q] == cache[q])
    decreases |ports| - j
  {
    if j < |ports| {
      CacheFromSaves(cache[(e, ports[j].name) := values[j]], e, ports, names, values, j + 1);
    }
  }

  lemma ResultsAreReady(g: Graph, v: seq<seq<Table>>, s: Sys, e: nat)
    requires Closed(g) && Shaped(g, v) && Fits(g, s) && e < |s.execs| && ExecOk(g, s, e)
    requires Distinct(g.nodes[e].outs) && Holds(s.execs[e].outPorts, v[e])
    ensures ResultsReady(g, s.execs[e], OutWires(g, e, 0))
  {
    var ks := OutWires(g, e, 0);
    forall i | 0 <= i < |ks| ensures var r := s.execs[e].GetResult(g.wires[ks[i]].sourcePort); r.Ok? && r.value.Some? {
      FirstNamedIs(s.execs[e].outPorts, g.nodes[e].outs, OutIndex(g, ks[i]));
    }
  }

  /** outputResult of a just finished execution delivers everything, saves everything and releases its ports. */
  lemma OutputResultKeeps(g: Graph, v: seq<seq<Table>>, s: Sys, e: nat)
    requires WellWired(g) && Shaped(g, v) && e < |s.execs|
    requires Inv(g, v, s, Elems(OutWires(g, e, 0)), {e})
    requires s.execs[e].state == DONE && Holds(s.execs[e].outPorts, v[e])
    ensures var r := OutputResult(g, s, e);
      r.Ok? && Inv(g, v, r.value, {}, {}) && SameWork(s, r.value)
  {
    var ks := OutWires(g, e, 0);
    var un := Elems(ks);
    assert ExecOk(g, s, e);
    ResultsAreReady(g, v, s, e);
    assert ks[0..] == ks;
    SendFromKeeps(g, v, s, un, {e}, e, 0, false);
    var s1 := SendFrom(g, s, e, 0, false).value;
    assert un - Elems(ks) == {};
    SavedAndReleased(g, v, s1, e);
  }

  lemma SavedAndReleased(g: Graph, v: seq<seq<Table>>, s: Sys, e: nat)
    requires WellWired(g) && Shaped(g, v) && e < |s.execs| && Inv(g, v, s, {}, {e})
    requires s.execs[e].state == DONE && Holds(s.execs[e].outPorts, v[e])
    ensures Inv(g, v, SaveAndRelease(s, e), {}, {}) && SameWork(s, SaveAndRelease(s, e))
  {
    assert ExecOk(g, s, e);
    CacheFromSaves(s.cache, e, s.execs[e].outPorts, g.nodes[e].outs, v[e], 0);
    ReleaseKeeps(g, v, s, e, CacheFrom(s.cache, e, s.execs[e].outPorts, 0));
  }

  /** Releasing a DONE execution whose results are cached. */
  lemma ReleaseKeeps(g: Graph, v: seq<seq<Table>>, s: Sys, e: nat, cache: map<PortId, Table>)
    requires WellWired(g) && Shaped(g, v) && e < |s.execs| && Inv(g, v, s, {}, {e}) && s.execs[e].state == DONE
    requires forall i :: 0 <= i < |g.nodes[e].outs| ==>
      (e, g.nodes[e].outs[i]) in cache && cache[(e, g.nodes[e].outs[i])] == v[e][i]
    requires forall q :: q in s.cache ==> q in cache
    requires forall q :: q in cache && q.0 != e ==> q in s.cache && cache[q] == s.cache[q]
    ensures Inv(g, v, Sys(s.execs[e := s.execs[e].Release()], s.chans, cache), {}, {})
  {
    var t := Sys(s.execs[e := s.execs[e].Release()], s.chans, cache);
    forall i | 0 <= i < |t.execs| ensures ExecOk(g, t, i) { assert ExecOk(g, s, i); }
    forall l | 0 <= l < |g.wires| ensures WireOk(g, v, t, {}, l) { assert WireOk(g, v, s, {}, l); }
    forall i, j | 0 <= i < |v| && 0 <= j < |v[i]| && (i, g.nodes[i].outs[j]) in cache
      ensures cache[(i, g.nodes[i].outs[j])] == v[i][j] {
    }
    forall i | 0 <= i < |t.execs| && t.execs[i].state == DONE ensures Saved(g, t, i) {
      if i != e { assert Saved(g, s, i); }
    }
  }

  /** The inputs an unfinished execution has collected are the ones the evaluation gives it. */
  lemma InputsAre(g: Graph, v: seq<seq<Table>>, s: Sys, un: set<nat>, unsaved: set<nat>, e: nat)
    requires WellWired(g) && Shaped(g, v) && Inv(g, v, s, un, unsaved) && e < |s.execs|
    requires s.execs[e].state in {COMPLETE, SCHEDULED}
    ensures AllFilled(s.execs[e].inPorts) && Contents(s.execs[e].inPorts) == Inputs(g, v, e)
  {
    assert ExecOk(g, s, e);
    forall p | 0 <= p < |g.nodes[e].ins| ensures Contents(s.execs[e].inPorts)[p] == Inputs(g, v, e)[p] {
      var k := Feeder(g, e, p);
      assert WireOk(g, v, s, un, k);
      IndexOf(g.nodes[e].ins, p);
    }
  }

  /** A SCHEDULED execution either gets one call closer to the end, or is DONE with the values of the evaluation. */
  lemma ProcessKeeps(g: Graph, v: seq<seq<Table>>, s: Sys, e: nat)
    requires WellWired(g) && Evaluates(g, v) && Inv(g, v, s, {}, {}) && e < |s.execs| && s.execs[e].state == SCHEDULED
    ensures var r := s.execs[e].Process(e, g.compute);
      r.Ok? && var t := s.(execs := s.execs[e := r.value.0]);
      && (r.value.1 <==> t.execs[e].state == DONE) && (r.value.1 <==> s.execs[e].work == 0)
      && (!r.value.1 ==> Inv(g, v, t, {}, {}) && t.execs[e] == s.execs[e].(work := s.execs[e].work - 1))
      && (r.value.1 ==>
            Inv(g, v, t, Elems(OutWires(g, e, 0)), {e}) && Holds(t.execs[e].outPorts, v[e]) && t.execs[e].work == 0)
  {
    var x := s.execs[e];
    assert ExecOk(g, s, e);
    InputsAre(g, v, s, {}, {}, e);
    if x.work > 0 {
      Replace(g, v, s, {}, {}, e, x.(work := x.work - 1));
    } else {
      var ins := Contents(x.inPorts);
      PublishHolds(x, e, g.compute, ins, g.nodes[e].outs, 0);
      var y := x.PublishFrom(e, g.compute, ins, 0).value;
      var t := s.(execs := s.execs[e := y]);
      var un := Elems(OutWires(g, e, 0));
      OutWiresComplete(g, e);
      assert Holds(y.outPorts, v[e]);
      forall i | 0 <= i < |t.execs| ensures ExecOk(g, t, i) { assert ExecOk(g, s, i); }
      forall l | 0 <= l < |g.wires| ensures WireOk(g, v, t, un, l) { assert WireOk(g, v, s, {}, l); }
      forall i | 0 <= i < |t.execs| && t.execs[i].state == DONE && i !in {e} ensures Saved(g, t, i) {
        assert Saved(g, s, i);
      }
    }
  }

  lemma ScheduleKeeps(g: Graph, v: seq<seq<Table>>, s: Sys, e: nat)
    requires WellWired(g) && Shaped(g, v) && Inv(g, v, s, {}, {}) && e < |s.execs| && s.execs[e].state == COMPLETE
    ensures var r := s.execs[e].Schedule();
      r.Ok? && r.value == s.execs[e].(state := SCHEDULED, tasks := 1)
      && Inv(g, v, s.(execs := s.execs[e := r.value]), {}, {})
  {
    assert ExecOk(g, s, e);
    InputsAre(g, v, s, {}, {}, e);
    Replace(g, v, s, {}, {}, e, s.execs[e].(state := SCHEDULED, tasks := 1));
  }

  lemma {:induction false} ScheduleEachKeeps(g: Graph, v: seq<seq<Table>>, s: Sys, es: seq<nat>)
    requires WellWired(g) && Shaped(g, v) && Inv(g, v, s, {}, {})
    requires forall i :: 0 <= i < |es| ==> es[i] < |s.execs| && s.execs[es[i]].state in {COMPLETE, SCHEDULED}
    ensures var r := ScheduleEach(g, s, es);
      r.Ok? && Inv(g, v, r.value, {}, {}) && SameWork(s, r.value)
    decreases |es|
  {
    if es != [] {
      var e := es[0];
      if s.execs[e].state == COMPLETE {
        ScheduleKeeps(g, v, s, e);
        ScheduleEachKeeps(g, v, s.(execs := s.execs[e := s.execs[e].Schedule().value]), es[1..]);
      } else {
        ScheduleEachKeeps(g, v, s, es[1..]);
      }
    }
  }

  lemma FindExecutablesKeeps(g: Graph, v: seq<seq<Table>>, s: Sys, order: seq<nat>)
    requires WellWired(g) && Shaped(g, v) && Inv(g, v, s, {}, {})
    requires forall i :: 0 <= i < |order| ==> order[i] < |s.execs|
    ensures var r := FindExecutables(g, s, order);
      r.Ok? && Inv(g, v, r.value, {}, {}) && SameWork(s, r.value)
  {
    var es := Executables(s, order);
    forall i | 0 <= i < |es| ensures s.execs[es[i]].state in {COMPLETE, SCHEDULED} { assert ExecOk(g, s, es[i]); }
    ScheduleEachKeeps(g, v, s, es);
  }

  /** Remaining work: one unit for being unfinished, and one for every call of process() that will return false. */
  function WorkOf(x: Exec): nat {
    if x.state == DONE then 0 else x.work + 1
  }

  function Work(xs: seq<Exec>): nat {
    if xs == [] then 0 else WorkOf(xs[0]) + Work(xs[1..])
  }

  lemma {:induction false} WorkMonotone(xs: seq<Exec>, ys: seq<Exec>)
    requires |xs| == |ys| && forall i :: 0 <= i < |xs| ==> WorkOf(ys[i]) <= WorkOf(xs[i])
    ensures Work(ys) <= Work(xs)
    ensures (exists i :: 0 <= i < |xs| && WorkOf(ys[i]) < WorkOf(xs[i])) ==> Work(ys) < Work(xs)
  {
    if xs != [] {
      WorkMonotone(xs[1..], ys[1..]);
      if i :| 0 <= i < |xs| && WorkOf(ys[i]) < WorkOf(xs[i]) {
        assert i > 0 ==> WorkOf(ys[1..][i - 1]) < WorkOf(xs[1..][i - 1]);
      }
    }
  }

  /** What is known of the executions counted as running: processed in this step, and unfinished. */
  ghost predicate RunningOk(maxPar: nat, s: Sys, running: set<nat>) {
    |running| <= maxPar && forall e :: e in running ==> e < |s.execs| && s.execs[e].state == SCHEDULED
  }

  /** Whoever was processed between `s` and `t` and is still unfinished is counted in `now`. */
  ghost predicate Accounted(s: Sys, t: Sys, before: set<nat>, now: set<nat>) {
    && |t.execs| == |s.execs|
    && (forall e :: e in before && e < |t.execs| && t.execs[e].state != DONE ==> e in now)
    && (forall e :: 0 <= e < |s.execs| && t.execs[e].work < s.execs[e].work && t.execs[e].state != DONE ==> e in now)
  }

  lemma RunningStays(maxPar: nat, s: Sys, t: Sys, running: set<nat>, e: nat)
    requires RunningOk(maxPar, s, running) && |t.execs| == |s.execs|
    requires forall i :: 0 <= i < |s.execs| && i != e && s.execs[i].state == SCHEDULED ==> t.execs[i].state == SCHEDULED
    ensures RunningOk(maxPar, t, running - {e})
  {
    if e in running { } else { assert running - {e} == running; }
  }

  /** What a finished execution hands on. */
  lemma FinishedKeeps(g: Graph, v: seq<seq<Table>>, maxPar: nat, s: Sys, running: set<nat>, e: nat, y: Exec)
    requires WellWired(g) && Evaluates(g, v) && Fits(g, s) && e < |s.execs| && s.execs[e].state == SCHEDULED
    requires y.state == DONE
    requires RunningOk(maxPar, s, running) && Onward(s.execs[e], y) && y.work == 0
    requires var s1 := s.(execs := s.execs[e := y]);
      Inv(g, v, s1, Elems(OutWires(g, e, 0)), {e}) && Holds(y.outPorts, v[e])
    ensures var r := OutputResult(g, s.(execs := s.execs[e := y]), e);
      && r.Ok? && Inv(g, v, r.value, {}, {}) && Advances(s, r.value) && RunningOk(maxPar, r.value, running - {e})
      && Accounted(s, r.value, running, running - {e}) && WorkOf(r.value.execs[e]) == WorkOf(y)
  {
    var s1 := s.(execs := s.execs[e := y]);
    OutputResultKeeps(g, v, s1, e);
    RunningStays(maxPar, s, OutputResult(g, s1, e).value, running, e);
  }

  lemma ProcessIfRoomKeeps(g: Graph, v: seq<seq<Table>>, maxPar: nat, s: Sys, running: set<nat>, e: nat)
    requires WellWired(g) && Evaluates(g, v) && Inv(g, v, s, {}, {}) && e < |s.execs| && s.execs[e].state == SCHEDULED
    requires RunningOk(maxPar, s, running)
    ensures var r := ProcessIfRoom(g, maxPar, s, running, e);
      r.Ok? && Inv(g, v, r.value.0, {}, {}) && Advances(s, r.value.0) && RunningOk(maxPar, r.value.0, r.value.1)
      && Accounted(s, r.value.0, running, r.value.1)
      && (running == {} && maxPar > 0 ==> WorkOf(r.value.0.execs[e]) < WorkOf(s.execs[e]))
  {
    if |running| < maxPar || e in running {
      ProcessKeeps(g, v, s, e);
      var y := s.execs[e].Process(e, g.compute).value;
      if y.1 {
        FinishedKeeps(g, v, maxPar, s, running, e, y.0);
      } else {
        assert running + {e} == if e in running then running else running + {e};
      }
    }
  }

  /** One visit never throws, keeps the invariant and the parallelism bound, and does work if there is room. */
  lemma VisitKeeps(g: Graph, v: seq<seq<Table>>, maxPar: nat, s: Sys, running: set<nat>, e: nat)
    requires WellWired(g) && Evaluates(g, v) && Inv(g, v, s, {}, {}) && e < |s.execs| && RunningOk(maxPar, s, running)
    ensures var r := Visit(g, maxPar, s, running, e);
      r.Ok? && Inv(g, v, r.value.0, {}, {}) && Advances(s, r.value.0) && RunningOk(maxPar, r.value.0, r.value.1)
      && Accounted(s, r.value.0, running, r.value.1)
      && (!Executable(s.execs[e].state) ==> r.value == (s, running))
      && (Executable(s.execs[e].state) && running == {} && maxPar > 0 ==>
            WorkOf(r.value.0.execs[e]) < WorkOf(s.execs[e]))
  {
    assert ExecOk(g, s, e);
    if s.execs[e].state == COMPLETE {
      ScheduleKeeps(g, v, s, e);
      var s1 := s.(execs := s.execs[e := s.execs[e].Schedule().value]);
      assert RunningOk(maxPar, s1, running);
      ProcessIfRoomKeeps(g, v, maxPar, s1, running, e);
    } else if s.execs[e].state == SCHEDULED {
      ProcessIfRoomKeeps(g, v, maxPar, s, running, e);
    }
  }
}
