/** The main results on the query processor: no fault, progress, termination, and one possible outcome. */
module SchedulerTheorems {
  import opened Wrappers
  import opened Dataflow
  import opened ExecutionModel
  import opened Scheduler
  import opened SchedulerInvariant

  lemma OnwardWork(s: Sys, t: Sys)
    requires Advances(s, t)
    ensures Work(t.execs) <= Work(s.execs)
    ensures forall e :: 0 <= e < |s.execs| && WorkOf(t.execs[e]) < WorkOf(s.execs[e]) ==> Work(t.execs) < Work(s.execs)
  {
    WorkMonotone(s.execs, t.execs);
  }

  lemma TurnKeeps(g: Graph, v: seq<seq<Table>>, maxPar: nat, s: Sys, running: set<nat>, order: seq<nat>, e: nat)
    requires WellWired(g) && Evaluates(g, v) && Inv(g, v, s, {}, {}) && e < |s.execs| && RunningOk(maxPar, s, running)
    requires forall i :: 0 <= i < |order| ==> order[i] < |g.nodes|
    ensures var r := Turn(g, maxPar, s, running, order, e);
      r.Ok? && Inv(g, v, r.value.0, {}, {}) && Advances(s, r.value.0) && RunningOk(maxPar, r.value.0, r.value.1)
      && Accounted(s, r.value.0, running, r.value.1)
      && Work(r.value.0.execs) <= Work(s.execs)
      && (!Executable(s.execs[e].state) ==> r.value.1 == running)
      && (Executable(s.execs[e].state) && running == {} && maxPar > 0 ==> Work(r.value.0.execs) < Work(s.execs))
  {
    VisitKeeps(g, v, maxPar, s, running, e);
    var w := Visit(g, maxPar, s, running, e).value;
    FindExecutablesKeeps(g, v, w.0, order);
    var t := FindExecutables(g, w.0, order).value;
    forall i | 0 <= i < |s.execs| ensures Onward(s.execs[i], t.execs[i]) {
      assert Onward(s.execs[i], w.0.execs[i]) && Idle(w.0.execs[i], t.execs[i]);
    }
    OnwardWork(s, t);
    if WorkOf(w.0.execs[e]) < WorkOf(s.execs[e]) {
      assert Idle(w.0.execs[e], t.execs[e]);
    }
  }

  /** The turns of one step never throw. */
  lemma {:induction false} TurnsKeep(g: Graph, v: seq<seq<Table>>, maxPar: nat, s: Sys, running: set<nat>,
                                     order: seq<nat>, i: nat)
    requires WellWired(g) && Evaluates(g, v) && Inv(g, v, s, {}, {}) && RunningOk(maxPar, s, running)
    requires i <= |order| && forall l :: 0 <= l < |order| ==> order[l] < |g.nodes|
    ensures var r := Turns(g, maxPar, s, running, order, i);
      r.Ok? && Inv(g, v, r.value.0, {}, {}) && Advances(s, r.value.0) && RunningOk(maxPar, r.value.0, r.value.1)
      && Accounted(s, r.value.0, running, r.value.1) && Work(r.value.0.execs) <= Work(s.execs)
    decreases |order| - i
  {
    if i < |order| {
      TurnKeeps(g, v, maxPar, s, running, order, order[i]);
      var t := Turn(g, maxPar, s, running, order, order[i]).value;
      TurnsKeep(g, v, maxPar, t.0, t.1, order, i + 1);
      var u := Turns(g, maxPar, t.0, t.1, order, i + 1).value;
    }
  }

  /** If one of the listed executions can be processed, the turns reduce the remaining work. */
  lemma {:induction false} TurnsWork(g: Graph, v: seq<seq<Table>>, maxPar: nat, s: Sys, order: seq<nat>, i: nat, l: nat)
    requires WellWired(g) && Evaluates(g, v) && Inv(g, v, s, {}, {}) && maxPar > 0
    requires i <= l < |order| && (forall l :: 0 <= l < |order| ==> order[l] < |g.nodes|)
    requires Executable(s.execs[order[l]].state)
    ensures var r := Turns(g, maxPar, s, {}, order, i); r.Ok? && Work(r.value.0.execs) < Work(s.execs)
    decreases |order| - i
  {
    hide Turn;
    hide Work;
    TurnKeeps(g, v, maxPar, s, {}, order, order[i]);
    var t := Turn(g, maxPar, s, {}, order, order[i]).value;
    assert Turns(g, maxPar, s, {}, order, i) == Turns(g, maxPar, t.0, t.1, order, i + 1);
    StillExecutable(s, t.0, order[l]);
    if Work(t.0.execs) < Work(s.execs) {
      TurnsKeep(g, v, maxPar, t.0, t.1, order, i + 1);
    } else {
      TurnsWork(g, v, maxPar, t.0, order, i + 1, l);
    }
  }

  lemma StillExecutable(s: Sys, t: Sys, e: nat)
    requires Advances(s, t) && e < |s.execs| && Executable(s.execs[e].state)
    ensures Executable(t.execs[e].state) || Work(t.execs) < Work(s.execs)
  {
    assert Onward(s.execs[e], t.execs[e]);
    if t.execs[e].state == DONE {
      OnwardWork(s, t);
      assert WorkOf(t.execs[e]) < WorkOf(s.execs[e]);
    }
  }

  /** An unfinished well-wired graph always has an execution that can be processed: one all of whose sources are DONE.
      */
  lemma {:induction false} SomeExecutable(g: Graph, v: seq<seq<Table>>, s: Sys, rank: seq<nat>, e: nat) returns (x: nat)
    requires WellWired(g) && Shaped(g, v) && Inv(g, v, s, {}, {}) && Ranked(g, rank) && e < |s.execs|
    requires s.execs[e].state != DONE
    ensures x < |s.execs| && Executable(s.execs[x].state)
    decreases rank[e]
  {
    assert ExecOk(g, s, e);
    if s.execs[e].state == INITIAL {
      var p :| 0 <= p < |s.execs[e].inPorts| && s.execs[e].inPorts[p].result.None?;
      var k := Feeder(g, e, p);
      assert WireOk(g, v, s, {}, k);
      IndexOf(g.nodes[e].ins, p);
      x := SomeExecutable(g, v, s, rank, g.wires[k].source);
    } else {
      x := e;
    }
  }

  /** One step: it never throws, it keeps the invariant, at most `maxPar` executions are processed without
      finishing, and unless all are DONE it strictly reduces the remaining work. */
  lemma StepProgress(g: Graph, v: seq<seq<Table>>, maxPar: nat, s: Sys, order: seq<nat>)
    requires WellWired(g) && Evaluates(g, v) && Inv(g, v, s, {}, {}) && Ordering(g, order) && maxPar > 0
    ensures var r := Turns(g, maxPar, s, {}, order, 0);
      && r.Ok? && Inv(g, v, r.value.0, {}, {}) && Advances(s, r.value.0)
      && |r.value.1| <= maxPar && Accounted(s, r.value.0, {}, r.value.1)
      && (!AllDone(s) ==> Work(r.value.0.execs) < Work(s.execs))
  {
    assert RunningOk(maxPar, s, {});
    TurnsKeep(g, v, maxPar, s, {}, order, 0);
    if !AllDone(s) {
      var e :| 0 <= e < |s.execs| && s.execs[e].state != DONE;
      var rank :| Ranked(g, rank);
      var x := SomeExecutable(g, v, s, rank, e);
      assert x in order;
      var l :| 0 <= l < |order| && order[l] == x;
      TurnsWork(g, v, maxPar, s, order, 0, l);
    }
  }

  lemma NoWorkIsDone(xs: seq<Exec>)
    requires Work(xs) == 0
    ensures forall e :: 0 <= e < |xs| ==> xs[e].state == DONE
  {
    if xs != [] {
      NoWorkIsDone(xs[1..]);
      assert forall e :: 0 < e < |xs| ==> xs[e] == xs[1..][e - 1];
    }
  }

  /** Any run of steps, each with its own iteration order, stays fault free; it is complete after at most
      as many steps as there was work. */
  lemma {:induction false} RunProgress(g: Graph, v: seq<seq<Table>>, maxPar: nat, s: Sys, steps: seq<seq<nat>>)
    requires WellWired(g) && Evaluates(g, v) && Inv(g, v, s, {}, {}) && maxPar > 0
    requires forall i :: 0 <= i < |steps| ==> Ordering(g, steps[i])
    ensures var r := Run(g, maxPar, s, steps);
      r.Ok? && Inv(g, v, r.value, {}, {}) && Advances(s, r.value) && (|steps| >= Work(s.execs) ==> AllDone(r.value))
    decreases |steps|
  {
    if steps == [] {
      if Work(s.execs) == 0 { NoWorkIsDone(s.execs); }
    } else {
      StepProgress(g, v, maxPar, s, steps[0]);
      var t := Turns(g, maxPar, s, {}, steps[0], 0).value.0;
      RunProgress(g, v, maxPar, t, steps[1..]);
      if AllDone(s) {
        forall e | 0 <= e < |s.execs| ensures Run(g, maxPar, s, steps).value.execs[e].state == DONE {
          assert Onward(s.execs[e], Run(g, maxPar, s, steps).value.execs[e]);
        }
      }
    }
  }

  // ---- preloading from the cache

  /** While the cache is read: nothing has been sent, every filled out-port has its right value and is cached. */
  ghost predicate PreOk(g: Graph, v: seq<seq<Table>>, s: Sys, e: nat)
    requires Fits(g, s) && Shaped(g, v) && e < |s.execs|
  {
    var x := s.execs[e];
    && Named(x.inPorts, g.nodes[e].ins) && Named(x.outPorts, g.nodes[e].outs) && x.tasks == 0
    && (forall p :: 0 <= p < |x.inPorts| ==> x.inPorts[p].result.None?)
    && (forall j :: 0 <= j < |x.outPorts| && x.outPorts[j].result.Some? ==>
          x.outPorts[j].result.value == v[e][j] && (e, g.nodes[e].outs[j]) in s.cache)
    && x.state == if AllFilled(x.outPorts) then DONE else if g.nodes[e].ins == [] then COMPLETE else INITIAL
  }

  ghost predicate Preloading(g: Graph, v: seq<seq<Table>>, s: Sys)
    requires WellWired(g) && Shaped(g, v)
  {
    && Fits(g, s) && Truthful(g, v, s.cache)
    && (forall e :: 0 <= e < |s.execs| ==> PreOk(g, v, s, e))
    && (forall k :: 0 <= k < |s.chans| ==> s.chans[k] == READY)
  }

  lemma PreOkStays(g: Graph, v: seq<seq<Table>>, s: Sys, t: Sys, e: nat)
    requires WellWired(g) && Shaped(g, v) && Preloading(g, v, s) && Fits(g, t) && e < |s.execs|
    requires t.execs[e] == s.execs[e] && t.cache == s.cache
    ensures PreOk(g, v, t, e)
  {
    assert PreOk(g, v, s, e);
  }

  /** One port that the cache knows. */
  lemma PreloadPortKeeps(g: Graph, v: seq<seq<Table>>, s: Sys, e: nat, j: nat)
    requires WellWired(g) && Shaped(g, v) && Preloading(g, v, s) && e < |s.execs| && j < |s.execs[e].outPorts|
    requires (e, s.execs[e].outPorts[j].name) in s.cache
    ensures var x, name := s.execs[e], s.execs[e].outPorts[j].name;
      var y := x.SetResult(name, s.cache[(e, name)]);
      && y.Ok? && y.value.outPorts == Fill(x.outPorts, j, Some(s.cache[(e, name)]))
      && Preloading(g, v, s.(execs := s.execs[e := y.value]))
  {
    assert PreOk(g, v, s, e);
    var x := s.execs[e];
    var name := x.outPorts[j].name;
    FirstNamedIs(x.outPorts, g.nodes[e].outs, j);
    assert s.cache[(e, name)] == v[e][j];
    var y := x.SetResult(name, s.cache[(e, name)]).value;
    var t := s.(execs := s.execs[e := y]);
    assert PreOk(g, v, t, e);
    hide PreOk;
    forall i | 0 <= i < |t.execs| ensures PreOk(g, v, t, i) {
      if i != e { PreOkStays(g, v, s, t, i); }
    }
  }

  lemma {:induction false} PreloadPortsKeeps(g: Graph, v: seq<seq<Table>>, s: Sys, e: nat, j: nat)
    requires WellWired(g) && Shaped(g, v) && Preloading(g, v, s) && e < |s.execs| && j <= |s.execs[e].outPorts|
    ensures var r := PreloadPorts(s, e, j); r.Ok? && Preloading(g, v, r.value)
    decreases |s.execs[e].outPorts| - j
  {
    hide PreOk;
    if j < |s.execs[e].outPorts| {
      var x := s.execs[e];
      var name := x.outPorts[j].name;
      if (e, name) in s.cache {
        PreloadPortKeeps(g, v, s, e, j);
        PreloadPortsKeeps(g, v, s.(execs := s.execs[e := x.SetResult(name, s.cache[(e, name)]).value]), e, j + 1);
      } else {
        PreloadPortsKeeps(g, v, s, e, j + 1);
      }
    }
  }

  lemma {:induction false} PreloadEachKeeps(g: Graph, v: seq<seq<Table>>, s: Sys, es: seq<nat>)
    requires WellWired(g) && Shaped(g, v) && Preloading(g, v, s) && forall i :: 0 <= i < |es| ==> es[i] < |s.execs|
    ensures var r := PreloadEach(g, s, es); r.Ok? && Preloading(g, v, r.value)
    decreases |es|
  {
    if es != [] {
      PreloadPortsKeeps(g, v, s, es[0], 0);
      PreloadEachKeeps(g, v, PreloadPorts(s, es[0], 0).value, es[1..]);
    }
  }

  /** The channels whose source is DONE and still listed in `es`. */
  ghost function Unsent(g: Graph, s: Sys, es: seq<nat>): set<nat>
    requires Fits(g, s) && Closed(g)
  {
    set k | 0 <= k < |g.wires| && g.wires[k].source in es && s.execs[g.wires[k].source].state == DONE
  }

  lemma PreloadedInv(g: Graph, v: seq<seq<Table>>, s: Sys, order: seq<nat>)
    requires WellWired(g) && Shaped(g, v) && Preloading(g, v, s) && Ordering(g, order)
    ensures Inv(g, v, s, Unsent(g, s, order), {})
  {
    forall e | 0 <= e < |s.execs| ensures ExecOk(g, s, e) && (s.execs[e].state == DONE ==> Saved(g, s, e)) {
      assert PreOk(g, v, s, e);
      assert g.nodes[e].ins != [] ==> s.execs[e].inPorts[0].result.None?;
    }
    var un := Unsent(g, s, order);
    forall k | 0 <= k < |g.wires| ensures WireOk(g, v, s, un, k) {
      assert PreOk(g, v, s, g.wires[k].source) && PreOk(g, v, s, g.wires[k].target);
    }
  }

  lemma ForwardOneKeeps(g: Graph, v: seq<seq<Table>>, s: Sys, es: seq<nat>)
    requires WellWired(g) && Shaped(g, v) && Fits(g, s) && Inv(g, v, s, Unsent(g, s, es), {})
    requires es != [] && es[0] < |s.execs|
    requires forall i, j :: 0 <= i < j < |es| ==> es[i] != es[j]
    ensures var r := ForwardOne(g, s, es[0]); r.Ok? && Inv(g, v, r.value, Unsent(g, r.value, es[1..]), {})
  {
    var e := es[0];
    var un := Unsent(g, s, es);
    if s.execs[e].state == DONE {
      var ks := OutWires(g, e, 0);
      assert ks[0..] == ks;
      OutWiresComplete(g, e);
      SendFromKeeps(g, v, s, un, {}, e, 0, true);
      var s1 := SendFrom(g, s, e, 0, true).value;
      assert forall i :: 0 <= i < |s.execs| ==> Idle(s.execs[i], s1.execs[i]);
      ReleaseAfterSending(g, v, s1, un - Elems(ks), e);
      SentRest(g, s, ForwardOne(g, s, e).value, es, ks);
    } else {
      assert Unsent(g, s, es[1..]) == un;
    }
  }

  lemma {:induction false} ForwardEachKeeps(g: Graph, v: seq<seq<Table>>, s: Sys, es: seq<nat>)
    requires WellWired(g) && Shaped(g, v) && Fits(g, s) && Inv(g, v, s, Unsent(g, s, es), {})
    requires forall i :: 0 <= i < |es| ==> es[i] < |s.execs|
    requires forall i, j :: 0 <= i < j < |es| ==> es[i] != es[j]
    ensures var r := ForwardEach(g, s, es); r.Ok? && Inv(g, v, r.value, {}, {})
    decreases |es|
  {
    if es == [] {
      assert Unsent(g, s, es) == {};
    } else {
      ForwardOneKeeps(g, v, s, es);
      ForwardEachKeeps(g, v, ForwardOne(g, s, es[0]).value, es[1..]);
    }
  }

  lemma SentRest(g: Graph, s: Sys, t: Sys, es: seq<nat>, ks: seq<nat>)
    requires Closed(g) && Fits(g, s) && Fits(g, t) && es != [] && es[0] < |s.execs| && ks == OutWires(g, es[0], 0)
    requires forall i, j :: 0 <= i < j < |es| ==> es[i] != es[j]
    requires forall i :: 0 <= i < |s.execs| ==> (t.execs[i].state == DONE <==> s.execs[i].state == DONE)
    ensures Unsent(g, t, es[1..]) == Unsent(g, s, es) - Elems(ks)
  {
    OutWiresComplete(g, es[0]);
  }

  lemma ReleaseAfterSending(g: Graph, v: seq<seq<Table>>, s: Sys, un: set<nat>, e: nat)
    requires WellWired(g) && Shaped(g, v) && Inv(g, v, s, un, {}) && e < |s.execs| && s.execs[e].state == DONE
    requires forall k :: 0 <= k < |g.wires| && g.wires[k].source == e ==> k !in un
    ensures Inv(g, v, s.(execs := s.execs[e := s.execs[e].Release()]), un, {})
  {
    var t := s.(execs := s.execs[e := s.execs[e].Release()]);
    forall i | 0 <= i < |t.execs| ensures ExecOk(g, t, i) { assert ExecOk(g, s, i); }
    forall l | 0 <= l < |g.wires| ensures WireOk(g, v, t, un, l) { assert WireOk(g, v, s, un, l); }
    forall i | 0 <= i < |t.execs| && t.execs[i].state == DONE ensures Saved(g, t, i) { assert Saved(g, s, i); }
  }

  /** Preloading any truthful cache, even one that knows only some ports of an execution, reaches the invariant. */
  lemma LoadFromCacheKeeps(g: Graph, v: seq<seq<Table>>, s: Sys, order: seq<nat>, disableCache: bool)
    requires WellWired(g) && Shaped(g, v) && Fresh(g, s) && Truthful(g, v, s.cache) && Ordering(g, order)
    ensures var r := LoadFromCache(g, s, order, disableCache); r.Ok? && Inv(g, v, r.value, {}, {})
  {
    forall e | 0 <= e < |s.execs| ensures PreOk(g, v, s, e) {
      assert g.nodes[e].outs != [];
      assert s.execs[e].outPorts[0].result.None?;
    }
    var s1 := s;
    if !disableCache {
      PreloadEachKeeps(g, v, s, order);
      s1 := PreloadEach(g, s, order).value;
    }
    PreloadedInv(g, v, s1, order);
    ForwardEachKeeps(g, v, s1, order);
  }

  /** A whole run: prepare from a cache, then steps with any iteration orders. */
  ghost function Execute(g: Graph, maxPar: nat, s: Sys, loadOrder: seq<nat>, disableCache: bool, steps: seq<seq<nat>>):
    Result<Sys, Fault>
    requires Fits(g, s) && Closed(g) && forall i :: 0 <= i < |loadOrder| ==> loadOrder[i] < |g.nodes|
    requires forall i :: 0 <= i < |steps| ==> Ordering(g, steps[i])
  {
    var s1 :- LoadFromCache(g, s, loadOrder, disableCache);
    Run(g, maxPar, s1, steps)
  }

  /** Every out-port of every execution is found in the cache, with its value under `v`. */
  ghost predicate AllCached(g: Graph, v: seq<seq<Table>>, cache: map<PortId, Table>)
    requires Shaped(g, v)
  {
    forall e, j {:trigger v[e][j]} :: 0 <= e < |v| && 0 <= j < |v[e]| ==>
      (e, g.nodes[e].outs[j]) in cache && cache[(e, g.nodes[e].outs[j])] == v[e][j]
  }

  lemma CachedAt(g: Graph, v: seq<seq<Table>>, cache: map<PortId, Table>, e: nat, j: nat)
    requires Shaped(g, v) && AllCached(g, v, cache) && e < |v| && j < |v[e]|
    ensures (e, g.nodes[e].outs[j]) in cache && cache[(e, g.nodes[e].outs[j])] == v[e][j]
  {
    var x := v[e][j];
  }

  lemma DoneIsCached(g: Graph, v: seq<seq<Table>>, s: Sys)
    requires WellWired(g) && Shaped(g, v) && Inv(g, v, s, {}, {}) && AllDone(s)
    ensures AllCached(g, v, s.cache)
  {
    forall e, j | 0 <= e < |v| && 0 <= j < |v[e]|
      ensures (e, g.nodes[e].outs[j]) in s.cache && s.cache[(e, g.nodes[e].outs[j])] == v[e][j] {
      assert Saved(g, s, e);
    }
  }

  /** Confluence. Whatever the graph, the iteration orders, the parallelism bound, the number of process() calls
      each execution needs and the truthful subset of results found in the cache: no call throws, the run is
      complete after finitely many steps, and once it is complete every out-port holds, in the cache, its value
      in the topological evaluation. */
  lemma Confluence(g: Graph, v: seq<seq<Table>>, maxPar: nat, s: Sys, loadOrder: seq<nat>, disableCache: bool,
                   steps: seq<seq<nat>>)
    requires WellWired(g) && Evaluates(g, v) && maxPar > 0
    requires Fresh(g, s) && Truthful(g, v, s.cache) && Ordering(g, loadOrder)
    requires forall i :: 0 <= i < |steps| ==> Ordering(g, steps[i])
    ensures var r := Execute(g, maxPar, s, loadOrder, disableCache, steps);
      && r.Ok?
      && (|steps| >= Work(s.execs) ==> AllDone(r.value))
      && (AllDone(r.value) ==> AllCached(g, v, r.value.cache))
  {
    LoadFromCacheKeeps(g, v, s, loadOrder, disableCache);
    LoadGainsNoWork(g, s, loadOrder, disableCache);
    var s1 := LoadFromCache(g, s, loadOrder, disableCache).value;
    RunProgress(g, v, maxPar, s1, steps);
    var t := Run(g, maxPar, s1, steps).value;
    if AllDone(t) {
      DoneIsCached(g, v, t);
    }
  }

  /** Hence two complete runs agree on every out-port, however differently they went. */
  lemma RunsAgree(g: Graph, v: seq<seq<Table>>, maxPar: nat, maxPar': nat, s: Sys, s': Sys, order: seq<nat>,
                  order': seq<nat>,
                  disable: bool, disable': bool, steps: seq<seq<nat>>, steps': seq<seq<nat>>, e: nat, j: nat)
    requires WellWired(g) && Evaluates(g, v) && maxPar > 0 && maxPar' > 0
    requires Fresh(g, s) && Truthful(g, v, s.cache) && Ordering(g, order)
    requires Fresh(g, s') && Truthful(g, v, s'.cache) && Ordering(g, order')
    requires forall i :: 0 <= i < |steps| ==> Ordering(g, steps[i])
    requires forall i :: 0 <= i < |steps'| ==> Ordering(g, steps'[i])
    requires |steps| >= Work(s.execs) && |steps'| >= Work(s'.execs)
    requires e < |g.nodes| && j < |g.nodes[e].outs|
    ensures var q := (e, g.nodes[e].outs[j]);
      var r, r' := Execute(g, maxPar, s, order, disable, steps), Execute(g, maxPar', s', order', disable', steps');
      r.Ok? && r'.Ok? && q in r.value.cache && q in r'.value.cache && r.value.cache[q] == r'.value.cache[q]
  {
    Confluence(g, v, maxPar, s, order, disable, steps);
    Confluence(g, v, maxPar', s', order', disable', steps');
    assert |v| == |g.nodes| && |v[e]| == |g.nodes[e].outs|;
    CachedAt(g, v, Execute(g, maxPar, s, order, disable, steps).value.cache, e, j);
    CachedAt(g, v, Execute(g, maxPar', s', order', disable', steps').value.cache, e, j);
  }

  // ---- the cache never adds work

  ghost predicate Lighter(s: Sys, t: Sys) {
    |t.execs| == |s.execs| && forall e :: 0 <= e < |s.execs| ==> WorkOf(t.execs[e]) <= WorkOf(s.execs[e])
  }

  lemma SendOneLighter(g: Graph, s: Sys, e: nat, k: nat, onlyReady: bool)
    requires Fits(g, s) && Closed(g) && e < |g.nodes| && k < |g.wires|
    ensures var r := SendOne(g, s, e, k, onlyReady); r.Ok? ==> Lighter(s, r.value)
  {
  }

  lemma {:induction false} SendFromLighter(g: Graph, s: Sys, e: nat, i: nat, onlyReady: bool)
    requires Fits(g, s) && Closed(g) && e < |g.nodes| && i <= |OutWires(g, e, 0)|
    ensures var r := SendFrom(g, s, e, i, onlyReady); r.Ok? ==> Lighter(s, r.value)
    decreases |OutWires(g, e, 0)| - i
  {
    hide OutWires;
    hide SendOne;
    hide WorkOf;
    if i < |OutWires(g, e, 0)| {
      var t := SendOne(g, s, e, OutWires(g, e, 0)[i], onlyReady);
      SendOneLighter(g, s, e, OutWires(g, e, 0)[i], onlyReady);
      if t.Ok? { SendFromLighter(g, t.value, e, i + 1, onlyReady); }
    }
  }

  lemma {:induction false} ForwardEachLighter(g: Graph, s: Sys, es: seq<nat>)
    requires Fits(g, s) && Closed(g) && forall i :: 0 <= i < |es| ==> es[i] < |s.execs|
    ensures var r := ForwardEach(g, s, es); r.Ok? ==> Lighter(s, r.value)
    decreases |es|
  {
    if es != [] {
      SendFromLighter(g, s, es[0], 0, true);
      var t := ForwardOne(g, s, es[0]);
      if t.Ok? { ForwardEachLighter(g, t.value, es[1..]); }
    }
  }

  lemma {:induction false} PreloadPortsLighter(s: Sys, e: nat, j: nat)
    requires e < |s.execs| && j <= |s.execs[e].outPorts|
    ensures var r := PreloadPorts(s, e, j); r.Ok? ==> Lighter(s, r.value)
    decreases |s.execs[e].outPorts| - j
  {
    if j < |s.execs[e].outPorts| {
      var name := s.execs[e].outPorts[j].name;
      if (e, name) in s.cache {
        var x := s.execs[e].SetResult(name, s.cache[(e, name)]);
        if x.Ok? { PreloadPortsLighter(s.(execs := s.execs[e := x.value]), e, j + 1); }
      } else {
        PreloadPortsLighter(s, e, j + 1);
      }
    }
  }

  lemma {:induction false} PreloadEachLighter(g: Graph, s: Sys, es: seq<nat>)
    requires Fits(g, s) && forall i :: 0 <= i < |es| ==> es[i] < |s.execs|
    ensures var r := PreloadEach(g, s, es); r.Ok? ==> Lighter(s, r.value)
    decreases |es|
  {
    if es != [] {
      PreloadPortsLighter(s, es[0], 0);
      var r := PreloadPorts(s, es[0], 0);
      if r.Ok? { PreloadEachLighter(g, r.value, es[1..]); }
    }
  }

  lemma LoadGainsNoWork(g: Graph, s: Sys, order: seq<nat>, disableCache: bool)
    requires Fits(g, s) && Closed(g) && forall i :: 0 <= i < |order| ==> order[i] < |g.nodes|
    ensures var r := LoadFromCache(g, s, order, disableCache); r.Ok? ==> Work(r.value.execs) <= Work(s.execs)
  {
    var r := LoadFromCache(g, s, order, disableCache);
    if r.Ok? {
      PreloadEachLighter(g, s, order);
      var s1 := if disableCache then s else PreloadEach(g, s, order).value;
      ForwardEachLighter(g, s1, order);
      WorkMonotone(s.execs, r.value.execs);
    }
  }
}
