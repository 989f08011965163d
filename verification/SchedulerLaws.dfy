/** What the query processor's operations leave behind: loading from the cache, scheduling, the use of the room for
    parallel executions, and the release of data. */
module SchedulerLaws {
  import opened Wrappers
  import opened Dataflow
  import opened ExecutionModel
  import opened Scheduler
  import opened SchedulerInvariant
  import opened SchedulerTheorems

  // ---- loading from the cache

  /** Every out-port of the execution is found in the cache. */
  ghost predicate Cached(g: Graph, cache: map<PortId, Table>, e: nat)
    requires e < |g.nodes|
  {
    forall j :: 0 <= j < |g.nodes[e].outs| ==> (e, g.nodes[e].outs[j]) in cache
  }

  /** What the cache says every out-port holds, where it says anything. */
  ghost function CacheValues(g: Graph, cache: map<PortId, Table>): (v: seq<seq<Table>>)
    ensures Shaped(g, v) && Truthful(g, v, cache)
  {
    seq(|g.nodes|, e requires 0 <= e < |g.nodes| =>
      seq(|g.nodes[e].outs|, j requires 0 <= j < |g.nodes[e].outs| =>
        if (e, g.nodes[e].outs[j]) in cache then cache[(e, g.nodes[e].outs[j])] else []))
  }

  /** The ports of `e` from `j` on have been filled as far as the cache knows them. */
  ghost predicate FilledFrom(g: Graph, s: Sys, e: nat, j: nat)
    requires Fits(g, s) && e < |s.execs|
  {
    |s.execs[e].outPorts| == |g.nodes[e].outs|
    && forall i :: j <= i < |s.execs[e].outPorts| && (e, g.nodes[e].outs[i]) in s.cache ==>
      s.execs[e].outPorts[i].result.Some?
  }

  /** The first state's ports are still as full, and nothing but `e` has changed. */
  ghost predicate FillsOnly(s: Sys, t: Sys, e: nat) {
    && |t.execs| == |s.execs| && e < |s.execs| && |t.execs[e].outPorts| == |s.execs[e].outPorts|
    && (forall i :: 0 <= i < |s.execs[e].outPorts| && s.execs[e].outPorts[i].result.Some? ==>
          t.execs[e].outPorts[i].result.Some?)
    && (forall i :: 0 <= i < |s.execs| && i != e ==> t.execs[i] == s.execs[i])
  }

  lemma PreOkPorts(g: Graph, v: seq<seq<Table>>, s: Sys, e: nat)
    requires WellWired(g) && Shaped(g, v) && Preloading(g, v, s) && e < |s.execs|
    ensures |s.execs[e].outPorts| == |g.nodes[e].outs| && Named(s.execs[e].outPorts, g.nodes[e].outs)
  {
    assert PreOk(g, v, s, e);
  }

  lemma {:induction false} PreloadPortsFills(g: Graph, v: seq<seq<Table>>, s: Sys, e: nat, j: nat)
    requires WellWired(g) && Shaped(g, v) && Preloading(g, v, s) && e < |s.execs| && j <= |s.execs[e].outPorts|
    ensures var r := PreloadPorts(s, e, j);
      && r.Ok? && Preloading(g, v, r.value) && FillsOnly(s, r.value, e)
      && FilledFrom(g, r.value, e, j)
    decreases |s.execs[e].outPorts| - j
  {
    hide Preloading;
    PreOkPorts(g, v, s, e);
    PreloadPortsKeeps(g, v, s, e, j);
    if j < |s.execs[e].outPorts| {
      var x := s.execs[e];
      var name := x.outPorts[j].name;
      if (e, name) in s.cache {
        PreloadPortKeeps(g, v, s, e, j);
        var t := s.(execs := s.execs[e := x.SetResult(name, s.cache[(e, name)]).value]);
        PreloadPortsFills(g, v, t, e, j + 1);
      } else {
        PreloadPortsFills(g, v, s, e, j + 1);
      }
    }
  }

  lemma {:induction false} PreloadEachFills(g: Graph, v: seq<seq<Table>>, s: Sys, es: seq<nat>, e: nat)
    requires WellWired(g) && Shaped(g, v) && Preloading(g, v, s) && forall i :: 0 <= i < |es| ==> es[i] < |s.execs|
    requires e < |s.execs| && (e in es || FilledFrom(g, s, e, 0))
    ensures var r := PreloadEach(g, s, es);
      && r.Ok? && Preloading(g, v, r.value)
      && FilledFrom(g, r.value, e, 0)
    decreases |es|
  {
    hide Preloading;
    hide PreloadPorts;
    if es != [] {
      PreOkPorts(g, v, s, es[0]);
      PreloadPortsFills(g, v, s, es[0], 0);
      var t := PreloadPorts(s, es[0], 0).value;
      PreloadEachFills(g, v, t, es[1..], e);
    }
  }

  /** After reading the cache, exactly the executions with all their results in it are DONE. */
  lemma PreloadedIsDone(g: Graph, v: seq<seq<Table>>, s: Sys, e: nat)
    requires WellWired(g) && Shaped(g, v) && Preloading(g, v, s) && e < |s.execs|
    requires FilledFrom(g, s, e, 0)
    ensures s.execs[e].state == DONE <==> Cached(g, s.cache, e)
  {
    assert PreOk(g, v, s, e);
  }

  ghost predicate NoneDone(s: Sys) {
    forall e :: 0 <= e < |s.execs| ==> s.execs[e].state != DONE
  }

  lemma {:induction false} NothingForwarded(g: Graph, s: Sys, es: seq<nat>)
    requires Fits(g, s) && Closed(g) && NoneDone(s) && forall i :: 0 <= i < |es| ==> es[i] < |s.execs|
    ensures ForwardEach(g, s, es) == Ok(s)
    decreases |es|
  {
    if es != [] {
      NothingForwarded(g, s, es[1..]);
    }
  }

  /** No port of the execution holds data any more. */
  predicate Empty(x: Exec) {
    && (forall p :: 0 <= p < |x.inPorts| ==> x.inPorts[p].result.None?)
    && (forall j :: 0 <= j < |x.outPorts| ==> x.outPorts[j].result.None?)
  }

  /** Who is DONE stays so and nobody else becomes it, and DONE executions outside `es` hold no data. */
  ghost predicate ReleasedBut(s: Sys, es: seq<nat>) {
    forall e :: 0 <= e < |s.execs| && s.execs[e].state == DONE && e !in es ==> Empty(s.execs[e])
  }

  ghost predicate SameDone(s: Sys, t: Sys) {
    |t.execs| == |s.execs|
      && forall e :: 0 <= e < |s.execs| ==> (t.execs[e].state == DONE <==> s.execs[e].state == DONE)
  }

  /** Sending everything makes nobody DONE and touches nobody who is. */
  lemma SendingAll(g: Graph, v: seq<seq<Table>>, s: Sys, un: set<nat>, unsaved: set<nat>, e: nat, onlyReady: bool)
    requires WellWired(g) && Shaped(g, v) && Inv(g, v, s, un, unsaved) && e < |s.execs|
    requires Elems(OutWires(g, e, 0)) <= un
    ensures var r := SendFrom(g, s, e, 0, onlyReady);
      && r.Ok? && SameDone(s, r.value) && r.value.cache == s.cache
      && forall i :: 0 <= i < |s.execs| && s.execs[i].state == DONE ==> r.value.execs[i] == s.execs[i]
  {
    var ks := OutWires(g, e, 0);
    assert ks[0..] == ks;
    SendFromKeeps(g, v, s, un, unsaved, e, 0, onlyReady);
    hide Inv;
    hide OutWires;
    hide SendFrom;
    var t := SendFrom(g, s, e, 0, onlyReady).value;
    assert forall i :: 0 <= i < |s.execs| ==> Idle(s.execs[i], t.execs[i]);
  }

  lemma ForwardOneReleases(g: Graph, v: seq<seq<Table>>, s: Sys, es: seq<nat>)
    requires WellWired(g) && Shaped(g, v) && Fits(g, s) && Inv(g, v, s, Unsent(g, s, es), {})
    requires es != [] && es[0] < |s.execs| && ReleasedBut(s, es)
    requires forall i, j :: 0 <= i < j < |es| ==> es[i] != es[j]
    ensures var r := ForwardOne(g, s, es[0]);
      r.Ok? && SameDone(s, r.value) && ReleasedBut(r.value, es[1..]) && r.value.cache == s.cache
  {
    var e := es[0];
    var un := Unsent(g, s, es);
    if s.execs[e].state == DONE {
      OutWiresComplete(g, e);
      assert Elems(OutWires(g, e, 0)) <= un;
      SendingAll(g, v, s, un, {}, e, true);
      assert Fits(g, s);
      hide Inv;
      hide SendFrom;
    }
  }

  lemma {:induction false} ForwardEachReleases(g: Graph, v: seq<seq<Table>>, s: Sys, es: seq<nat>)
    requires WellWired(g) && Shaped(g, v) && Fits(g, s) && Inv(g, v, s, Unsent(g, s, es), {})
    requires ReleasedBut(s, es) && forall i :: 0 <= i < |es| ==> es[i] < |s.execs|
    requires forall i, j :: 0 <= i < j < |es| ==> es[i] != es[j]
    ensures var r := ForwardEach(g, s, es);
      r.Ok? && SameDone(s, r.value) && ReleasedBut(r.value, []) && r.value.cache == s.cache
    decreases |es|
  {
    hide Inv;
    hide ForwardOne;
    if es != [] {
      ForwardOneKeeps(g, v, s, es);
      ForwardOneReleases(g, v, s, es);
      ForwardEachReleases(g, v, ForwardOne(g, s, es[0]).value, es[1..]);
    }
  }

  lemma FreshIsPreloading(g: Graph, v: seq<seq<Table>>, s: Sys)
    requires WellWired(g) && Shaped(g, v) && Fresh(g, s) && Truthful(g, v, s.cache)
    ensures Preloading(g, v, s) && NoneDone(s)
  {
    forall e | 0 <= e < |s.execs| ensures PreOk(g, v, s, e) {
      assert g.nodes[e].outs != [];
      assert s.execs[e].outPorts[0].result.None?;
    }
  }

  /** The in-port that channel `k` fills holds what the cache has for the out-port of a DONE source, or nothing. */
  ghost predicate FilledFromCache(g: Graph, cache: map<PortId, Table>, s: Sys, k: nat)
    requires Closed(g) && Fits(g, s) && k < |g.wires|
  {
    var w := g.wires[k];
    var p := InIndex(g, k);
    p < |s.execs[w.target].inPorts|
    && s.execs[w.target].inPorts[p].result ==
         if s.execs[w.source].state == DONE && (w.source, w.sourcePort) in cache then
           Some(cache[(w.source, w.sourcePort)])
         else None
  }

  lemma LoadedIsFilled(g: Graph, cache: map<PortId, Table>, s: Sys, k: nat)
    requires WellWired(g) && Inv(g, CacheValues(g, cache), s, {}, {}) && s.cache == cache
    requires k < |g.wires| && s.execs[g.wires[k].target].state != DONE
    ensures FilledFromCache(g, cache, s, k)
  {
    var v, w := CacheValues(g, cache), g.wires[k];
    var j := OutIndex(g, k);
    assert WireOk(g, v, s, {}, k);
    if s.execs[w.source].state == DONE {
      assert Saved(g, s, w.source);
    }
  }

  /** Loading from the cache, for every fresh state, whatever the cache holds and in whatever order the executions are
      visited. Exactly those executions are DONE afterwards that have all their results in the cache, if it may be
      used; an in-port of an unfinished execution holds exactly what the cache has for its source if that is DONE, and
      nothing otherwise; nobody who is DONE holds data; and the cache itself is as before. A cache that may not be used
      changes nothing at all. */
  lemma LoadIsExact(g: Graph, s: Sys, order: seq<nat>, disableCache: bool)
    requires WellWired(g) && Fresh(g, s) && Ordering(g, order)
    ensures var r := LoadFromCache(g, s, order, disableCache);
      && r.Ok? && r.value.cache == s.cache
      && (disableCache ==> r.value == s)
      && (forall e :: 0 <= e < |s.execs| ==>
            (r.value.execs[e].state == DONE <==> !disableCache && Cached(g, s.cache, e)))
      && (forall k :: 0 <= k < |g.wires| && r.value.execs[g.wires[k].target].state != DONE ==>
            FilledFromCache(g, s.cache, r.value, k))
      && (forall e :: 0 <= e < |s.execs| && r.value.execs[e].state == DONE ==> Empty(r.value.execs[e]))
  {
    hide Preloading;
    hide Inv;
    assert Fits(g, s);
    hide Fresh;
    var v := CacheValues(g, s.cache);
    FreshIsPreloading(g, v, s);
    LoadFromCacheKeeps(g, v, s, order, disableCache);
    if disableCache {
      NothingForwarded(g, s, order);
    } else {
      PreloadEachKeeps(g, v, s, order);
      var t := PreloadEach(g, s, order).value;
      forall e | 0 <= e < |s.execs| ensures t.execs[e].state == DONE <==> Cached(g, s.cache, e) {
        PreloadEachFills(g, v, s, order, e);
        PreloadedIsDone(g, v, t, e);
      }
      PreloadedInv(g, v, t, order);
      ForwardEachReleases(g, v, t, order);
    }
    var r := LoadFromCache(g, s, order, disableCache).value;
    forall k | 0 <= k < |g.wires| && r.execs[g.wires[k].target].state != DONE
      ensures FilledFromCache(g, s.cache, r, k)
    {
      LoadedIsFilled(g, s.cache, r, k);
    }
  }


  // ---- scheduling

  /** What findExecutables leaves of an execution. */
  function AfterScheduling(x: Exec, listed: bool): Exec {
    if listed && x.state == COMPLETE then x.(state := SCHEDULED, tasks := 1) else x
  }

  lemma {:induction false} ScheduleEachExact(g: Graph, v: seq<seq<Table>>, s: Sys, es: seq<nat>, e: nat)
    requires WellWired(g) && Shaped(g, v) && Inv(g, v, s, {}, {})
    requires forall i :: 0 <= i < |es| ==> es[i] < |s.execs| && s.execs[es[i]].state in {COMPLETE, SCHEDULED}
    ensures var r := ScheduleEach(g, s, es);
      && r.Ok? && r.value.cache == s.cache && |r.value.execs| == |s.execs|
      && (e < |s.execs| ==> r.value.execs[e] == AfterScheduling(s.execs[e], e in es))
    decreases |es|
  {
    hide Inv;
    if es != [] {
      if s.execs[es[0]].state == COMPLETE {
        ScheduleKeeps(g, v, s, es[0]);
        ScheduleEachExact(g, v, s.(execs := s.execs[es[0] := s.execs[es[0]].Schedule().value]), es[1..], e);
      } else {
        ScheduleEachExact(g, v, s, es[1..], e);
      }
    }
  }

  /** findExecutables hands over the listed executions that are COMPLETE, each once, and changes nothing else. */
  lemma SchedulingIsExact(g: Graph, v: seq<seq<Table>>, s: Sys, order: seq<nat>)
    requires WellWired(g) && Shaped(g, v) && Inv(g, v, s, {}, {})
    requires forall i :: 0 <= i < |order| ==> order[i] < |s.execs|
    ensures var r := FindExecutables(g, s, order);
      && r.Ok? && r.value.cache == s.cache
      && forall e :: 0 <= e < |s.execs| ==> r.value.execs[e] == AfterScheduling(s.execs[e], e in order)
  {
    var es := Executables(s, order);
    forall i | 0 <= i < |es| ensures s.execs[es[i]].state in {COMPLETE, SCHEDULED} { assert ExecOk(g, s, es[i]); }
    ScheduleEachExact(g, v, s, es, 0);
    forall e | 0 <= e < |s.execs|
      ensures FindExecutables(g, s, order).value.execs[e] == AfterScheduling(s.execs[e], e in order)
    {
      ScheduleEachExact(g, v, s, es, e);
    }
  }

  // ---- release

  ghost predicate Released(s: Sys) {
    forall e :: 0 <= e < |s.execs| && s.execs[e].state == DONE ==> Empty(s.execs[e])
  }

  lemma VisitReleases(g: Graph, v: seq<seq<Table>>, maxPar: nat, s: Sys, running: set<nat>, e: nat)
    requires WellWired(g) && Evaluates(g, v) && Inv(g, v, s, {}, {}) && e < |s.execs| && RunningOk(maxPar, s, running)
    requires Released(s)
    ensures var r := Visit(g, maxPar, s, running, e); r.Ok? && Released(r.value.0)
  {
    VisitKeeps(g, v, maxPar, s, running, e);
    assert ExecOk(g, s, e);
    if s.execs[e].state == COMPLETE {
      ScheduleKeeps(g, v, s, e);
      RoomReleases(g, v, maxPar, s.(execs := s.execs[e := s.execs[e].Schedule().value]), running, e);
    } else if s.execs[e].state == SCHEDULED {
      RoomReleases(g, v, maxPar, s, running, e);
    }
  }

  lemma RoomReleases(g: Graph, v: seq<seq<Table>>, maxPar: nat, s: Sys, running: set<nat>, e: nat)
    requires WellWired(g) && Evaluates(g, v) && Inv(g, v, s, {}, {}) && e < |s.execs| && s.execs[e].state == SCHEDULED
    requires Released(s)
    ensures var r := ProcessIfRoom(g, maxPar, s, running, e); r.Ok? ==> Released(r.value.0)
  {
    if |running| < maxPar || e in running {
      ProcessKeeps(g, v, s, e);
      var y := s.execs[e].Process(e, g.compute).value;
      if y.1 {
        OutputReleases(g, v, s.(execs := s.execs[e := y.0]), e);
      }
    }
  }

  lemma OutputReleases(g: Graph, v: seq<seq<Table>>, s: Sys, e: nat)
    requires WellWired(g) && Shaped(g, v) && e < |s.execs|
    requires Inv(g, v, s, Elems(OutWires(g, e, 0)), {e})
    requires s.execs[e].state == DONE && Holds(s.execs[e].outPorts, v[e])
    requires forall i :: 0 <= i < |s.execs| && i != e && s.execs[i].state == DONE ==> Empty(s.execs[i])
    ensures var r := OutputResult(g, s, e); r.Ok? && Released(r.value)
  {
    OutputResultKeeps(g, v, s, e);
    SendingAll(g, v, s, Elems(OutWires(g, e, 0)), {e}, e, false);
    assert Fits(g, s);
    hide Inv;
    hide Holds;
    hide SendFrom;
  }

  // ---- room for parallel executions

  /** What processing does to an execution that gets its turn: one call less to go, or DONE. */
  predicate Processed(x: Exec, y: Exec) {
    if x.work > 0 then y.work == x.work - 1 && y.state == SCHEDULED else y.state == DONE
  }

  /** One visit: whoever can be processed is processed if there is room, and counted as running unless that finished
      it; nobody else is touched, but for receiving data. */
  lemma VisitExact(g: Graph, v: seq<seq<Table>>, maxPar: nat, s: Sys, running: set<nat>, e: nat)
    requires WellWired(g) && Evaluates(g, v) && Inv(g, v, s, {}, {}) && e < |s.execs| && RunningOk(maxPar, s, running)
    requires e !in running
    ensures var r := Visit(g, maxPar, s, running, e);
      && r.Ok? && |r.value.0.execs| == |s.execs|
      && (forall i :: 0 <= i < |s.execs| && i != e ==> Idle(s.execs[i], r.value.0.execs[i]))
      && (Executable(s.execs[e].state) && |running| < maxPar ==>
            Processed(s.execs[e], r.value.0.execs[e])
            && r.value.1 == if s.execs[e].work > 0 then running + {e} else running)
      && (!(Executable(s.execs[e].state) && |running| < maxPar) ==>
            Idle(s.execs[e], r.value.0.execs[e]) && r.value.1 == running)
  {
    VisitKeeps(g, v, maxPar, s, running, e);
    assert ExecOk(g, s, e);
    if s.execs[e].state == COMPLETE {
      ScheduleKeeps(g, v, s, e);
      RoomExact(g, v, maxPar, s.(execs := s.execs[e := s.execs[e].Schedule().value]), running, e);
    } else if s.execs[e].state == SCHEDULED {
      RoomExact(g, v, maxPar, s, running, e);
    }
  }

  lemma RoomExact(g: Graph, v: seq<seq<Table>>, maxPar: nat, s: Sys, running: set<nat>, e: nat)
    requires WellWired(g) && Evaluates(g, v) && Inv(g, v, s, {}, {}) && e < |s.execs| && s.execs[e].state == SCHEDULED
    requires e !in running
    ensures var r := ProcessIfRoom(g, maxPar, s, running, e);
      && r.Ok? && |r.value.0.execs| == |s.execs|
      && (forall i :: 0 <= i < |s.execs| && i != e ==> Idle(s.execs[i], r.value.0.execs[i]))
      && (|running| < maxPar ==>
            Processed(s.execs[e], r.value.0.execs[e])
            && r.value.1 == if s.execs[e].work > 0 then running + {e} else running)
      && (|running| >= maxPar ==> r.value == (s, running))
  {
    if |running| < maxPar {
      ProcessKeeps(g, v, s, e);
      var y := s.execs[e].Process(e, g.compute).value;
      if y.1 {
        var s1 := s.(execs := s.execs[e := y.0]);
        OutputResultKeeps(g, v, s1, e);
        hide Inv;
        hide OutputResult;
        var t := OutputResult(g, s1, e).value;
        assert forall i :: 0 <= i < |s.execs| ==> Idle(s1.execs[i], t.execs[i]);
        assert running - {e} == running;
      }
    }
  }

  /** Between the start of a step and the turn of `order[i]`: whoever has had a turn and could be processed has been,
      unless the room is used up; the running ones are exactly some that have been processed and are not DONE; and
      those still to come are as they were. */
  ghost predicate Visited(maxPar: nat, s0: Sys, s: Sys, running: set<nat>, order: seq<nat>, i: nat)
    requires i <= |order|
  {
    && |s.execs| == |s0.execs| && RunningOk(maxPar, s, running)
    && (forall e :: e in running ==> e in order[..i] && s.execs[e].work < s0.execs[e].work)
    && (forall e :: e in order[..i] && e < |s0.execs| && Executable(s0.execs[e].state) ==>
          s.execs[e].state == DONE || s.execs[e].work < s0.execs[e].work || |running| == maxPar)
    && (forall e :: 0 <= e < |s0.execs| && e !in order[..i] ==> Idle(s0.execs[e], s.execs[e]))
  }

  /** What a turn does to the executions, as VisitExact says, scheduling included. */
  ghost predicate TurnShape(maxPar: nat, s: Sys, running: set<nat>, t: Sys, now: set<nat>, e: nat) {
    && |t.execs| == |s.execs| && e < |s.execs| && RunningOk(maxPar, t, now)
    && (forall i :: 0 <= i < |s.execs| && i != e ==> Idle(s.execs[i], t.execs[i]))
    && if Executable(s.execs[e].state) && |running| < maxPar then
         if s.execs[e].work > 0 then now == running + {e} && t.execs[e].work < s.execs[e].work
         else now == running && t.execs[e].state == DONE
       else now == running && Idle(s.execs[e], t.execs[e])
  }

  lemma IdleTwice(s: Sys, w: Sys, t: Sys, e: nat)
    requires |w.execs| == |s.execs| && SameWork(w, t) && e < |s.execs|
    requires forall i :: 0 <= i < |s.execs| && i != e ==> Idle(s.execs[i], w.execs[i])
    ensures |t.execs| == |s.execs| && Idle(w.execs[e], t.execs[e])
    ensures forall i :: 0 <= i < |s.execs| && i != e ==> Idle(s.execs[i], t.execs[i])
    ensures Idle(s.execs[e], w.execs[e]) ==> Idle(s.execs[e], t.execs[e])
  {
    forall i | 0 <= i < |s.execs| && i != e ensures Idle(s.execs[i], t.execs[i]) {
      assert Idle(s.execs[i], w.execs[i]) && Idle(w.execs[i], t.execs[i]);
    }
  }

  lemma TurnReleases(g: Graph, v: seq<seq<Table>>, maxPar: nat, s: Sys, running: set<nat>, order: seq<nat>, e: nat)
    requires WellWired(g) && Evaluates(g, v) && Inv(g, v, s, {}, {}) && e < |s.execs| && RunningOk(maxPar, s, running)
    requires Ordering(g, order) && Released(s)
    ensures var r := Turn(g, maxPar, s, running, order, e);
      && r.Ok? && |r.value.0.execs| == |s.execs|
      && Released(r.value.0) && forall i :: 0 <= i < |s.execs| ==> r.value.0.execs[i].state != COMPLETE
  {
    VisitKeeps(g, v, maxPar, s, running, e);
    VisitReleases(g, v, maxPar, s, running, e);
    var w := Visit(g, maxPar, s, running, e).value.0;
    SchedulingIsExact(g, v, w, order);
    assert Fits(g, s) && Fits(g, w);
    hide Inv;
    hide Visit;
    hide FindExecutables;
  }

  lemma TurnShapes(g: Graph, v: seq<seq<Table>>, maxPar: nat, s: Sys, running: set<nat>, order: seq<nat>, e: nat)
    requires WellWired(g) && Evaluates(g, v) && Inv(g, v, s, {}, {}) && e < |s.execs| && RunningOk(maxPar, s, running)
    requires e !in running && Ordering(g, order)
    ensures var r := Turn(g, maxPar, s, running, order, e);
      r.Ok? && Inv(g, v, r.value.0, {}, {}) && TurnShape(maxPar, s, running, r.value.0, r.value.1, e)
  {
    TurnKeeps(g, v, maxPar, s, running, order, e);
    VisitKeeps(g, v, maxPar, s, running, e);
    VisitExact(g, v, maxPar, s, running, e);
    var w := Visit(g, maxPar, s, running, e).value.0;
    FindExecutablesKeeps(g, v, w, order);
    assert Fits(g, s);
    hide Inv;
    hide Visit;
    hide FindExecutables;
    hide RunningOk;
    hide SameWork;
    hide Idle;
    hide Advances;
    hide Accounted;
    IdleTwice(s, w, FindExecutables(g, w, order).value, e);
    WorkIsSame(w, FindExecutables(g, w, order).value, e);
  }

  lemma WorkIsSame(s: Sys, t: Sys, e: nat)
    requires SameWork(s, t) && e < |s.execs|
    ensures t.execs[e].work == s.execs[e].work && (s.execs[e].state == DONE ==> t.execs[e].state == DONE)
  {
    assert Idle(s.execs[e], t.execs[e]);
  }

  lemma VisitedNext(maxPar: nat, s0: Sys, s: Sys, running: set<nat>, t: Sys, now: set<nat>, order: seq<nat>, i: nat)
    requires i < |order| && Visited(maxPar, s0, s, running, order, i) && order[i] !in order[..i]
    requires TurnShape(maxPar, s, running, t, now, order[i])
    ensures Visited(maxPar, s0, t, now, order, i + 1)
  {
    var e := order[i];
    assert forall x :: x in order[..i + 1] <==> x in order[..i] || x == e;
    forall x | 0 <= x < |s0.execs| && x !in order[..i + 1] ensures Idle(s0.execs[x], t.execs[x]) {
      assert Idle(s0.execs[x], s.execs[x]) && Idle(s.execs[x], t.execs[x]);
    }
    assert Idle(s0.execs[e], s.execs[e]);
    forall x | x in order[..i] && x < |s0.execs| && Executable(s0.execs[x].state)
      ensures t.execs[x].state == DONE || t.execs[x].work < s0.execs[x].work || |now| == maxPar
    {
      assert Idle(s.execs[x], t.execs[x]);
    }
    forall x | x in now ensures x in order[..i + 1] && t.execs[x].work < s0.execs[x].work {
      if x != e {
        assert Idle(s.execs[x], t.execs[x]);
      }
    }
  }

  lemma NotYet(g: Graph, order: seq<nat>, i: nat)
    requires Ordering(g, order) && i < |order|
    ensures order[i] < |g.nodes| && order[i] !in order[..i]
  {
  }

  lemma {:induction false} TurnsVisit(g: Graph, v: seq<seq<Table>>, maxPar: nat, s0: Sys, s: Sys, running: set<nat>,
                                      order: seq<nat>, i: nat)
    requires WellWired(g) && Evaluates(g, v) && Inv(g, v, s, {}, {}) && Ordering(g, order) && i <= |order|
    requires Visited(maxPar, s0, s, running, order, i) && Released(s)
    requires i > 0 ==> forall e :: 0 <= e < |s.execs| ==> s.execs[e].state != COMPLETE
    ensures var r := Turns(g, maxPar, s, running, order, i);
      && r.Ok? && Visited(maxPar, s0, r.value.0, r.value.1, order, |order|) && Released(r.value.0)
      && (|order| > 0 ==> forall e :: 0 <= e < |s.execs| ==> r.value.0.execs[e].state != COMPLETE)
    decreases |order| - i
  {
    if i < |order| {
      NotYet(g, order, i);
      assert order[i] !in running && RunningOk(maxPar, s, running) && Fits(g, s);
      TurnShapes(g, v, maxPar, s, running, order, order[i]);
      TurnReleases(g, v, maxPar, s, running, order, order[i]);
      var t := Turn(g, maxPar, s, running, order, order[i]).value;
      VisitedNext(maxPar, s0, s, running, t.0, t.1, order, i);
      hide Inv;
      hide Visited;
      hide Released;
      hide Turn;
      TurnsVisit(g, v, maxPar, s0, t.0, t.1, order, i + 1);
    }
  }

  /** One step uses the room it has: every execution that could be processed at its start is processed, unless there
      are as many running as there may be; and those that count as running have been processed in this step and are not
      DONE. Afterwards nobody is COMPLETE any more, everybody who could be handed over being so, and nobody who is DONE
      holds data. */
  lemma StepIsExact(g: Graph, v: seq<seq<Table>>, maxPar: nat, s: Sys, order: seq<nat>)
    requires WellWired(g) && Evaluates(g, v) && Inv(g, v, s, {}, {}) && Released(s) && Ordering(g, order)
    requires g.nodes != []
    ensures var r := Turns(g, maxPar, s, {}, order, 0);
      && r.Ok? && |r.value.0.execs| == |s.execs| && Released(r.value.0)
      && (forall e :: 0 <= e < |s.execs| ==> r.value.0.execs[e].state != COMPLETE)
      && (forall e :: e in r.value.1 ==>
            e < |s.execs| && r.value.0.execs[e].state == SCHEDULED && r.value.0.execs[e].work < s.execs[e].work)
      && (forall e :: 0 <= e < |s.execs| && Executable(s.execs[e].state) ==>
            r.value.0.execs[e].state == DONE || r.value.0.execs[e].work < s.execs[e].work || |r.value.1| == maxPar)
  {
    assert 0 in order;
    assert order[..0] == [] && order[..|order|] == order;
    TurnsVisit(g, v, maxPar, s, s, {}, order, 0);
  }

  lemma {:induction false} RunReleases(g: Graph, v: seq<seq<Table>>, maxPar: nat, s: Sys, steps: seq<seq<nat>>)
    requires WellWired(g) && Evaluates(g, v) && Inv(g, v, s, {}, {}) && Released(s) && maxPar > 0
    requires g.nodes != [] && forall i :: 0 <= i < |steps| ==> Ordering(g, steps[i])
    ensures var r := Run(g, maxPar, s, steps); r.Ok? && Released(r.value)
    decreases |steps|
  {
    if steps != [] {
      hide Inv;
      hide Released;
      hide Turns;
      StepProgress(g, v, maxPar, s, steps[0]);
      StepIsExact(g, v, maxPar, s, steps[0]);
      RunReleases(g, v, maxPar, Turns(g, maxPar, s, {}, steps[0], 0).value.0, steps[1..]);
    }
  }

  /** In every run, from the cache on, whoever is DONE after a step holds no data any more. */
  lemma ExecutionsRelease(g: Graph, v: seq<seq<Table>>, maxPar: nat, s: Sys, loadOrder: seq<nat>, disableCache: bool,
                          steps: seq<seq<nat>>)
    requires WellWired(g) && Evaluates(g, v) && maxPar > 0 && g.nodes != []
    requires Fresh(g, s) && Truthful(g, v, s.cache) && Ordering(g, loadOrder)
    requires forall i :: 0 <= i < |steps| ==> Ordering(g, steps[i])
    ensures var r := Execute(g, maxPar, s, loadOrder, disableCache, steps); r.Ok? && Released(r.value)
  {
    hide Inv;
    LoadFromCacheKeeps(g, v, s, loadOrder, disableCache);
    LoadIsExact(g, s, loadOrder, disableCache);
    var t := LoadFromCache(g, s, loadOrder, disableCache).value;
    assert Released(t);
    RunReleases(g, v, maxPar, t, steps);
  }

  // ---- the faults of passing results on

  /** outputResult fails on an execution that is not DONE, and on one of whose channels the result is missing. */
  lemma OutputFails(g: Graph, s: Sys, e: nat)
    requires Fits(g, s) && Closed(g) && e < |g.nodes|
    ensures s.execs[e].state != DONE ==> OutputResult(g, s, e) == Err(NotDone)
    ensures s.execs[e].state == DONE && (exists k :: Leaves(g, e, k) && !Ready(g, s, k)) ==>
      OutputResult(g, s, e) == Err(ResultNotReady)
    ensures OutputResult(g, s, e).Ok? ==> forall k :: Leaves(g, e, k) ==> Ready(g, s, k)
  {
    OutWiresComplete(g, e);
    hide OutWires;
    hide SendFrom;
    hide Ready;
    var ks := OutWires(g, e, 0);
    forall k | Leaves(g, e, k) ensures k in ks {
    }
    if ResultsReady(g, s.execs[e], ks) {
      forall k | Leaves(g, e, k) ensures Ready(g, s, k) {
        ReadyAt(g, s, e, ks, k);
      }
    }
  }

  lemma ReadyAt(g: Graph, s: Sys, e: nat, ks: seq<nat>, k: nat)
    requires Fits(g, s) && Leaves(g, e, k) && e < |s.execs| && k in ks
    requires forall i :: 0 <= i < |ks| ==> ks[i] < |g.wires|
    requires ResultsReady(g, s.execs[e], ks)
    ensures Ready(g, s, k)
  {
    var i :| 0 <= i < |ks| && ks[i] == k;
  }

  predicate Leaves(g: Graph, e: nat, k: nat) {
    k < |g.wires| && g.wires[k].source == e
  }

  /** The result that channel `k` passes on is there. */
  ghost predicate Ready(g: Graph, s: Sys, k: nat)
    requires Fits(g, s) && k < |g.wires| && g.wires[k].source < |s.execs|
  {
    var r := s.execs[g.wires[k].source].GetResult(g.wires[k].sourcePort);
    r.Ok? && r.value.Some?
  }

  /** Sending over a channel that is not READY any more is an error, unless only READY ones are asked for. */
  lemma SendFails(g: Graph, s: Sys, e: nat, k: nat)
    requires Fits(g, s) && e < |g.nodes| && k < |g.wires| && g.wires[k].target < |g.nodes| && s.chans[k] != READY
    requires s.execs[e].GetResult(g.wires[k].sourcePort).Ok?
    ensures SendOne(g, s, e, k, true) == Ok(s)
    ensures SendOne(g, s, e, k, false)
         == if s.execs[g.wires[k].target].state == DONE then Ok(s) else Err(ChannelNotReady)
  {
  }

  /** Saving stops at the first empty port: those before it are in the cache with their data, and nothing else has
      changed. */
  lemma {:induction false} CacheFromIs(cache: map<PortId, Table>, e: nat, ports: seq<Port>, j: nat, n: nat)
    requires j <= n <= |ports| && (n < |ports| ==> ports[n].result.None?)
    requires forall i :: j <= i < n ==> ports[i].result.Some?
    requires forall i, k :: j <= i < k < n ==> ports[i].name != ports[k].name
    ensures var r := CacheFrom(cache, e, ports, j);
      && (forall i :: j <= i < n ==> (e, ports[i].name) in r && r[(e, ports[i].name)] == ports[i].result.value)
      && (forall q :: (forall i :: j <= i < n ==> q != (e, ports[i].name)) ==>
            (q in r <==> q in cache) && (q in r ==> r[q] == cache[q]))
    decreases n - j
  {
    if j < n {
      var next := cache[(e, ports[j].name) := ports[j].result.value];
      CacheFromIs(next, e, ports, j + 1, n);
      var r := CacheFrom(next, e, ports, j + 1);
      assert forall i :: j + 1 <= i < n ==> (e, ports[j].name) != (e, ports[i].name);
    }
  }
}
