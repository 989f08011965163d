/** What is injected for every dependency, and what a finished run has loaded into the tables. */
module InjectedRuns {
  import opened Sequences
  import opened Wrappers
  import opened CopyModel
  import opened CopyProtocol
  import opened CopyTheorems
  import opened PostgresExecution

  // ---- the steps, one by one

  /** The number of steps before those of port `k`: a create step for every earlier port, and a push if it has rows. */
  function Position(dependencies: seq<InPort>, k: nat): nat
    requires k <= |dependencies| && AllPresent(dependencies)
  {
    if k == 0 then 0
    else Position(dependencies, k - 1) + if |dependencies[k - 1].result.value.rows| > 0 then 2 else 1
  }

  /** The step that pushes port `k`, if it has rows. */
  predicate PushesPort(step: Step, port: InPort, copyThreshold: nat)
    requires port.result.Some?
  {
    && step.action == PushDependency && step.dependency == port.result
    && var rows := port.result.value.rows;
      step.sql == if |rows| >= copyThreshold then CopyFromStdin(port.name) else InsertValues(port.name, rows)
  }

  lemma {:induction false} Earlier(dependencies: seq<InPort>, k: nat)
    requires k < |dependencies| && AllPresent(dependencies)
    ensures Position(dependencies[..|dependencies| - 1], k) == Position(dependencies, k)
  {
    if k > 0 {
      Earlier(dependencies, k - 1);
    }
  }

  lemma {:induction false} StepCount(dependencies: seq<InPort>, copyThreshold: nat)
    requires AllPresent(dependencies)
    ensures |AllPortSteps(dependencies, copyThreshold)| == Position(dependencies, |dependencies|)
  {
    if dependencies != [] {
      var n := |dependencies| - 1;
      StepCount(dependencies[..n], copyThreshold);
      Earlier(dependencies, n);
    }
  }

  /** Every table is created where it is expected, its push follows at once if it has rows, and that is the last of
      its steps. */
  lemma {:induction false} PortStepsAt(dependencies: seq<InPort>, copyThreshold: nat, k: nat)
    requires k < |dependencies| && AllPresent(dependencies)
    ensures var steps, i := AllPortSteps(dependencies, copyThreshold), Position(dependencies, k);
      && i < Position(dependencies, k + 1) <= |steps|
      && steps[i] == Step(Command, CreateTable(dependencies[k].name), None)
      && (dependencies[k].result.value.rows == [] ==> Position(dependencies, k + 1) == i + 1)
      && (dependencies[k].result.value.rows != [] ==>
            Position(dependencies, k + 1) == i + 2 && PushesPort(steps[i + 1], dependencies[k], copyThreshold))
  {
    var n := |dependencies| - 1;
    StepCount(dependencies, copyThreshold);
    StepCount(dependencies[..n], copyThreshold);
    Earlier(dependencies, k);
    if k < n {
      PortStepsAt(dependencies[..n], copyThreshold, k);
      Earlier(dependencies, k + 1);
    }
  }

  /** Every step belongs to a port. */
  lemma {:induction false} PortOf(dependencies: seq<InPort>, copyThreshold: nat, i: nat) returns (k: nat)
    requires AllPresent(dependencies) && i < |AllPortSteps(dependencies, copyThreshold)|
    ensures k < |dependencies| && Position(dependencies, k) <= i < Position(dependencies, k + 1)
  {
    var n := |dependencies| - 1;
    StepCount(dependencies, copyThreshold);
    if i < Position(dependencies, n) {
      StepCount(dependencies[..n], copyThreshold);
      Earlier(dependencies, n);
      k := PortOf(dependencies[..n], copyThreshold, i);
      Earlier(dependencies, k);
      if k + 1 < n {
        Earlier(dependencies, k + 1);
      }
    } else {
      k := n;
    }
  }

  ghost predicate HasPush(dependencies: seq<InPort>, i: nat)
    requires AllPresent(dependencies)
  {
    exists k: nat :: k < |dependencies| && PushedAt(dependencies, k, i)
  }

  /** Step `i` is the place for the push of port `k`, which has rows. */
  predicate PushedAt(dependencies: seq<InPort>, k: nat, i: nat)
    requires AllPresent(dependencies) && k < |dependencies|
  {
    dependencies[k].result.value.rows != [] && i == Position(dependencies, k) + 1
  }

  /** The steps of a query: for every port in order the creation of its table, followed at once by exactly one push of
      that port's rows if it has any, by COPY from the threshold on; then the columns and the result. No other step
      pushes anything. */
  lemma InjectedSteps(query: string, dependencies: seq<InPort>, copyThreshold: nat)
    requires AllPresent(dependencies)
    ensures var steps, n := StepsFor(query, dependencies, copyThreshold), Position(dependencies, |dependencies|);
      && |steps| == n + 2
      && steps[n] == Step(GetColumnTypes, SelectNothing(query), None)
      && steps[n + 1] == Step(GetResult, CopyToStdout(query), None)
      && (forall k: nat :: k < |dependencies| ==>
            Position(dependencies, k) < n
            && steps[Position(dependencies, k)] == Step(Command, CreateTable(dependencies[k].name), None))
      && (forall k: nat :: k < |dependencies| && dependencies[k].result.value.rows != [] ==>
            Position(dependencies, k) + 1 < n
            && PushesPort(steps[Position(dependencies, k) + 1], dependencies[k], copyThreshold))
      && (forall i: nat :: i < |steps| ==> (steps[i].action == PushDependency <==> HasPush(dependencies, i)))
  {
    var first, steps := AllPortSteps(dependencies, copyThreshold), StepsFor(query, dependencies, copyThreshold);
    var n := Position(dependencies, |dependencies|);
    StepCount(dependencies, copyThreshold);
    forall k: nat | k < |dependencies|
      ensures Position(dependencies, k) < n
      ensures steps[Position(dependencies, k)] == Step(Command, CreateTable(dependencies[k].name), None)
      ensures dependencies[k].result.value.rows != [] ==>
        Position(dependencies, k) + 1 < n
        && PushesPort(steps[Position(dependencies, k) + 1], dependencies[k], copyThreshold)
    {
      PortStepsAt(dependencies, copyThreshold, k);
    }
    forall i: nat | i < |steps| ensures steps[i].action == PushDependency <==> HasPush(dependencies, i) {
      hide Position;
      if i < n {
        PushesHave(dependencies, copyThreshold, i);
      }
    }
  }

  lemma PushesHave(dependencies: seq<InPort>, copyThreshold: nat, i: nat)
    requires AllPresent(dependencies) && i < |AllPortSteps(dependencies, copyThreshold)|
    ensures AllPortSteps(dependencies, copyThreshold)[i].action == PushDependency <==> HasPush(dependencies, i)
  {
    hide AllPortSteps;
    hide Position;
    var k := PortOf(dependencies, copyThreshold, i);
    PortStepsAt(dependencies, copyThreshold, k);
    if AllPortSteps(dependencies, copyThreshold)[i].action == PushDependency {
      assert PushedAt(dependencies, k, i);
    }
    if HasPush(dependencies, i) {
      var j: nat :| j < |dependencies| && PushedAt(dependencies, j, i);
      PortStepsAt(dependencies, copyThreshold, j);
    }
  }

  // ---- what is loaded

  /** The names and texts of the tables with rows, in the order of the ports. */
  function WithRows(dependencies: seq<InPort>): seq<(string, string)>
    requires AllPresent(dependencies)
  {
    if dependencies == [] then []
    else
      var last := dependencies[|dependencies| - 1];
      WithRows(dependencies[..|dependencies| - 1])
      + if last.result.value.rows == [] then [] else [(last.name, Flatten(last.result.value.rows))]
  }

  /** The tables that statements load, and the text each of them loads: an INSERT what it carries, a COPY what the
      server has accepted for it. */
  function Loads(steps: seq<Step>, loaded: seq<seq<string>>): seq<(string, string)>
    requires |loaded| >= |steps|
  {
    if steps == [] then []
    else
      var n := |steps| - 1;
      Loads(steps[..n], loaded) +
      match steps[n].sql
      case InsertValues(name, rows) => [(name, Flatten(rows))]
      case CopyFromStdin(name) => [(name, Flatten(loaded[n]))]
      case _ => []
  }

  predicate OnceEach(steps: seq<Step>, loaded: seq<seq<string>>) {
    |loaded| >= |steps| && forall i :: 0 <= i < |steps| && steps[i].sql.CopyFromStdin? ==>
      steps[i].dependency.Some? && Flatten(loaded[i]) == Flatten(steps[i].dependency.value.rows)
  }

  lemma {:induction false} LoadsSnoc(steps: seq<Step>, step: Step, loaded: seq<seq<string>>)
    requires |loaded| > |steps|
    ensures Loads(steps + [step], loaded) == Loads(steps, loaded) +
      match step.sql
      case InsertValues(name, rows) => [(name, Flatten(rows))]
      case CopyFromStdin(name) => [(name, Flatten(loaded[|steps|]))]
      case _ => []
  {
    assert (steps + [step])[..|steps|] == steps;
  }

  lemma {:induction false} PortsLoad(dependencies: seq<InPort>, copyThreshold: nat, loaded: seq<seq<string>>)
    requires AllPresent(dependencies) && OnceEach(AllPortSteps(dependencies, copyThreshold), loaded)
    ensures Loads(AllPortSteps(dependencies, copyThreshold), loaded) == WithRows(dependencies)
  {
    if dependencies != [] {
      var last := dependencies[|dependencies| - 1];
      var before := AllPortSteps(dependencies[..|dependencies| - 1], copyThreshold);
      var all := AllPortSteps(dependencies, copyThreshold);
      assert all == before + PortSteps(last.name, last.result.value, copyThreshold);
      hide AllPortSteps;
      hide PortSteps;
      hide Loads;
      hide Flatten;
      assert forall i :: 0 <= i < |before| ==> all[i] == before[i];
      PortsLoad(dependencies[..|dependencies| - 1], copyThreshold, loaded);
      PortLoads(before, last.name, last.result.value, copyThreshold, loaded);
    }
  }

  /** The steps of one port, behind others. */
  lemma PortLoads(before: seq<Step>, name: string, d: Dependency, copyThreshold: nat, loaded: seq<seq<string>>)
    requires OnceEach(before + PortSteps(name, d, copyThreshold), loaded)
    ensures Loads(before + PortSteps(name, d, copyThreshold), loaded)
         == Loads(before, loaded) + if d.rows == [] then [] else [(name, Flatten(d.rows))]
  {
    hide Loads;
    hide Flatten;
    var more := PortSteps(name, d, copyThreshold);
    var all := before + more;
    LoadsSnoc(before, more[0], loaded);
    if d.rows == [] {
      assert all == before + [more[0]];
    } else {
      assert all == before + [more[0]] + [more[1]];
      assert all[|before| + 1] == more[1];
      LoadsSnoc(before + [more[0]], more[1], loaded);
    }
  }

  // ---- whole runs

  /** No poll of the run met a failed end of a copy. */
  predicate NoEndFails(w: World, polls: seq<Poll>) {
    forall k :: 0 <= k < |polls| && Run(w, polls[..k]).Ok? ==> !EndFails(Run(w, polls[..k]).value, polls[k])
  }

  lemma {:induction false} NothingAgain(w: World, polls: seq<Poll>)
    requires NoEndFails(w, polls)
    ensures Again(w, polls) == NoneAgain(w.server.script)
  {
    hide EndFails;
    if polls != [] {
      var n := |polls| - 1;
      forall k | 0 <= k < n ensures polls[..n][..k] == polls[..k] {
      }
      assert NoEndFails(w, polls[..n]);
      NothingAgain(w, polls[..n]);
    }
  }

  /** A query that is done, without a failed end of a copy on the way, has loaded the rows of every dependency that has
      any, each once, in the order of the ports, and its result is the whole answer. */
  lemma DependenciesLoaded(query: string, dependencies: seq<InPort>, copyThreshold: nat, columns: seq<Column>,
                           rows: seq<string>, polls: seq<Poll>)
    requires forall i :: 0 <= i < |dependencies| ==>
      dependencies[i].result.Some? && RowsNotEmpty(dependencies[i].result.value)
    requires var steps := StepsFor(query, dependencies, copyThreshold);
      var w := Start(steps, ScriptFor(Sqls(steps), columns, rows));
      Run(w, polls).Ok? && Run(w, polls).value.task.done && NoEndFails(w, polls)
    ensures var steps := StepsFor(query, dependencies, copyThreshold);
      var v := Run(Start(steps, ScriptFor(Sqls(steps), columns, rows)), polls).value;
      && |v.server.loaded| == |steps| && Loads(steps, v.server.loaded) == WithRows(dependencies)
      && v.handler.resultTable == Some(ResultTable(Cleaned(columns), Flatten(rows)))
  {
    hide Run;
    hide Cleaned;
    hide Flatten;
    hide NoEndFails;
    hide Loads;
    hide WithRows;
    var steps := StepsFor(query, dependencies, copyThreshold);
    var first := AllPortSteps(dependencies, copyThreshold);
    var script := ScriptFor(Sqls(steps), columns, rows);
    InjectedIsScripted(query, dependencies, copyThreshold, columns, rows);
    Conservation(steps, script, polls);
    NothingAgain(Start(steps, script), polls);
    var loaded := Run(Start(steps, script), polls).value.server.loaded;
    assert forall i :: 0 <= i < |first| ==> steps[i] == first[i];
    PortsLoad(dependencies, copyThreshold, loaded);
    var n := |first|;
    LoadsSnoc(first, steps[n], loaded);
    LoadsSnoc(first + [steps[n]], steps[n + 1], loaded);
    assert steps == first + [steps[n]] + [steps[n + 1]];
  }
}
