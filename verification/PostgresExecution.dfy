/** The objects of one query against PostgreSQL: the injector that turns a query and its dependencies into steps, the
    callbacks, the connection, and the task that each poll drives. */
module PostgresExecution {
  import opened Sequences
  import opened Wrappers
  import opened CopyModel
  import opened CopyProtocol
  import opened CopyTheorems

  // ---- steps

  datatype InPort = InPort(name: string, result: Option<Dependency>)

  /** A table is always created; its rows are inserted when there are few, copied when there are many. */
  function PortSteps(name: string, d: Dependency, copyThreshold: nat): seq<Step> {
    [Step(Command, CreateTable(name), None)] +
    if |d.rows| == 0 then []
    else if |d.rows| < copyThreshold then [Step(PushDependency, InsertValues(name, d.rows), Some(d))]
    else [Step(PushDependency, CopyFromStdin(name), Some(d))]
  }

  function AllPortSteps(dependencies: seq<InPort>, copyThreshold: nat): seq<Step> {
    if dependencies == [] then []
    else
      var last := dependencies[|dependencies| - 1];
      AllPortSteps(dependencies[..|dependencies| - 1], copyThreshold) +
      if last.result.Some? then PortSteps(last.name, last.result.value, copyThreshold) else []
  }

  function StepsFor(query: string, dependencies: seq<InPort>, copyThreshold: nat): seq<Step> {
    AllPortSteps(dependencies, copyThreshold)
      + [Step(GetColumnTypes, SelectNothing(query), None), Step(GetResult, CopyToStdout(query), None)]
  }

  function Sqls(steps: seq<Step>): (r: seq<Sql>)
    ensures |r| == |steps| && forall i :: 0 <= i < |steps| ==> r[i] == steps[i].sql
  {
    seq(|steps|, i requires 0 <= i < |steps| => steps[i].sql)
  }

  /** How the server answers: `columns` and `rows` are what the query yields. */
  function StatementOf(sql: Sql, columns: seq<Column>, rows: seq<string>): Statement {
    match sql
    case CopyFromStdin(_) => CopyFrom
    case SelectNothing(_) => Select(columns)
    case CopyToStdout(_) => CopyTo(rows)
    case _ => Plain
  }

  function ScriptFor(sqls: seq<Sql>, columns: seq<Column>, rows: seq<string>): (r: seq<Statement>)
    ensures |r| == |sqls| && forall i :: 0 <= i < |sqls| ==> r[i] == StatementOf(sqls[i], columns, rows)
  {
    seq(|sqls|, i requires 0 <= i < |sqls| => StatementOf(sqls[i], columns, rows))
  }

  predicate AllPresent(dependencies: seq<InPort>) {
    forall i :: 0 <= i < |dependencies| ==> dependencies[i].result.Some?
  }

  predicate RowsNotEmpty(d: Dependency) {
    forall k :: 0 <= k < |d.rows| ==> d.rows[k] != ""
  }

  predicate Pushing(step: Step) {
    match step.sql
    case CreateTable(_) => step.action == Command
    case InsertValues(_, _) => step.action == PushDependency
    case CopyFromStdin(_) => step.action == PushDependency && step.dependency.Some? && Pushable(step.dependency.value)
    case _ => false
  }

  lemma {:induction false} PortStepsPush(dependencies: seq<InPort>, copyThreshold: nat)
    requires forall i :: 0 <= i < |dependencies| ==>
      dependencies[i].result.Some? && RowsNotEmpty(dependencies[i].result.value)
    ensures forall i :: 0 <= i < |AllPortSteps(dependencies, copyThreshold)| ==>
      Pushing(AllPortSteps(dependencies, copyThreshold)[i])
  {
    if dependencies != [] {
      PortStepsPush(dependencies[..|dependencies| - 1], copyThreshold);
      var last := dependencies[|dependencies| - 1];
      assert RowsNotEmpty(last.result.value);
    }
  }

  /** The injected steps and the server's answers to them go together, whatever the threshold: lockstep, conservation
      and termination hold for every injected query. */
  lemma InjectedIsScripted(query: string, dependencies: seq<InPort>, copyThreshold: nat, columns: seq<Column>,
                           rows: seq<string>)
    requires forall i :: 0 <= i < |dependencies| ==>
      dependencies[i].result.Some? && RowsNotEmpty(dependencies[i].result.value)
    ensures var steps := StepsFor(query, dependencies, copyThreshold);
      Scripted(steps, ScriptFor(Sqls(steps), columns, rows))
  {
    PortStepsPush(dependencies, copyThreshold);
    var first, steps := AllPortSteps(dependencies, copyThreshold), StepsFor(query, dependencies, copyThreshold);
    var script := ScriptFor(Sqls(steps), columns, rows);
    forall i | 0 <= i < |steps|
      ensures Paired(steps[i], script[i]) && (i < |steps| - 2 ==> script[i].Plain? || script[i].CopyFrom?)
    {
      if i < |first| {
        assert steps[i] == first[i] && Pushing(first[i]);
      }
    }
  }

  /** One more port: its steps come behind all earlier ones. */
  lemma SnocPorts(before: seq<Step>, dependencies: seq<InPort>, i: nat, copyThreshold: nat)
    requires i < |dependencies| && dependencies[i].result.Some?
    ensures var first := AllPortSteps(dependencies[..i], copyThreshold);
      var more := PortSteps(dependencies[i].name, dependencies[i].result.value, copyThreshold);
      before + AllPortSteps(dependencies[..i + 1], copyThreshold) == before + first + more
      && Sqls(AllPortSteps(dependencies[..i + 1], copyThreshold)) == Sqls(first) + Sqls(more)
  {
    assert dependencies[..i + 1][..i] == dependencies[..i];
    hide PortSteps;
    Assoc(before, AllPortSteps(dependencies[..i], copyThreshold),
          PortSteps(dependencies[i].name, dependencies[i].result.value, copyThreshold));
  }

  /** Behind the ports come the two steps of the query. */
  lemma QuerySteps(before: seq<Step>, query: string, dependencies: seq<InPort>, copyThreshold: nat)
    ensures var first := AllPortSteps(dependencies, copyThreshold);
      var columns, rows := SelectNothing(query), CopyToStdout(query);
      && before + StepsFor(query, dependencies, copyThreshold)
         == before + first + [Step(GetColumnTypes, columns, None)] + [Step(GetResult, rows, None)]
      && Sqls(StepsFor(query, dependencies, copyThreshold)) == Sqls(first) + [columns] + [rows]
  {
    hide AllPortSteps;
  }

  class DefaultDependencyInjector {
    var steps: seq<Step>

    constructor ()
      ensures steps == []
    {
      steps := [];
    }

    method InjectPort(name: string, d: Dependency, copyThreshold: nat) returns (sql: seq<Sql>)
      modifies this
      ensures steps == old(steps) + PortSteps(name, d, copyThreshold) && sql == Sqls(PortSteps(name, d, copyThreshold))
    {
      steps := steps + [Step(Command, CreateTable(name), None)];
      sql := [CreateTable(name)];
      if |d.rows| > 0 {
        if |d.rows| < copyThreshold {
          steps := steps + [Step(PushDependency, InsertValues(name, d.rows), Some(d))];
          sql := sql + [InsertValues(name, d.rows)];
        } else {
          steps := steps + [Step(PushDependency, CopyFromStdin(name), Some(d))];
          sql := sql + [CopyFromStdin(name)];
        }
      }
    }

    method InjectPorts(dependencies: seq<InPort>, copyThreshold: nat) returns (sql: seq<Sql>)
      requires AllPresent(dependencies)
      modifies this
      ensures steps == old(steps) + AllPortSteps(dependencies, copyThreshold)
      ensures sql == Sqls(AllPortSteps(dependencies, copyThreshold))
    {
      assert AllPortSteps(dependencies[..0], copyThreshold) == [];
      hide PortSteps;
      hide AllPortSteps;
      sql := [];
      for i := 0 to |dependencies|
        invariant steps == old(steps) + AllPortSteps(dependencies[..i], copyThreshold)
        invariant sql == Sqls(AllPortSteps(dependencies[..i], copyThreshold))
      {
        SnocPorts(old(steps), dependencies, i, copyThreshold);
        var more := InjectPort(dependencies[i].name, dependencies[i].result.value, copyThreshold);
        sql := sql + more;
      }
      assert dependencies[..|dependencies|] == dependencies;
    }

    /** Adds the steps of the query behind those of earlier ones; nothing happens when a dependency is missing. */
    method Inject(query: string, dependencies: seq<InPort>, copyThreshold: nat) returns (r: Result<seq<Sql>, string>)
      modifies this
      ensures r.Ok? <==> AllPresent(dependencies)
      ensures r.Ok? ==> steps == old(steps) + StepsFor(query, dependencies, copyThreshold)
      ensures r.Ok? ==> r.value == Sqls(StepsFor(query, dependencies, copyThreshold))
      ensures r.Err? ==> steps == old(steps)
    {
      hide PortSteps;
      hide AllPortSteps;
      hide Sqls;
      hide StepsFor;
      for i := 0 to |dependencies|
        invariant forall k :: 0 <= k < i ==> dependencies[k].result.Some?
        invariant steps == old(steps)
      {
        if dependencies[i].result.None? {
          return Err("can't inject sql because of missing dependency '" + dependencies[i].name + "'");
        }
      }
      var sql := InjectPorts(dependencies, copyThreshold);
      QuerySteps(old(steps), query, dependencies, copyThreshold);
      steps := steps + [Step(GetColumnTypes, SelectNothing(query), None)];
      sql := sql + [SelectNothing(query)];
      steps := steps + [Step(GetResult, CopyToStdout(query), None)];
      sql := sql + [CopyToStdout(query)];
      r := Ok(sql);
    }
  }

  lemma {:induction false} OnlyLastGetsResult(query: string, dependencies: seq<InPort>, copyThreshold: nat)
    ensures var steps := StepsFor(query, dependencies, copyThreshold);
      forall k :: 0 <= k < |steps| ==> (steps[k].action == GetResult <==> k == |steps| - 1)
  {
    if dependencies != [] {
      OnlyLastGetsResult(query, dependencies[..|dependencies| - 1], copyThreshold);
      var first := AllPortSteps(dependencies[..|dependencies| - 1], copyThreshold);
      forall k | 0 <= k < |first| ensures first[k].action != GetResult {
        assert StepsFor(query, dependencies[..|dependencies| - 1], copyThreshold)[k] == first[k];
      }
    }
  }

  /** The step numbers begin at 0 for every query: this one finds its own steps there. */
  predicate FindsOwn(steps: seq<Step>, own: seq<Step>) {
    |own| <= |steps| && forall k :: 0 <= k < |own| ==> steps[k] == own[k]
  }

  /** Steps are never removed from an injector. A query that is not the first one through its injector finds its own
      steps if and only if the first one had the very same steps, which is why every execution has an injector of its
      own. */
  lemma LaterQueryFindsOwn(first: seq<InPort>, firstQuery: string, between: seq<Step>, later: seq<InPort>,
                           query: string, copyThreshold: nat)
    ensures var before, own := StepsFor(firstQuery, first, copyThreshold), StepsFor(query, later, copyThreshold);
      FindsOwn(before + between + own, own) <==> before == own
  {
    var before, own := StepsFor(firstQuery, first, copyThreshold), StepsFor(query, later, copyThreshold);
    OnlyLastGetsResult(firstQuery, first, copyThreshold);
    OnlyLastGetsResult(query, later, copyThreshold);
    var all := before + between + own;
    if FindsOwn(all, own) {
      var k := if |own| <= |before| then |own| - 1 else |before| - 1;
      assert own[k] == all[k] == before[k];
      assert forall j :: 0 <= j < |own| ==> before[j] == all[j];
    }
  }

  // ---- the connection

  class PGConnection {
    var server: Server

    constructor (server: Server)
      ensures this.server == server
    {
      this.server := server;
    }

    method GetResult() returns (r: Option<Reply>)
      modifies this
      ensures (r, server) == old(server).Result()
    {
      var (reply, next) := server.Result();
      r, server := reply, next;
    }

    method PutCopyData(data: string, put: Put) returns (code: int)
      modifies this
      ensures code == (match put case Accepted => 1 case WouldBlock => 0 case Failed => -1)
      ensures server == if put == Accepted then old(server).Accept(data) else old(server)
    {
      match put {
        case Accepted => server := server.Accept(data); code := 1;
        case WouldBlock => code := 0;
        case Failed => code := -1;
      }
    }

    method PutCopyEnd(end: Put) returns (code: int)
      modifies this
      ensures code == (match end case Accepted => 1 case WouldBlock => 0 case Failed => -1)
      ensures server == if end == Accepted then old(server).End() else old(server)
    {
      match end {
        case Accepted => server := server.End(); code := 1;
        case WouldBlock => code := 0;
        case Failed => code := -1;
      }
    }

    /** One row, or why there is none: -2 for an error, 0 when it would block, -1 at the end. */
    method GetCopyData(arrived: bool, p: Poll) returns (size: int, data: string)
      modifies this
      ensures arrived && old(server).sent < |old(server).Outgoing()| ==>
        size > -1 && data == old(server).Outgoing()[old(server).sent]
        && server == old(server).(sent := old(server).sent + 1)
      ensures !(arrived && old(server).sent < |old(server).Outgoing()|) ==>
        && size == (if p.broken then -2 else if old(server).sent < |old(server).Outgoing()| || !p.ended then 0 else -1)
        && server == if size == -1 then old(server).End() else old(server)
      ensures size > 0 <==> arrived && old(server).sent < |old(server).Outgoing()|
    {
      if arrived && server.sent < |server.Outgoing()| {
        data := server.Outgoing()[server.sent];
        size := |data| + 1;
        server := server.(sent := server.sent + 1);
      } else {
        data := "";
        size := if p.broken then -2 else if server.sent < |server.Outgoing()| || !p.ended then 0 else -1;
        if size == -1 {
          server := server.End();
        }
      }
    }
  }

  // ---- the callbacks

  class PGQueryExecution {
    const injector: DefaultDependencyInjector
    var resultTable: Option<ResultTable>

    constructor (injector: DefaultDependencyInjector)
      ensures this.injector == injector && resultTable == None
    {
      this.injector, resultTable := injector, None;
    }

    function Handler(): Handler
      reads this, injector
    {
      CopyModel.Handler(injector.steps, resultTable)
    }

    method Dependency(stepNo: nat) returns (r: Result<Dependency, Fault>)
      ensures forall w: World :: w.handler == Handler() && w.task.queryNo == stepNo ==> Dependent(w) == r
    {
      if stepNo >= |injector.steps| {
        return Err(NoSuchStep);
      }
      if injector.steps[stepNo].dependency.None? {
        return Err(NoDependency);
      }
      r := Ok(injector.steps[stepNo].dependency.value);
    }

    /** At most `rows` rows from `startRow` on, fewer at the end of the table. */
    static method HandleCopyIn(d: Dependency, startRow: nat, rows: nat) returns (r: Result<(string, nat), Fault>)
      requires rows == ROWS_PER_CHUNK && startRow <= |d.rows|
      ensures r.Err? <==> d.flat && startRow == |d.rows|
      ensures r.Err? ==> r == Err(RowOutOfRange)
      ensures r.Ok? ==>
        r.value.1 == RowsRead(|d.rows|, startRow) && r.value.0 == Flatten(Between(d.rows, startRow, r.value.1))
      ensures r.Ok? ==>
        r.value.1 == Least(100, |d.rows| - startRow) && r.value.0 == Flatten(d.rows[startRow..startRow + r.value.1])
    {
      var rowsRead := if startRow + rows > |d.rows| then |d.rows| - startRow else rows;
      if d.flat && startRow == |d.rows| {
        return Err(RowOutOfRange);
      }
      r := Ok((Flatten(Between(d.rows, startRow, rowsRead)), rowsRead));
    }

    method HandleCopyOut(data: string) returns (r: Result<(), Fault>)
      modifies this
      ensures old(resultTable).None? ==> r == Err(NoResultTable) && resultTable == None
      ensures old(resultTable).Some? ==>
        r == Ok(()) && resultTable == Some(old(resultTable).value.(data := old(resultTable).value.data + data))
    {
      if resultTable.None? {
        return Err(NoResultTable);
      }
      resultTable := Some(resultTable.value.(data := resultTable.value.data + data));
      r := Ok(());
    }

    method HandleTuples(columns: seq<Column>)
      modifies this
      ensures resultTable == Some(ResultTable(Cleaned(columns), ""))
      ensures resultTable.value.data == "" && |resultTable.value.columns| == |columns|
      ensures forall i :: 0 <= i < |columns| ==>
        var c := resultTable.value.columns[i];
        if columns[i].name == "?column?" then c.name == "argument_" + Decimal(i) && c.oid == 25 else c == columns[i]
    {
      var cleaned := [];
      for idx := 0 to |columns|
        invariant cleaned == Cleaned(columns)[..idx]
      {
        if columns[idx].name == "?column?" {
          cleaned := cleaned + [Column("argument_" + Decimal(idx), 25)];
        } else {
          cleaned := cleaned + [columns[idx]];
        }
      }
      assert cleaned == Cleaned(columns);
      resultTable := Some(ResultTable(cleaned, ""));
    }
  }

  // ---- the task

  class QueryTask {
    var state: TaskState
    var queryNo: nat
    var result: Option<Reply>
    var data: string
    var done: bool
    var rowsReceived: nat
    var lastRowSent: int
    const conn: PGConnection
    const handler: PGQueryExecution

    constructor (conn: PGConnection, handler: PGQueryExecution)
      ensures this.conn == conn && this.handler == handler
      ensures Task() == CopyModel.Task(Initial, 0, None, "", false, 0, -1)
    {
      this.conn, this.handler := conn, handler;
      state, queryNo, result, data, done, rowsReceived, lastRowSent := Initial, 0, None, "", false, 0, -1;
    }

    function Task(): Task
      reads this
    {
      CopyModel.Task(state, queryNo, result, data, done, rowsReceived, lastRowSent)
    }

    function World(): World
      reads this, conn, handler, handler.injector
    {
      CopyModel.World(Task(), conn.server, handler.Handler())
    }

    /** Sends the next chunk of the current step's table, and the end after the last one. */
    method ProcessCopyIn(p: Poll) returns (r: Result<bool, Fault>)
      requires result == Some(CopyIn) && !done
      requires Dependent(World()).Ok? ==> 0 <= lastRowSent + 1 <= |Dependent(World()).value.rows|
      modifies this, conn
      ensures !done
      ensures CopyingIn(old(World()), p).Err? ==> r == Err(CopyingIn(old(World()), p).fault)
      ensures CopyingIn(old(World()), p).Ok? ==> r == Ok(false) && World() == CopyingIn(old(World()), p).value
    {
      hide Flatten;
      var d :- handler.Dependency(queryNo);
      var rowCount := |d.rows|;
      if rowCount > 0 {
        var first := true;
        while first || lastRowSent + 1 < rowCount
          invariant first ==> World() == old(World())
          invariant !first ==>
            World() == SentWorld(old(World()), d) && lastRowSent + 1 >= rowCount && p.put == Accepted
              && !(d.flat && old(lastRowSent) + 1 >= rowCount)
          decreases first
        {
          first := false;
          var chunk :- PGQueryExecution.HandleCopyIn(d, lastRowSent + 1, ROWS_PER_CHUNK);
          var copyDataResult := conn.PutCopyData(chunk.0, p.put);
          if copyDataResult == 1 {
            lastRowSent := lastRowSent + chunk.1;
            if lastRowSent + 1 < rowCount {
              return Ok(false);
            }
          } else if copyDataResult == 0 {
            return Ok(false);
          } else {
            return Err(CopyFailed);
          }
        }
        var copyEndResult := conn.PutCopyEnd(p.end);
        if copyEndResult == 0 {
          return Ok(false);
        }
        lastRowSent := -1;
      } else {
        var copyEndResult := conn.PutCopyEnd(p.end);
        if copyEndResult == -1 {
          return Err(CopyFailed);
        }
      }
      result := None;
      r := Ok(false);
    }

    ghost function SentWorld(w: World, d: Dependency): World {
      var start := if w.task.lastRowSent < -1 then 0 else w.task.lastRowSent + 1;
      var n := RowsRead(|d.rows|, start);
      w.(server := w.server.Accept(Flatten(Between(d.rows, start, n))),
         task := w.task.(lastRowSent := w.task.lastRowSent + n))
    }

    /** Collects the rows that have arrived, and hands them over at their end. */
    method ProcessCopyOut(p: Poll) returns (r: Result<bool, Fault>)
      requires result == Some(CopyOut) && !done
      modifies this, conn, handler
      ensures !done
      ensures CopyingOut(old(World()), p).Err? ==> r == Err(CopyingOut(old(World()), p).fault)
      ensures CopyingOut(old(World()), p).Ok? ==> r == Ok(false) && World() == CopyingOut(old(World()), p).value
    {
      hide Flatten;
      ghost var w := World();
      ghost var n := w.server.Arriving(p.available);
      var budget := p.available;
      var size := 1;
      GotNone(w);
      while size != -1
        invariant budget <= p.available
        invariant size > 0 ==> p.available - budget <= n && World() == Got(w, p.available - budget)
        invariant size == -1 ==>
          !p.broken && p.ended && World() == Got(w, n).(server := Got(w, n).server.End())
            && Got(w, n).server.sent >= |w.server.Outgoing()|
        invariant size > 0 || size == -1
        decreases if size == -1 then -1 else budget
      {
        var row;
        ghost var k := p.available - budget;
        size, row := conn.GetCopyData(budget > 0, p);
        if size == 0 {
          return Ok(false);
        } else if size == -2 {
          return Err(CopyFailed);
        } else if size != -1 {
          GotOneMore(w, k);
          data := data + row;
          rowsReceived := rowsReceived + 1;
          budget := budget - 1;
        }
      }
      if data != "" {
        var handed :- handler.HandleCopyOut(data);
      }
      data := "";
      result := None;
      r := Ok(false);
    }

    static lemma GotNone(w: World)
      ensures Got(w, 0) == w
    {
      if w.server.sent <= |w.server.Outgoing()| {
        assert w.server.Outgoing()[w.server.sent..w.server.sent] == [];
      }
      assert Flatten([]) == "" && w.task.data + "" == w.task.data;
    }

    static lemma GotOneMore(w: World, k: nat)
      requires w.server.sent + k < |w.server.Outgoing()|
      ensures Got(w, k + 1) == Got(w, k).(
        server := Got(w, k).server.(sent := w.server.sent + k + 1),
        task := Got(w, k).task.(data := Got(w, k).task.data + w.server.Outgoing()[w.server.sent + k],
                                rowsReceived := w.task.rowsReceived + k + 1))
    {
      var rows, from := w.server.Outgoing(), w.server.sent;
      assert rows[from..from + (k + 1)] == rows[from..from + k] + [rows[from + k]];
      FlattenSnoc(rows[from..from + k], rows[from + k]);
      Assoc(w.task.data, Flatten(rows[from..from + k]), rows[from + k]);
    }

    /** One poll, which keeps the invariant of the protocol if it does not throw. */
    method ProcessTask(p: Poll) returns (r: Result<bool, Fault>)
      requires Valid(World())
      modifies this, conn, handler
      ensures Turn(old(World()), p).Err? ==> r == Err(Turn(old(World()), p).fault)
      ensures Turn(old(World()), p).Ok? ==> r == Ok(done) && World() == Turn(old(World()), p).value && Valid(World())
    {
      hide CopyingIn;
      hide CopyingOut;
      ghost var again :| Inv(World(), again);
      TurnKeeps(World(), p, again);
      if done {
        return Ok(true);
      }
      match state {
        case Initial =>
          if !p.connects {
            return Err(ConnectFailed);
          }
          state := Connected;
        case Connected =>
          if !p.sends {
            return Err(SendFailed);
          }
          state := QuerySending;
        case QuerySending =>
          if p.flushes {
            state := QuerySent;
          }
        case QuerySent => r := ProcessResult(p); return;
        case Done =>
      }
      r := Ok(false);
    }

    /** Asks for a result unless one is left over, and deals with it. */
    method ProcessResult(p: Poll) returns (r: Result<bool, Fault>)
      requires Valid(World()) && state == QuerySent && !done
      modifies this, conn, handler
      ensures Turn(old(World()), p).Err? ==> r == Err(Turn(old(World()), p).fault)
      ensures Turn(old(World()), p).Ok? ==> r == Ok(done) && World() == Turn(old(World()), p).value
    {
      hide CopyingIn;
      hide CopyingOut;
      hide Inv;
      if !p.consumes {
        return Err(ConsumeFailed);
      }
      if p.busy {
        return Ok(false);
      }
      ghost var w := World();
      if result.None? {
        if p.fatal {
          return Err(QueryFailed);
        }
        result := conn.GetResult();
      }
      assert World() == Fetch(w);
      if result.None? {
        done, state := true, Done;
        return Ok(true);
      }
      match result.value {
        case CopyIn => RowsRemain(w); r := ProcessCopyIn(p);
        case CopyOut => r := ProcessCopyOut(p);
        case TuplesOk(columns) =>
          handler.HandleTuples(columns);
          queryNo, result := queryNo + 1, None;
          r := Ok(false);
        case CommandOk =>
          queryNo, result := queryNo + 1, None;
          r := Ok(false);
      }
    }

    static lemma RowsRemain(w: World)
      requires Valid(w) && w.task.state == QuerySent && !w.task.done && Fetch(w).task.result == Some(CopyIn)
      ensures Dependent(Fetch(w)).Ok? ==> 0 <= Fetch(w).task.lastRowSent + 1 <= |Dependent(Fetch(w)).value.rows|
    {
      var again :| Inv(w, again);
      if w.task.result.None? {
        InvIsReady(w, again);
        CopyAnnounced(w, again);
      }
      RightTable(Fetch(w), again);
    }
  }
}
