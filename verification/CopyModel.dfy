/** One query of a run against PostgreSQL: the statements sent, the server's stream of results, and the client that has
    to keep step with it. Each poll of the client is one transition. */
module CopyModel {
  import opened Sequences
  import opened Wrappers

  // ---- what is sent

  /** A result to be pushed: its rows as text, and whether it is a flat table, whose index rejects a row past the
      end. */
  datatype Dependency = Dependency(rows: seq<string>, flat: bool)

  datatype Sql = CreateTable(name: string) | InsertValues(name: string, rows: seq<string>) | CopyFromStdin(name: string)
    | SelectNothing(query: string) | CopyToStdout(query: string)

  datatype Action = Command | PushDependency | GetColumnTypes | GetResult

  datatype Step = Step(action: Action, sql: Sql, dependency: Option<Dependency>)

  // ---- the server

  datatype Column = Column(name: string, oid: nat)

  /** What a statement does to the stream of results. */
  datatype Statement = Plain | CopyFrom | Select(columns: seq<Column>) | CopyTo(rows: seq<string>)

  datatype Phase = Waiting | Copying | Ended

  datatype Reply = CommandOk | TuplesOk(columns: seq<Column>) | CopyIn | CopyOut

  /** The statement being answered, how far its answer is, the chunks accepted per statement, and the rows handed out
      for the statement being answered. */
  datatype Server = Server(script: seq<Statement>, pos: nat, phase: Phase, loaded: seq<seq<string>>, sent: nat) {
    /** The next result; none when all statements are answered. A copy that has not ended is announced again. */
    function Result(): (Option<Reply>, Server) {
      if pos >= |script| then (None, this)
      else match script[pos]
        case Plain => (Some(CommandOk), Next())
        case Select(columns) => (Some(TuplesOk(columns)), Next())
        case CopyFrom => if phase == Ended then (Some(CommandOk), Next()) else (Some(CopyIn), this.(phase := Copying))
        case CopyTo(_) => if phase == Ended then (Some(CommandOk), Next()) else (Some(CopyOut), this.(phase := Copying))
    }

    function Next(): Server {
      Server(script, pos + 1, Waiting, loaded, 0)
    }

    /** Accepts a chunk for the current statement; an empty one sends nothing. */
    function Accept(chunk: string): Server {
      if chunk == "" || pos >= |loaded| then this else this.(loaded := loaded[pos := loaded[pos] + [chunk]])
    }

    function End(): Server {
      this.(phase := Ended)
    }

    function Outgoing(): seq<string> {
      if pos < |script| && script[pos].CopyTo? then script[pos].rows else []
    }

    /** The rows it hands out when `available` of them have arrived. */
    function Arriving(available: nat): (n: nat)
      ensures n <= available && (n > 0 ==> sent + n <= |Outgoing()|)
    {
      if sent > |Outgoing()| then 0 else if available <= |Outgoing()| - sent then available else |Outgoing()| - sent
    }
  }

  // ---- the client

  datatype ResultTable = ResultTable(columns: seq<Column>, data: string)

  /** The state of the execution that the callbacks read and write. */
  datatype Handler = Handler(steps: seq<Step>, resultTable: Option<ResultTable>)

  datatype TaskState = Initial | Connected | QuerySending | QuerySent | Done

  datatype Task = Task(state: TaskState, queryNo: nat, result: Option<Reply>, data: string, done: bool,
                       rowsReceived: nat, lastRowSent: int)

  datatype World = World(task: Task, server: Server, handler: Handler)

  datatype Put = Accepted | WouldBlock | Failed

  /** What the connection answers during one poll; `available` is how many COPY OUT rows have arrived, `ended` whether
      the end of the data has, too. */
  datatype Poll = Poll(connects: bool, sends: bool, flushes: bool, consumes: bool, busy: bool, fatal: bool,
                       put: Put, end: Put, available: nat, ended: bool, broken: bool)

  /** Why a poll throws: the first five are failures of the connection or the query. */
  datatype Fault = ConnectFailed | SendFailed | ConsumeFailed | QueryFailed | CopyFailed
                 | NoSuchStep | NoDependency | NoResultTable | RowOutOfRange

  const ROWS_PER_CHUNK: nat := 100

  /** How many rows the next chunk has. */
  function RowsRead(rowCount: nat, start: nat): nat {
    if start + ROWS_PER_CHUNK > rowCount then (if start <= rowCount then rowCount - start else 0) else ROWS_PER_CHUNK
  }

  /** A column without a name of its own is named by position and taken as text. */
  function Cleaned(columns: seq<Column>): (r: seq<Column>)
    ensures |r| == |columns|
  {
    seq(|columns|, i requires 0 <= i < |columns| =>
      if columns[i].name == "?column?" then Column("argument_" + Decimal(i), 25) else columns[i])
  }

  function Dependent(w: World): Result<Dependency, Fault> {
    if w.task.queryNo >= |w.handler.steps| then Err(NoSuchStep)
    else if w.handler.steps[w.task.queryNo].dependency.None? then Err(NoDependency)
    else Ok(w.handler.steps[w.task.queryNo].dependency.value)
  }

  /** The result has been dealt with; the next poll asks for another. */
  function Cleared(w: World): World {
    w.(task := w.task.(result := None))
  }

  /** A COPY IN announced: send one chunk, and after the last one the end. */
  function CopyingIn(w: World, p: Poll): Result<World, Fault> {
    var d :- Dependent(w);
    if |d.rows| > 0 then ChunkIn(w, d, p)
    else match p.end
      case WouldBlock => Ok(Cleared(w))
      case Failed => Err(CopyFailed)
      case Accepted => Ok(Cleared(w.(server := w.server.End())))
  }

  function ChunkIn(w: World, d: Dependency, p: Poll): Result<World, Fault> {
    var start := if w.task.lastRowSent < -1 then 0 else w.task.lastRowSent + 1;
    if d.flat && start >= |d.rows| then Err(RowOutOfRange)
    else match p.put
      case WouldBlock => Ok(w)
      case Failed => Err(CopyFailed)
      case Accepted =>
        var n := RowsRead(|d.rows|, start);
        var sent := w.(server := w.server.Accept(Flatten(Between(d.rows, start, n))),
                       task := w.task.(lastRowSent := w.task.lastRowSent + n));
        if sent.task.lastRowSent + 1 < |d.rows| then Ok(sent) else EndIn(sent, p)
  }

  /** Anything but a refusal counts as success. */
  function EndIn(w: World, p: Poll): Result<World, Fault> {
    match p.end
    case WouldBlock => Ok(w)
    case Failed => Ok(Cleared(w.(task := w.task.(lastRowSent := -1))))
    case Accepted => Ok(Cleared(w.(server := w.server.End(), task := w.task.(lastRowSent := -1))))
  }

  /** A COPY OUT announced: take what has arrived, and at its end hand it over. */
  function CopyingOut(w: World, p: Poll): Result<World, Fault> {
    var n := w.server.Arriving(p.available);
    var more := Flatten(Between(w.server.Outgoing(), w.server.sent, n));
    var got := w.(server := w.server.(sent := w.server.sent + n),
                  task := w.task.(data := w.task.data + more, rowsReceived := w.task.rowsReceived + n));
    if p.broken then Err(CopyFailed)
    else if got.server.sent < |got.server.Outgoing()| || !p.ended then Ok(got)
    else HandOver(got.(server := got.server.End()))
  }

  function HandOver(w: World): Result<World, Fault> {
    if w.task.data == "" then Ok(Cleared(w))
    else if w.handler.resultTable.None? then Err(NoResultTable)
    else
      var t := w.handler.resultTable.value;
      Ok(Cleared(w.(handler := w.handler.(resultTable := Some(t.(data := t.data + w.task.data))),
                    task := w.task.(data := ""))))
  }

  /** Deals with a result, new or left over from an earlier poll. */
  function Answer(w: World, reply: Reply, p: Poll): Result<World, Fault> {
    match reply
      case CopyIn => CopyingIn(w, p)
      case CopyOut => CopyingOut(w, p)
      case TuplesOk(columns) =>
        Ok(Cleared(w.(handler := w.handler.(resultTable := Some(ResultTable(Cleaned(columns), ""))),
                      task := w.task.(queryNo := w.task.queryNo + 1))))
      case CommandOk => Ok(Cleared(w.(task := w.task.(queryNo := w.task.queryNo + 1))))
  }

  function Fetch(w: World): World {
    if w.task.result.Some? then w
    else
      var (reply, server) := w.server.Result();
      w.(server := server, task := w.task.(result := reply))
  }

  /** One poll. */
  function Turn(w: World, p: Poll): Result<World, Fault> {
    if w.task.done then Ok(w)
    else match w.task.state
      case Initial => if p.connects then Ok(w.(task := w.task.(state := Connected))) else Err(ConnectFailed)
      case Connected => if p.sends then Ok(w.(task := w.task.(state := QuerySending))) else Err(SendFailed)
      case QuerySending => if p.flushes then Ok(w.(task := w.task.(state := QuerySent))) else Ok(w)
      case QuerySent =>
        if !p.consumes then Err(ConsumeFailed)
        else if p.busy then Ok(w)
        else if p.fatal && w.task.result.None? then Err(QueryFailed)
        else
          var f := Fetch(w);
          if f.task.result.None? then Ok(f.(task := f.task.(state := Done, done := true)))
          else Answer(f, f.task.result.value, p)
      case Done => Ok(w)
  }

  function Run(w: World, polls: seq<Poll>): Result<World, Fault> {
    if polls == [] then Ok(w)
    else
      var before :- Run(w, polls[..|polls| - 1]);
      Turn(before, polls[|polls| - 1])
  }
}
