/** The client keeps step with the server: every statement is answered with its own step, every table is copied in
    completely, once more for every end of a copy that failed, and the whole result is handed over. */
module CopyProtocol {
  import opened Sequences
  import opened Wrappers
  import opened CopyModel

  // ---- what a query sends and what the server makes of it

  /** A result pushed by COPY: it has rows, and no row's text is empty. */
  predicate Pushable(d: Dependency) {
    |d.rows| > 0 && forall k :: 0 <= k < |d.rows| ==> d.rows[k] != ""
  }

  /** Steps and statements go together one by one: a COPY FROM has the table it copies. */
  predicate Paired(step: Step, statement: Statement) {
    match step.sql
    case CopyFromStdin(_) => statement == CopyFrom && step.action == PushDependency && step.dependency.Some?
      && Pushable(step.dependency.value)
    case SelectNothing(_) => statement.Select? && step.action == GetColumnTypes
    case CopyToStdout(_) => statement.CopyTo? && step.action == GetResult
    case _ => statement == Plain
  }

  /** Commands and copies first, then the columns, then the result. */
  predicate Scripted(steps: seq<Step>, script: seq<Statement>) {
    && |steps| == |script| >= 2
    && (forall i :: 0 <= i < |script| ==> Paired(steps[i], script[i]))
    && (forall i :: 0 <= i < |script| - 2 ==> script[i].Plain? || script[i].CopyFrom?)
    && script[|script| - 2].Select? && script[|script| - 1].CopyTo?
  }

  // ---- chunks

  function Least(a: nat, b: nat): nat {
    if a <= b then a else b
  }

  /** The rows in the first `k` chunks. */
  function SentBy(rows: seq<string>, k: nat): (n: nat)
    ensures n <= |rows|
  {
    Least(ROWS_PER_CHUNK * k, |rows|)
  }

  function Chunk(rows: seq<string>, k: nat): string {
    Flatten(rows[Least(ROWS_PER_CHUNK * k, |rows|)..Least(ROWS_PER_CHUNK * k + ROWS_PER_CHUNK, |rows|)])
  }

  function Chunks(rows: seq<string>, k: nat): (r: seq<string>)
    ensures |r| == k
  {
    if k == 0 then [] else Chunks(rows, k - 1) + [Chunk(rows, k - 1)]
  }

  function ChunkCount(rows: seq<string>): nat {
    (|rows| + ROWS_PER_CHUNK - 1) / ROWS_PER_CHUNK
  }

  lemma ChunkIs(rows: seq<string>, k: nat)
    ensures SentBy(rows, k) <= SentBy(rows, k + 1)
    ensures Chunk(rows, k) == Flatten(rows[SentBy(rows, k)..SentBy(rows, k + 1)])
  {
  }

  /** The chunks put together are the rows so far, each once and in order. */
  lemma {:induction false} ChunksAreRows(rows: seq<string>, k: nat)
    ensures Flatten(Chunks(rows, k)) == Flatten(rows[..SentBy(rows, k)])
  {
    hide Flatten;
    hide Chunk;
    if k == 0 {
      assert Chunks(rows, k) == rows[..SentBy(rows, k)];
    } else {
      assert Chunks(rows, k) == Chunks(rows, k - 1) + [Chunk(rows, k - 1)];
      hide SentBy;
      hide Chunks;
      var before, now := SentBy(rows, k - 1), SentBy(rows, k);
      ChunkIs(rows, k - 1);
      ChunksAreRows(rows, k - 1);
      FlattenSnoc(Chunks(rows, k - 1), Chunk(rows, k - 1));
      assert rows[..now] == rows[..before] + rows[before..now];
      FlattenSplit(rows[..before], rows[before..now]);
    }
  }

  /** All rows are sent with the last of the chunks, and not before. */
  lemma LastChunk(rows: seq<string>, k: nat)
    ensures SentBy(rows, k) == |rows| <==> k >= ChunkCount(rows)
  {
  }

  lemma ChunkNotEmpty(rows: seq<string>, k: nat)
    requires SentBy(rows, k) < |rows| && forall i :: 0 <= i < |rows| ==> rows[i] != ""
    ensures Chunk(rows, k) != ""
  {
    var part := rows[Least(ROWS_PER_CHUNK * k, |rows|)..Least(ROWS_PER_CHUNK * k + ROWS_PER_CHUNK, |rows|)];
    assert part[|part| - 1] != "";
  }

  /** The chunks of the whole table. */
  function Whole(rows: seq<string>): (r: seq<string>)
    ensures |r| == ChunkCount(rows)
  {
    Chunks(rows, ChunkCount(rows))
  }

  function Times<T>(x: seq<T>, n: nat): seq<T> {
    if n == 0 then [] else Times(x, n - 1) + x
  }

  // ---- the invariant

  /** Everything of the table of step `i` has been accepted `times` times, each time in the fewest possible chunks. */
  predicate Complete(steps: seq<Step>, loaded: seq<seq<string>>, i: nat, times: nat) {
    if i >= |steps| || i >= |loaded| then false
    else if steps[i].sql.CopyFromStdin? then
      steps[i].dependency.Some? && loaded[i] == Times(Whole(steps[i].dependency.value.rows), times)
    else loaded[i] == []
  }

  function Rows(w: World): seq<string> {
    var n := |w.server.script|;
    if n > 0 && w.server.script[n - 1].CopyTo? then w.server.script[n - 1].rows else []
  }

  function Columns(w: World): seq<Column> {
    var n := |w.server.script|;
    if n > 1 && w.server.script[n - 2].Select? then Cleaned(w.server.script[n - 2].columns) else []
  }

  /** What has been received so far is the result table: nothing before the columns are known, then a table without
      rows, and all rows once the COPY OUT has ended. */
  predicate ResultSoFar(w: World) {
    var n, s := |w.server.script|, w.server;
    w.handler.resultTable ==
      if s.pos + 1 < n then None
      else if s.pos + 1 == n && s.phase != Ended then Some(ResultTable(Columns(w), ""))
      else Some(ResultTable(Columns(w), Flatten(Rows(w))))
  }

  /** A copy into the table of the current step, which was copied `again` times before: as many rows have been accepted
      as the task remembers. */
  predicate CopyingState(w: World, again: nat) {
    var s, t := w.server, w.task;
    && s.pos < |s.script| && s.script[s.pos].CopyFrom? && s.phase == Copying && t.data == "" && s.sent == 0
    && s.pos < |s.loaded| && s.pos < |w.handler.steps| && w.handler.steps[s.pos].dependency.Some?
    && ChunksSoFar(w.handler.steps[s.pos].dependency.value.rows, s.loaded[s.pos], t.lastRowSent, again)
  }

  predicate ChunksSoFar(rows: seq<string>, loaded: seq<string>, lastRowSent: int, again: nat) {
    var before := Times(Whole(rows), again);
    var k := |loaded| - |before|;
    0 <= k <= ChunkCount(rows) && loaded == before + Chunks(rows, k) && lastRowSent + 1 == SentBy(rows, k)
  }

  /** All rows are accepted, but the end of the copy was refused. */
  predicate EndPending(w: World) {
    && w.task.result == Some(CopyIn) && w.server.pos < |w.handler.steps|
    && w.handler.steps[w.server.pos].dependency.Some?
    && w.task.lastRowSent + 1 == |w.handler.steps[w.server.pos].dependency.value.rows|
  }

  predicate ReceivingState(w: World) {
    var s, t := w.server, w.task;
    && s.pos + 1 == |s.script| && s.phase == Copying && t.lastRowSent == -1 && s.pos < |s.loaded|
    && s.loaded[s.pos] == []
    && s.sent <= |Rows(w)| && t.data == Flatten(Rows(w)[..s.sent])
  }

  /** Between results. A copy whose end failed is still open then, and its table has been accepted as a whole. */
  predicate QuietState(w: World, again: nat) {
    var s, t := w.server, w.task;
    && t.lastRowSent == -1 && t.data == ""
    && (s.phase == Waiting ==> s.sent == 0 && (s.pos < |s.loaded| ==> s.loaded[s.pos] == [] && again == 0))
    && (s.phase == Copying ==> s.sent == 0 && s.pos < |s.script| && s.script[s.pos].CopyFrom?
                               && Complete(w.handler.steps, s.loaded, s.pos, again))
    && (s.phase == Ended ==> s.pos < |s.script| && (s.script[s.pos].CopyFrom? || s.script[s.pos].CopyTo?)
                             && Complete(w.handler.steps, s.loaded, s.pos, 1 + again))
  }

  /** `again` says per statement how often its copy had to begin anew. */
  predicate Progress(w: World, again: seq<nat>) {
    var s := w.server;
    && w.task.queryNo == s.pos <= |s.script| == |s.loaded| == |again|
    && (forall i :: 0 <= i < s.pos ==> Complete(w.handler.steps, s.loaded, i, 1 + again[i]))
    && (forall i :: s.pos < i < |s.script| ==> s.loaded[i] == [] && again[i] == 0)
    && ResultSoFar(w)
  }

  function At(again: seq<nat>, i: nat): nat {
    if i < |again| then again[i] else 0
  }

  predicate Pending(w: World, again: nat) {
    match w.task.result
    case None => QuietState(w, again)
    case Some(CopyIn) => CopyingState(w, again)
    case Some(CopyOut) => ReceivingState(w)
    case _ => false
  }

  predicate Begun(w: World) {
    && (w.task.state != QuerySent && !w.task.done ==>
          w.server.pos == 0 && w.server.phase == Waiting && w.task.result.None?)
    && (w.task.done <==> w.task.state == Done)
    && (w.task.done ==> w.server.pos == |w.server.script| && w.task.result.None?)
  }

  predicate Inv(w: World, again: seq<nat>) {
    && Scripted(w.handler.steps, w.server.script) && Progress(w, again) && Pending(w, At(again, w.server.pos))
    && Begun(w)
  }

  /** Whatever was copied how often. */
  ghost predicate Valid(w: World) {
    exists again :: Inv(w, again)
  }

  function Start(steps: seq<Step>, script: seq<Statement>): World {
    World(Task(Initial, 0, None, "", false, 0, -1), Server(script, 0, Waiting, seq(|script|, i => []), 0),
          Handler(steps, None))
  }

  function NoneAgain(script: seq<Statement>): (r: seq<nat>)
    ensures |r| == |script| && forall i :: 0 <= i < |r| ==> r[i] == 0
  {
    seq(|script|, i => 0)
  }

  lemma StartInv(steps: seq<Step>, script: seq<Statement>)
    requires Scripted(steps, script)
    ensures Inv(Start(steps, script), NoneAgain(script))
  {
  }

  // ---- one poll keeps it

  /** The parts of the world that never change. */
  predicate SameQuery(v: World, w: World) {
    v.server.script == w.server.script && v.handler.steps == w.handler.steps
  }

  /** The poll gets as far as asking for results. */
  predicate Reaches(w: World, p: Poll) {
    !w.task.done && w.task.state == QuerySent && p.consumes && !p.busy
  }

  predicate FlatNow(w: World) {
    w.server.pos < |w.handler.steps| && w.handler.steps[w.server.pos].dependency.Some?
      && w.handler.steps[w.server.pos].dependency.value.flat
  }

  /** The poll gets as far as ending the copy of a table: its last chunk is accepted. */
  predicate EndReached(w: World, p: Poll) {
    var f := Fetch(w);
    && Reaches(w, p) && !(p.fatal && w.task.result.None?) && f.task.result == Some(CopyIn) && Dependent(f).Ok?
    && p.put == Accepted
    && var d := Dependent(f).value;
      && !(d.flat && f.task.lastRowSent + 1 >= |d.rows|)
      && f.task.lastRowSent + 1 + ROWS_PER_CHUNK >= |d.rows|
  }

  /** The end of a copy fails, which the client takes for success. */
  predicate EndFails(w: World, p: Poll) {
    EndReached(w, p) && p.end == Failed
  }

  /** How often copies began anew, this poll included. */
  function Counted(w: World, p: Poll, again: seq<nat>): (r: seq<nat>)
    ensures |r| == |again|
  {
    if EndFails(w, p) && w.server.pos < |again| then again[w.server.pos := again[w.server.pos] + 1] else again
  }

  /** The server is waiting with the answer to the current statement. */
  predicate Ready(w: World, again: seq<nat>) {
    && Scripted(w.handler.steps, w.server.script) && Progress(w, again) && QuietState(w, At(again, w.server.pos))
    && w.task.state == QuerySent && !w.task.done && w.task.result.None?
  }

  /** The answer to the current statement is that it is done: the client moves on with the server. */
  lemma CommandKeeps(w: World, p: Poll, again: seq<nat>)
    requires Ready(w, again) && w.server.pos < |w.server.script|
    requires w.server.phase == Ended || w.server.script[w.server.pos].Plain?
    ensures Answer(Fetch(w), CommandOk, p).Ok?
    ensures Inv(Answer(Fetch(w), CommandOk, p).value, again) && SameQuery(Answer(Fetch(w), CommandOk, p).value, w)
    ensures !EndReached(w, p)
  {
    hide Times;
    hide Flatten;
    hide Cleaned;
    hide Chunks;
    hide Scripted;
    var s := w.server;
    var v := Answer(Fetch(w), CommandOk, p).value;
    PairedAt(w.handler.steps, s.script, s.pos);
    assert v.server == s.Next();
    assert Complete(w.handler.steps, s.loaded, s.pos, 1 + again[s.pos]);
    assert ResultSoFar(v);
  }

  /** The columns come last but one, the rows last. */
  lemma PairedAt(steps: seq<Step>, script: seq<Statement>, i: nat)
    requires Scripted(steps, script) && i < |script|
    ensures Paired(steps[i], script[i]) && |steps| == |script| >= 2
    ensures script[i].Plain? || script[i].CopyFrom? ==> i + 2 < |script|
    ensures script[i].Select? <==> i + 2 == |script|
    ensures script[i].CopyTo? <==> i + 1 == |script|
  {
  }

  lemma TuplesKeep(w: World, p: Poll, again: seq<nat>)
    requires Ready(w, again) && w.server.pos < |w.server.script| && w.server.script[w.server.pos].Select?
    ensures var columns := w.server.script[w.server.pos].columns;
      Answer(Fetch(w), TuplesOk(columns), p).Ok? && Inv(Answer(Fetch(w), TuplesOk(columns), p).value, again)
      && SameQuery(Answer(Fetch(w), TuplesOk(columns), p).value, w)
    ensures !EndReached(w, p)
  {
    hide Times;
    var s := w.server;
    var v := Answer(Fetch(w), TuplesOk(s.script[s.pos].columns), p).value;
    assert Paired(w.handler.steps[s.pos], s.script[s.pos]);
    assert s.pos + 2 == |s.script|;
    assert v.server == s.Next();
    assert Complete(w.handler.steps, s.loaded, s.pos, 1 + again[s.pos]);
  }

  /** The announcement of a copy, the first one or another one after a failed end, leaves the client ready to copy. */
  lemma CopyAnnounced(w: World, again: seq<nat>)
    requires Ready(w, again) && w.server.pos < |w.server.script| && w.server.phase != Ended
    ensures w.server.script[w.server.pos].CopyFrom? ==>
      Inv(Fetch(w), again) && Fetch(w).task.result == Some(CopyIn) && !EndPending(Fetch(w))
    ensures w.server.script[w.server.pos].CopyTo? ==> Inv(Fetch(w), again) && Fetch(w).task.result == Some(CopyOut)
  {
    hide ResultSoFar;
    var s, v := w.server, Fetch(w);
    assert Paired(w.handler.steps[s.pos], s.script[s.pos]);
    if s.script[s.pos].CopyFrom? {
      var rows := w.handler.steps[s.pos].dependency.value.rows;
      var before := Times(Whole(rows), again[s.pos]);
      assert before + Chunks(rows, 0) == before;
      assert s.loaded[s.pos] == before;
      assert ChunksSoFar(rows, s.loaded[s.pos], -1, again[s.pos]);
      assert CopyingState(v, again[s.pos]);
      ResultStays(w, v);
    }
    if s.script[s.pos].CopyTo? {
      assert s.pos + 1 == |s.script|;
      assert Rows(w)[..0] == [];
      assert ReceivingState(v);
      ResultStays(w, v);
    }
  }

  lemma ResultStays(w: World, v: World)
    requires ResultSoFar(w) && v.handler == w.handler && v.server.script == w.server.script
    requires v.server.pos == w.server.pos
    requires v.server.phase == Ended <==> w.server.phase == Ended
    ensures ResultSoFar(v)
  {
  }

  // ---- copying in

  /** The client is in the middle of a COPY IN. */
  predicate Sending(w: World, again: seq<nat>) {
    Inv(w, again) && w.task.state == QuerySent && !w.task.done && w.task.result == Some(CopyIn)
  }

  function Source(w: World, again: seq<nat>): Dependency
    requires Sending(w, again)
  {
    w.handler.steps[w.server.pos].dependency.value
  }

  /** The table being filled is the one of the current step, and it has rows. */
  lemma RightTable(w: World, again: seq<nat>)
    requires Sending(w, again)
    ensures Dependent(w) == Ok(Source(w, again)) && Pushable(Source(w, again))
    ensures w.server.script[w.server.pos].CopyFrom?
    ensures w.handler.steps[w.task.queryNo].action == PushDependency
    ensures 0 <= w.task.lastRowSent + 1 <= |Source(w, again).rows| && w.server.pos < |again|
    ensures w.server.phase == Copying
  {
    assert Paired(w.handler.steps[w.server.pos], w.server.script[w.server.pos]);
  }

  /** What the server and the task are after an accepted chunk. */
  function Sent(w: World, again: seq<nat>): World
    requires Sending(w, again)
  {
    var rows := Source(w, again).rows;
    var start := if w.task.lastRowSent < -1 then 0 else w.task.lastRowSent + 1;
    var n := RowsRead(|rows|, start);
    w.(server := w.server.Accept(Flatten(Between(rows, start, n))),
       task := w.task.(lastRowSent := w.task.lastRowSent + n))
  }

  lemma NextChunk(rows: seq<string>, k: nat)
    ensures var n := RowsRead(|rows|, SentBy(rows, k));
      && SentBy(rows, k) + n == SentBy(rows, k + 1)
      && Flatten(Between(rows, SentBy(rows, k), n)) == Chunk(rows, k)
  {
  }

  lemma OneMoreChunk(rows: seq<string>, loaded: seq<string>, lastRowSent: int, again: nat)
    requires ChunksSoFar(rows, loaded, lastRowSent, again) && lastRowSent + 1 < |rows|
    requires forall i :: 0 <= i < |rows| ==> rows[i] != ""
    ensures var n := RowsRead(|rows|, lastRowSent + 1);
      var chunk := Flatten(Between(rows, lastRowSent + 1, n));
      chunk != "" && ChunksSoFar(rows, loaded + [chunk], lastRowSent + n, again)
  {
    hide Flatten;
    hide Chunk;
    hide SentBy;
    hide ChunkCount;
    hide Times;
    var before := Times(Whole(rows), again);
    var k := |loaded| - |before|;
    LastChunk(rows, k);
    NextChunk(rows, k);
    ChunkNotEmpty(rows, k);
    LastChunk(rows, k + 1);
    Assoc(before, Chunks(rows, k), [Chunk(rows, k)]);
    assert Chunks(rows, k + 1) == Chunks(rows, k) + [Chunk(rows, k)];
  }

  /** An accepted chunk is the next one; when all rows are sent already it is empty and changes nothing. */
  lemma SentKeeps(w: World, again: seq<nat>)
    requires Sending(w, again)
    ensures Sending(Sent(w, again), again) && SameQuery(Sent(w, again), w) && (EndPending(w) ==> Sent(w, again) == w)
    ensures EndPending(Sent(w, again)) <==> w.task.lastRowSent + 1 + ROWS_PER_CHUNK >= |Source(w, again).rows|
  {
    hide Flatten;
    hide ChunksSoFar;
    hide ResultSoFar;
    hide Complete;
    RightTable(w, again);
    var s, v := w.server, Sent(w, again);
    var rows := Source(w, again).rows;
    if w.task.lastRowSent + 1 == |rows| {
      AllSent(rows);
      assert v == w;
    } else {
      OneMoreChunk(rows, s.loaded[s.pos], w.task.lastRowSent, again[s.pos]);
      assert CopyingState(v, again[s.pos]);
      forall i | 0 <= i < s.pos ensures Complete(v.handler.steps, v.server.loaded, i, 1 + again[i]) {
        SameLoaded(w.handler.steps, s.loaded, v.server.loaded, i, 1 + again[i]);
      }
      ResultStays(w, v);
    }
  }

  lemma AllSent(rows: seq<string>)
    ensures RowsRead(|rows|, |rows|) == 0 && Flatten(Between(rows, |rows|, 0)) == ""
  {
    assert rows[|rows|..|rows| + 0] == [];
  }

  lemma SameLoaded(steps: seq<Step>, loaded: seq<seq<string>>, other: seq<seq<string>>, i: nat, times: nat)
    requires Complete(steps, loaded, i, times) && |other| == |loaded| && other[i] == loaded[i]
    ensures Complete(steps, other, i, times)
  {
  }

  /** Once all chunks are accepted, the table has been accepted one more time. */
  lemma WholeAgain(rows: seq<string>, loaded: seq<string>, again: nat)
    requires ChunksSoFar(rows, loaded, |rows| - 1, again)
    ensures loaded == Times(Whole(rows), 1 + again)
  {
    LastChunk(rows, |loaded| - |Times(Whole(rows), again)|);
  }

  /** Once the server has accepted the end, the table is complete; if the end fails, the table has been accepted just
      as completely, but the copy stays open and begins anew. */
  lemma EndKeeps(w: World, p: Poll, again: seq<nat>)
    requires Sending(w, again) && EndPending(w)
    ensures EndIn(w, p).Ok? && SameQuery(EndIn(w, p).value, w)
    ensures Inv(EndIn(w, p).value, if p.end == Failed then again[w.server.pos := again[w.server.pos] + 1] else again)
    ensures EndPending(EndIn(w, p).value) <==> p.end == WouldBlock
  {
    hide Flatten;
    hide ChunksSoFar;
    hide Times;
    hide ResultSoFar;
    RightTable(w, again);
    var s, rows, v := w.server, Source(w, again).rows, EndIn(w, p).value;
    WholeAgain(rows, s.loaded[s.pos], again[s.pos]);
    assert w.handler.steps[s.pos].sql.CopyFromStdin? by { assert Paired(w.handler.steps[s.pos], s.script[s.pos]); }
    assert Complete(w.handler.steps, s.loaded, s.pos, 1 + again[s.pos]);
    CopyFromShows(w, v);
  }

  /** While tables are copied in there is no result yet. */
  lemma CopyFromShows(w: World, v: World)
    requires Scripted(w.handler.steps, w.server.script) && w.server.pos < |w.server.script|
    requires w.server.script[w.server.pos].CopyFrom?
    requires ResultSoFar(w) && v.handler == w.handler && v.server.script == w.server.script
    requires v.server.pos == w.server.pos
    ensures ResultSoFar(v)
  {
  }

  /** One poll of a COPY IN. It trips over the index of a flat table exactly when all rows are sent and only the end
      is pending; the end is pending afterwards exactly when it was reached and refused, or not reached and pending. */
  lemma CopyInKeeps(w: World, p: Poll, again: seq<nat>)
    requires Sending(w, again) && Reaches(w, p)
    ensures CopyingIn(w, p) == Err(RowOutOfRange) <==> EndPending(w) && FlatNow(w)
    ensures CopyingIn(w, p).Err? && CopyingIn(w, p) != Err(RowOutOfRange) ==>
      CopyingIn(w, p) == Err(CopyFailed) && p.put == Failed
    ensures CopyingIn(w, p).Ok? ==>
      && Inv(CopyingIn(w, p).value, Counted(w, p, again)) && SameQuery(CopyingIn(w, p).value, w)
      && (EndPending(CopyingIn(w, p).value) <==> if EndReached(w, p) then p.end == WouldBlock else EndPending(w))
  {
    hide Inv;
    RightTable(w, again);
    SentKeeps(w, again);
    var trips := w.task.lastRowSent + 1 >= |Source(w, again).rows| && Source(w, again).flat;
    Chunked(w, p, again);
    if !trips && p.put == Accepted && EndPending(Sent(w, again)) {
      EndKeeps(Sent(w, again), p, again);
    }
  }

  /** What one poll of a COPY IN does, case by case. */
  lemma Chunked(w: World, p: Poll, again: seq<nat>)
    requires Sending(w, again) && Reaches(w, p)
    ensures var trips := EndPending(w) && FlatNow(w);
      && CopyingIn(w, p) == (if trips then Err(RowOutOfRange)
                             else match p.put
                               case WouldBlock => Ok(w)
                               case Failed => Err(CopyFailed)
                               case Accepted =>
                                 if EndPending(Sent(w, again)) then EndIn(Sent(w, again), p) else Ok(Sent(w, again)))
      && (EndReached(w, p) <==> !trips && p.put == Accepted && EndPending(Sent(w, again)))
  {
    hide Inv;
    RightTable(w, again);
    SentKeeps(w, again);
    RightTable(Sent(w, again), again);
    assert CopyingIn(w, p) == ChunkIn(w, Source(w, again), p);
  }

  // ---- copying out

  predicate Receiving(w: World, again: seq<nat>) {
    Inv(w, again) && w.task.state == QuerySent && !w.task.done && w.task.result == Some(CopyOut)
  }

  lemma ArrivingSplit(rows: seq<string>, sent: nat, n: nat)
    requires sent + n <= |rows|
    ensures Flatten(rows[..sent + n]) == Flatten(rows[..sent]) + Flatten(Between(rows, sent, n))
  {
    assert rows[..sent + n] == rows[..sent] + rows[sent..sent + n];
    FlattenSplit(rows[..sent], rows[sent..sent + n]);
  }

  /** The world after `n` more rows have been received. */
  function Got(w: World, n: nat): World {
    var more := Flatten(Between(w.server.Outgoing(), w.server.sent, n));
    w.(server := w.server.(sent := w.server.sent + n),
       task := w.task.(data := w.task.data + more, rowsReceived := w.task.rowsReceived + n))
  }

  lemma GotKeeps(w: World, n: nat, again: seq<nat>)
    requires Receiving(w, again) && w.server.sent + n <= |Rows(w)|
    ensures Receiving(Got(w, n), again) && SameQuery(Got(w, n), w) && w.server.Outgoing() == Rows(w)
  {
    hide Flatten;
    hide Complete;
    ArrivingSplit(Rows(w), w.server.sent, n);
    assert ReceivingState(Got(w, n));
  }

  /** The result table exists when the rows are handed over, and then holds all of them. */
  lemma HandOverKeeps(w: World, again: seq<nat>)
    requires Receiving(w, again) && w.server.sent == |Rows(w)|
    ensures var e := w.(server := w.server.End());
      HandOver(e).Ok? && Inv(HandOver(e).value, again) && SameQuery(HandOver(e).value, w)
  {
    hide Times;
    hide Flatten;
    var e := w.(server := w.server.End());
    assert Rows(w)[..w.server.sent] == Rows(w);
    assert Paired(w.handler.steps[w.server.pos], w.server.script[w.server.pos]);
    assert "" + Flatten(Rows(w)) == Flatten(Rows(w));
    assert ResultSoFar(HandOver(e).value);
    assert Complete(w.handler.steps, w.server.loaded, w.server.pos, 1 + again[w.server.pos]);
  }

  lemma CopyOutKeeps(w: World, p: Poll, again: seq<nat>)
    requires Receiving(w, again)
    ensures CopyingOut(w, p).Ok? ==> !EndPending(CopyingOut(w, p).value)
    ensures CopyingOut(w, p).Err? ==> CopyingOut(w, p) == Err(CopyFailed) && p.broken
    ensures CopyingOut(w, p).Ok? ==> Inv(CopyingOut(w, p).value, again) && SameQuery(CopyingOut(w, p).value, w)
  {
    hide Flatten;
    hide Complete;
    hide ResultSoFar;
    var n := w.server.Arriving(p.available);
    GotKeeps(w, n, again);
    if !p.broken && Got(w, n).server.sent == |Rows(w)| {
      HandOverKeeps(Got(w, n), again);
    }
  }

  // ---- every poll

  /** The failures that come from outside: the connection, the query, or the server. */
  predicate FromOutside(f: Fault) {
    f == ConnectFailed || f == SendFailed || f == ConsumeFailed || f == QueryFailed || f == CopyFailed
  }

  lemma AnswerKeeps(w: World, p: Poll, again: seq<nat>)
    requires Ready(w, again) && w.server.pos < |w.server.script| && w.server.phase != Ended
    requires Reaches(w, p) && !p.fatal
    ensures var f := Fetch(w);
      && f.task.result.Some?
      && (var r := Answer(f, f.task.result.value, p);
        && r != Err(RowOutOfRange)
        && (r.Err? ==> r == Err(CopyFailed))
        && (r.Ok? ==> Inv(r.value, Counted(w, p, again)) && SameQuery(r.value, w)
                      && (EndPending(r.value) <==> EndReached(w, p) && p.end == WouldBlock)))
  {
    hide CopyingIn;
    hide CopyingOut;
    hide Flatten;
    hide Complete;
    hide ResultSoFar;
    hide CopyingState;
    hide ReceivingState;
    var s := w.server;
    match s.script[s.pos]
    case Plain => CommandKeeps(w, p, again);
    case Select(columns) => TuplesKeep(w, p, again);
    case CopyFrom =>
      CopyAnnounced(w, again);
      CopyInKeeps(Fetch(w), p, again);
      RightTable(Fetch(w), again);
    case CopyTo(_) =>
      CopyAnnounced(w, again);
      CopyOutKeeps(Fetch(w), p, again);
  }

  /** A poll that asks for the next result. */
  lemma FetchKeeps(w: World, p: Poll, again: seq<nat>)
    requires Ready(w, again) && Inv(w, again) && Reaches(w, p) && !p.fatal
    ensures Turn(w, p).Err? ==> Turn(w, p) == Err(CopyFailed)
    ensures Turn(w, p).Ok? ==>
      && Inv(Turn(w, p).value, Counted(w, p, again)) && SameQuery(Turn(w, p).value, w)
      && (EndPending(Turn(w, p).value) <==> EndReached(w, p) && p.end == WouldBlock)
  {
    hide Complete;
    hide ResultSoFar;
    if w.server.pos == |w.server.script| {
      ResultStays(w, Turn(w, p).value);
    } else if w.server.phase == Ended {
      hide Inv;
      CommandKeeps(w, p, again);
    } else {
      hide Inv;
      hide Answer;
      AnswerKeeps(w, p, again);
    }
  }

  lemma InvIsReady(w: World, again: seq<nat>)
    requires Inv(w, again) && w.task.state == QuerySent && !w.task.done
    ensures w.task.result.None? ==> Ready(w, again)
    ensures w.task.result.Some? ==> w.task.result == Some(CopyIn) || w.task.result == Some(CopyOut)
  {
  }

  /** Every poll keeps the invariant, whatever the connection answers; only a failed end of a copy counts up. The client
      never asks for a missing step or a missing table, never hands rows to a missing result, and asks for a row past
      the end exactly when a refused end of a flat table's copy is pending. */
  lemma TurnKeeps(w: World, p: Poll, again: seq<nat>)
    requires Inv(w, again)
    ensures Turn(w, p) == Err(RowOutOfRange) <==> Reaches(w, p) && EndPending(w) && FlatNow(w)
    ensures Turn(w, p).Err? ==> FromOutside(Turn(w, p).fault) || Turn(w, p) == Err(RowOutOfRange)
    ensures Turn(w, p).Ok? ==>
      && Inv(Turn(w, p).value, Counted(w, p, again)) && SameQuery(Turn(w, p).value, w)
      && (EndPending(Turn(w, p).value) <==> if EndReached(w, p) then p.end == WouldBlock else EndPending(w))
  {
    if Reaches(w, p) && !(p.fatal && w.task.result.None?) {
      hide Inv;
      hide CopyingIn;
      hide CopyingOut;
      InvIsReady(w, again);
      match w.task.result
      case Some(CopyIn) => CopyInKeeps(w, p, again);
      case Some(CopyOut) => CopyOutKeeps(w, p, again);
      case None => FetchKeeps(w, p, again);
    } else {
      hide Progress;
      hide Pending;
      hide Scripted;
      IdleKeeps(w, p, again);
    }
  }

  /** A poll that does not get as far as a result. */
  lemma IdleKeeps(w: World, p: Poll, again: seq<nat>)
    requires Inv(w, again) && (Reaches(w, p) ==> p.fatal && w.task.result.None?)
    ensures Turn(w, p).Err? ==> FromOutside(Turn(w, p).fault)
    ensures !EndReached(w, p) && !(Reaches(w, p) && EndPending(w))
    ensures Turn(w, p).Ok? ==>
      Inv(Turn(w, p).value, again) && SameQuery(Turn(w, p).value, w)
        && (EndPending(Turn(w, p).value) <==> EndPending(w))
  {
    hide Complete;
    hide Scripted;
    hide ResultSoFar;
    if Turn(w, p).Ok? {
      ResultStays(w, Turn(w, p).value);
    }
  }
}
