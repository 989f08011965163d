/** Whole runs of one query: lockstep, conservation both ways, what goes wrong, and termination. */
module CopyTheorems {
  import opened Sequences
  import opened Wrappers
  import opened CopyModel
  import opened CopyProtocol

  // ---- what happens in a run, read off the polls

  /** How often the copy of each statement began anew because its end failed. */
  function Again(w: World, polls: seq<Poll>): (again: seq<nat>)
    ensures |again| == |w.server.script|
  {
    if polls == [] then NoneAgain(w.server.script)
    else
      var n := |polls| - 1;
      match Run(w, polls[..n])
      case Err(_) => Again(w, polls[..n])
      case Ok(v) => Counted(v, polls[n], Again(w, polls[..n]))
  }

  /** The last poll that reached the end of a copy was refused. */
  predicate RefusedLast(w: World, polls: seq<Poll>) {
    polls != []
    && var n := |polls| - 1;
      Run(w, polls[..n]).Ok?
      && if EndReached(Run(w, polls[..n]).value, polls[n]) then polls[n].end == WouldBlock
        else RefusedLast(w, polls[..n])
  }

  /** Poll `k` asks for results while the end of a flat table's copy is still refused. */
  predicate Trips(w: World, polls: seq<Poll>, k: nat) {
    && k < |polls| && Run(w, polls[..k]).Ok?
    && var v := Run(w, polls[..k]).value;
      Reaches(v, polls[k]) && FlatNow(v) && RefusedLast(w, polls[..k])
  }

  /** Every reachable state satisfies the invariant, whatever the connection answers. */
  lemma {:induction false} RunKeeps(steps: seq<Step>, script: seq<Statement>, polls: seq<Poll>)
    requires Scripted(steps, script)
    ensures var w := Start(steps, script); Run(w, polls).Ok? ==>
      && Inv(Run(w, polls).value, Again(w, polls)) && SameQuery(Run(w, polls).value, w)
      && (EndPending(Run(w, polls).value) <==> RefusedLast(w, polls))
  {
    hide Inv;
    hide Turn;
    hide EndPending;
    hide EndReached;
    hide Counted;
    var w := Start(steps, script);
    if polls == [] {
      StartInv(steps, script);
      NothingPending(w);
    } else {
      var n := |polls| - 1;
      RunKeeps(steps, script, polls[..n]);
      if Run(w, polls[..n]).Ok? {
        TurnKeeps(Run(w, polls[..n]).value, polls[n], Again(w, polls[..n]));
      }
    }
  }

  lemma NothingPending(w: World)
    requires w.task.result.None?
    ensures !EndPending(w)
  {
  }

  /** A run fails from outside, or on a row past the end, and the latter if and only if some poll comes through to the
      results while the refused end of a flat table's copy is still pending. */
  lemma {:induction false} RunFails(steps: seq<Step>, script: seq<Statement>, polls: seq<Poll>)
    requires Scripted(steps, script)
    ensures var r := Run(Start(steps, script), polls);
      && (r.Err? ==> FromOutside(r.fault) || r == Err(RowOutOfRange))
      && (r == Err(RowOutOfRange) <==> exists k: nat :: Trips(Start(steps, script), polls, k))
  {
    hide Inv;
    hide Turn;
    hide EndPending;
    hide RefusedLast;
    hide Reaches;
    hide FlatNow;
    var w := Start(steps, script);
    if polls != [] {
      var n := |polls| - 1;
      RunFails(steps, script, polls[..n]);
      RunKeeps(steps, script, polls[..n]);
      forall k: nat | k < n ensures Trips(w, polls, k) <==> Trips(w, polls[..n], k) {
        assert polls[..n][..k] == polls[..k];
      }
      if Run(w, polls[..n]).Ok? {
        TurnKeeps(Run(w, polls[..n]).value, polls[n], Again(w, polls[..n]));
        assert Trips(w, polls, n) <==> Run(w, polls) == Err(RowOutOfRange);
        forall k: nat | k < n ensures !Trips(w, polls, k) {
          assert !Trips(w, polls[..n], k);
        }
      } else if Run(w, polls) == Err(RowOutOfRange) {
        var k: nat :| Trips(w, polls[..n], k);
        assert Trips(w, polls, k);
      } else {
        forall k: nat ensures !Trips(w, polls, k) {
          assert !Trips(w, polls[..n], k);
        }
      }
    }
  }

  // ---- lockstep

  /** The client's step number is the statement being answered; a table is copied only into its own statement, and rows
      are received only once their columns are known. */
  predicate InStep(v: World) {
    && v.task.queryNo == v.server.pos
    && (v.task.result == Some(CopyIn) ==>
          && v.server.pos < |v.handler.steps| == |v.server.script| && v.server.script[v.server.pos].CopyFrom?
          && v.handler.steps[v.task.queryNo].action == PushDependency
          && v.handler.steps[v.task.queryNo].sql.CopyFromStdin?)
    && (v.task.result == Some(CopyOut) ==>
          && v.server.pos < |v.handler.steps| == |v.server.script| && v.server.script[v.server.pos].CopyTo?
          && v.handler.steps[v.task.queryNo].action == GetResult && v.handler.resultTable.Some?)
  }

  lemma InvInStep(v: World, again: seq<nat>)
    requires Inv(v, again)
    ensures InStep(v)
  {
    hide Complete;
    hide ChunksSoFar;
  }

  lemma Lockstep(steps: seq<Step>, script: seq<Statement>, polls: seq<Poll>)
    requires Scripted(steps, script) && Run(Start(steps, script), polls).Ok?
    ensures InStep(Run(Start(steps, script), polls).value)
  {
    hide *;
    RunKeeps(steps, script, polls);
    InvInStep(Run(Start(steps, script), polls).value, Again(Start(steps, script), polls));
  }

  // ---- conservation

  /** The whole table of step `i` was accepted `times` times: its text that often in a row, each time in as few chunks
      of a hundred rows as possible. */
  predicate Pushed(v: World, i: nat, times: nat) {
    && i < |v.handler.steps| && i < |v.server.loaded| && v.handler.steps[i].dependency.Some?
    && var rows := v.handler.steps[i].dependency.value.rows;
      && |v.server.loaded[i]| == times * ((|rows| + ROWS_PER_CHUNK - 1) / ROWS_PER_CHUNK)
      && Flatten(v.server.loaded[i]) == Times(Flatten(rows), times)
  }

  lemma {:induction false} TimesFlat(x: seq<string>, n: nat)
    ensures Flatten(Times(x, n)) == Times(Flatten(x), n)
    ensures |Times(x, n)| == n * |x|
  {
    if n > 0 {
      TimesFlat(x, n - 1);
      FlattenSplit(Times(x, n - 1), x);
      assert n * |x| == (n - 1) * |x| + |x|;
    }
  }

  lemma WholeIsTable(rows: seq<string>)
    ensures Flatten(Whole(rows)) == Flatten(rows)
  {
    ChunksAreRows(rows, ChunkCount(rows));
    LastChunk(rows, ChunkCount(rows));
    assert rows[..|rows|] == rows;
  }

  lemma CompleteIsPushed(v: World, i: nat, times: nat)
    requires Complete(v.handler.steps, v.server.loaded, i, times) && v.handler.steps[i].sql.CopyFromStdin?
    ensures Pushed(v, i, times)
  {
    var rows := v.handler.steps[i].dependency.value.rows;
    WholeIsTable(rows);
    TimesFlat(Whole(rows), times);
  }

  /** What has been pushed: the tables of the statements already answered, and of the one being copied the rows the
      client counts as sent, behind as many whole tables as there were failed ends. */
  predicate PushedUpTo(v: World, steps: seq<Step>, again: seq<nat>) {
    && v.server.pos <= |steps| == |v.server.loaded| == |again|
    && (forall i :: 0 <= i < v.server.pos && steps[i].sql.CopyFromStdin? ==> Pushed(v, i, 1 + again[i]))
    && (v.task.result == Some(CopyIn) ==>
          && v.server.pos < |steps| && steps[v.server.pos].dependency.Some?
          && var rows := steps[v.server.pos].dependency.value.rows;
            && 0 <= v.task.lastRowSent + 1 <= |rows|
            && Flatten(v.server.loaded[v.server.pos])
               == Times(Flatten(rows), again[v.server.pos]) + Flatten(rows[..v.task.lastRowSent + 1]))
    && (v.task.result != Some(CopyIn) ==> v.task.lastRowSent == -1)
  }

  lemma InvPushed(v: World, i: nat, again: seq<nat>)
    requires Inv(v, again) && i < v.server.pos && v.handler.steps[i].sql.CopyFromStdin?
    ensures Pushed(v, i, 1 + again[i])
  {
    hide Pushed;
    hide Times;
    hide ResultSoFar;
    CompleteIsPushed(v, i, 1 + again[i]);
  }

  lemma InvCopying(v: World, again: seq<nat>)
    requires Inv(v, again) && v.task.result == Some(CopyIn)
    ensures v.server.pos < |v.handler.steps| && v.handler.steps[v.server.pos].dependency.Some?
    ensures v.server.pos < |v.server.loaded| == |again|
    ensures var rows := v.handler.steps[v.server.pos].dependency.value.rows;
      0 <= v.task.lastRowSent + 1 <= |rows|
      && Flatten(v.server.loaded[v.server.pos])
         == Times(Flatten(rows), again[v.server.pos]) + Flatten(rows[..v.task.lastRowSent + 1])
  {
    hide Flatten;
    hide Times;
    hide Complete;
    hide ResultSoFar;
    var rows, n := v.handler.steps[v.server.pos].dependency.value.rows, again[v.server.pos];
    var before := Times(Whole(rows), n);
    var k := |v.server.loaded[v.server.pos]| - |before|;
    ChunksAreRows(rows, k);
    FlattenSplit(before, Chunks(rows, k));
    TimesFlat(Whole(rows), n);
    WholeIsTable(rows);
  }

  lemma InvBounds(v: World, again: seq<nat>)
    requires Inv(v, again)
    ensures v.server.pos <= |v.handler.steps| == |v.server.loaded| == |again|
    ensures v.task.result != Some(CopyIn) ==> v.task.lastRowSent == -1
  {
    hide Complete;
    hide ResultSoFar;
  }

  lemma InvPushedUpTo(v: World, again: seq<nat>)
    requires Inv(v, again)
    ensures PushedUpTo(v, v.handler.steps, again)
  {
    hide Inv;
    hide Pushed;
    hide Flatten;
    hide Times;
    InvBounds(v, again);
    forall i: nat | i < v.server.pos && v.handler.steps[i].sql.CopyFromStdin? ensures Pushed(v, i, 1 + again[i]) {
      InvPushed(v, i, again);
    }
    if v.task.result == Some(CopyIn) {
      InvCopying(v, again);
    }
  }

  /** At every point of every run. */
  lemma PushedSoFar(steps: seq<Step>, script: seq<Statement>, polls: seq<Poll>)
    requires Scripted(steps, script) && Run(Start(steps, script), polls).Ok?
    ensures PushedUpTo(Run(Start(steps, script), polls).value, steps, Again(Start(steps, script), polls))
  {
    hide Run;
    hide Inv;
    hide PushedUpTo;
    hide Again;
    RunKeeps(steps, script, polls);
    InvPushedUpTo(Run(Start(steps, script), polls).value, Again(Start(steps, script), polls));
  }

  /** A text that is not empty is there once in `n` copies of it only if `n` is 1. */
  lemma OnceOnly<T>(x: seq<T>, n: nat)
    requires x != [] && n > 0
    ensures Times(x, n) == x <==> n == 1
  {
    if n > 1 {
      assert |Times(x, n)| == |Times(x, n - 2)| + |x| + |x|;
    } else {
      assert Times(x, 0) + x == x;
    }
  }

  lemma TableNotEmpty(d: Dependency)
    requires Pushable(d)
    ensures Flatten(d.rows) != ""
  {
    assert d.rows[|d.rows| - 1] != "";
  }

  /** When the task is done, every table was pushed once more than the end of its copy failed; so it was pushed exactly
      once if and only if no end of its copy failed. The result table has the columns and all rows of the answer. */
  lemma Conservation(steps: seq<Step>, script: seq<Statement>, polls: seq<Poll>)
    requires Scripted(steps, script)
    requires Run(Start(steps, script), polls).Ok? && Run(Start(steps, script), polls).value.task.done
    ensures |script| >= 2 && script[|script| - 2].Select? && script[|script| - 1].CopyTo?
    ensures var v, again := Run(Start(steps, script), polls).value, Again(Start(steps, script), polls);
      && |v.server.loaded| == |steps| == |again|
      && (forall i :: 0 <= i < |steps| && steps[i].sql.CopyFromStdin? ==> Pushed(v, i, 1 + again[i]))
      && (forall i :: 0 <= i < |steps| && steps[i].sql.CopyFromStdin? ==>
            steps[i].dependency.Some?
            && (Flatten(v.server.loaded[i]) == Flatten(steps[i].dependency.value.rows) <==> again[i] == 0))
      && v.handler.resultTable
        == Some(ResultTable(Cleaned(script[|script| - 2].columns), Flatten(script[|script| - 1].rows)))
  {
    hide Run;
    hide Inv;
    hide Flatten;
    hide Times;
    hide Again;
    var v, again := Run(Start(steps, script), polls).value, Again(Start(steps, script), polls);
    PushedSoFar(steps, script, polls);
    RunKeeps(steps, script, polls);
    DoneResult(v, again);
    forall i | 0 <= i < |steps| && steps[i].sql.CopyFromStdin?
      ensures steps[i].dependency.Some?
      ensures Flatten(v.server.loaded[i]) == Flatten(steps[i].dependency.value.rows) <==> again[i] == 0
    {
      assert Paired(steps[i], script[i]);
      TableNotEmpty(steps[i].dependency.value);
      OnceOnly(Flatten(steps[i].dependency.value.rows), 1 + again[i]);
      assert Pushed(v, i, 1 + again[i]);
    }
  }

  lemma DoneResult(v: World, again: seq<nat>)
    requires Inv(v, again) && v.task.done
    ensures v.server.pos == |v.server.script|
    ensures v.handler.resultTable == Some(ResultTable(Columns(v), Flatten(Rows(v))))
  {
    hide Complete;
  }

  /** The task counts the rows of the result as they come; once the copy has ended, all of them. */
  predicate RowsCounted(w: World) {
    var n, s := |w.server.script|, w.server;
    && (s.pos + 1 < n ==> w.task.rowsReceived == 0)
    && (s.pos + 1 == n ==> w.task.rowsReceived == s.sent && (s.phase == Ended ==> s.sent == |Rows(w)|))
    && (s.pos == n ==> w.task.rowsReceived == |Rows(w)|)
  }

  lemma TurnCountsRows(w: World, p: Poll, again: seq<nat>)
    requires Inv(w, again) && RowsCounted(w) && Turn(w, p).Ok?
    ensures RowsCounted(Turn(w, p).value)
  {
    hide Flatten;
    hide Complete;
    hide ResultSoFar;
    hide ChunksSoFar;
    hide Cleaned;
    hide Between;
    if Reaches(w, p) && w.server.pos < |w.server.script| {
      PairedAt(w.handler.steps, w.server.script, w.server.pos);
    }
  }

  lemma {:induction false} RunCountsRows(steps: seq<Step>, script: seq<Statement>, polls: seq<Poll>)
    requires Scripted(steps, script) && Run(Start(steps, script), polls).Ok?
    ensures RowsCounted(Run(Start(steps, script), polls).value)
  {
    if polls != [] {
      hide Turn;
      hide Inv;
      hide RowsCounted;
      hide Start;
      var n, w := |polls| - 1, Start(steps, script);
      RunCountsRows(steps, script, polls[..n]);
      RunKeeps(steps, script, polls[..n]);
      TurnCountsRows(Run(w, polls[..n]).value, polls[n], Again(w, polls[..n]));
    }
  }

  // ---- what goes wrong

  /** A refused end of a flat table's copy: nothing happens until a poll gets through to the results, and that poll
      fails on the table's index. */
  lemma RefusedEndTrips(w: World, p: Poll, q: Poll, again: seq<nat>)
    requires Inv(w, again) && EndReached(w, p) && p.end == WouldBlock && FlatNow(w) && Turn(w, p).Ok?
    ensures Turn(Turn(w, p).value, q) == Err(RowOutOfRange) <==> q.consumes && !q.busy
  {
    hide Inv;
    hide EndReached;
    TurnKeeps(w, p, again);
    var v := Turn(w, p).value;
    StaysOpen(w, p, again);
    TurnKeeps(v, q, Counted(w, p, again));
  }

  lemma StaysOpen(w: World, p: Poll, again: seq<nat>)
    requires Inv(w, again) && EndReached(w, p) && p.end != Accepted && Turn(w, p).Ok?
    ensures var v := Turn(w, p).value;
      v.server.pos == w.server.pos && v.handler == w.handler && v.task.state == QuerySent && !v.task.done
        && Fetch(w).task.result == Some(CopyIn)
    ensures p.end == Failed ==> Turn(w, p).value.task.result.None? && Turn(w, p).value.server.phase == Copying
    ensures w.server.pos < |again| && w.handler.steps[w.server.pos].dependency.Some?
    ensures w.server.pos < |w.handler.steps| && w.handler.steps[w.server.pos].sql.CopyFromStdin?
  {
    hide Complete;
    hide ResultSoFar;
    hide Flatten;
    if w.task.result.None? {
      InvIsReady(w, again);
      CopyAnnounced(w, again);
    }
    RightTable(Fetch(w), again);
    PairedAt(w.handler.steps, w.server.script, w.server.pos);
  }

  /** One poll leaves every table pushed as often as before and expected, exactly if it is no failed end of a copy. */
  lemma FailedEndRepeats(w: World, p: Poll, again: seq<nat>)
    requires Inv(w, again) && Turn(w, p).Ok?
    ensures Inv(Turn(w, p).value, again) <==> !EndFails(w, p)
  {
    hide Inv;
    hide EndReached;
    hide Turn;
    TurnKeeps(w, p, again);
    if EndFails(w, p) {
      StaysOpen(w, p, again);
      NotBoth(Turn(w, p).value, Counted(w, p, again), again);
    }
  }

  lemma NotBoth(v: World, again: seq<nat>, other: seq<nat>)
    requires Inv(v, again) && v.server.pos < |again| && v.server.pos < |other|
    requires again[v.server.pos] == other[v.server.pos] + 1
    requires v.task.result.None? && v.server.phase == Copying
    ensures !Inv(v, other)
  {
    hide ResultSoFar;
    hide Chunks;
    hide Whole;
    PairedAt(v.handler.steps, v.server.script, v.server.pos);
    var rows := v.handler.steps[v.server.pos].dependency.value.rows;
    assert |Times(Whole(rows), again[v.server.pos])| == |Times(Whole(rows), other[v.server.pos])| + |Whole(rows)|;
  }

  /** Why a poll of a task that is not done fails: the connection, in the order in which it is used; a chunk that the
      server does not take; data that do not come; or the row past the end. */
  lemma TurnFails(w: World, p: Poll, again: seq<nat>)
    requires Inv(w, again) && !w.task.done
    ensures Turn(w, p) == Err(ConnectFailed) <==> w.task.state == Initial && !p.connects
    ensures Turn(w, p) == Err(SendFailed) <==> w.task.state == Connected && !p.sends
    ensures Turn(w, p) == Err(ConsumeFailed) <==> w.task.state == QuerySent && !p.consumes
    ensures Turn(w, p) == Err(QueryFailed) <==> Reaches(w, p) && p.fatal && w.task.result.None?
    ensures Turn(w, p) == Err(CopyFailed) <==>
      Reaches(w, p) && !(p.fatal && w.task.result.None?) &&
        var reply := Fetch(w).task.result;
        (reply == Some(CopyIn) && p.put == Failed && !(EndPending(w) && FlatNow(w))) || (reply == Some(CopyOut)
          && p.broken)
  {
    hide Inv;
    hide CopyingIn;
    hide CopyingOut;
    hide EndPending;
    if Reaches(w, p) && !(p.fatal && w.task.result.None?) {
      InvIsReady(w, again);
      match w.task.result
      case Some(CopyIn) => CopyInFails(w, p, again);
      case Some(CopyOut) => CopyOutFails(w, p, again);
      case None => FetchFails(w, p, again);
    }
  }

  lemma FetchFails(w: World, p: Poll, again: seq<nat>)
    requires Ready(w, again) && Reaches(w, p) && !p.fatal
    ensures !EndPending(w)
    ensures Turn(w, p).Err? ==> Turn(w, p) == Err(CopyFailed)
    ensures Turn(w, p) == Err(CopyFailed) <==>
      var reply := Fetch(w).task.result;
      (reply == Some(CopyIn) && p.put == Failed) || (reply == Some(CopyOut) && p.broken)
  {
    hide CopyingIn;
    hide CopyingOut;
    hide Complete;
    hide ResultSoFar;
    var s := w.server;
    if s.pos < |s.script| && s.phase != Ended {
      PairedAt(w.handler.steps, s.script, s.pos);
      CopyAnnounced(w, again);
      if s.script[s.pos].CopyFrom? {
        CopyInFails(Fetch(w), p, again);
      }
      if s.script[s.pos].CopyTo? {
        CopyOutFails(Fetch(w), p, again);
      }
    }
  }

  lemma CopyInFails(w: World, p: Poll, again: seq<nat>)
    requires Sending(w, again) && Reaches(w, p)
    ensures CopyingIn(w, p).Err? ==> CopyingIn(w, p) == Err(CopyFailed) || CopyingIn(w, p) == Err(RowOutOfRange)
    ensures CopyingIn(w, p) == Err(RowOutOfRange) <==> EndPending(w) && FlatNow(w)
    ensures CopyingIn(w, p) == Err(CopyFailed) <==> p.put == Failed && !(EndPending(w) && FlatNow(w))
  {
    hide Inv;
    hide EndPending;
    hide CopyingIn;
    Chunked(w, p, again);
    SentKeeps(w, again);
    if EndPending(Sent(w, again)) {
      EndKeeps(Sent(w, again), p, again);
    }
  }

  lemma CopyOutFails(w: World, p: Poll, again: seq<nat>)
    requires Receiving(w, again)
    ensures CopyingOut(w, p).Err? ==> CopyingOut(w, p) == Err(CopyFailed)
    ensures CopyingOut(w, p) == Err(CopyFailed) <==> p.broken
  {
    hide Inv;
    hide Flatten;
    CopyOutKeeps(w, p, again);
  }

  /** A COPY IN for a table without rows, which is never injected: nothing but its end is sent, and only there a failed
      end is an error. */
  lemma EmptyTable(w: World, p: Poll)
    requires Dependent(w).Ok? && Dependent(w).value.rows == []
    ensures CopyingIn(w, p).Err? <==> p.end == Failed
    ensures p.end == Failed ==> CopyingIn(w, p) == Err(CopyFailed)
    ensures p.end != Failed ==>
      && CopyingIn(w, p).value.task == w.task.(result := None) && CopyingIn(w, p).value.handler == w.handler
      && CopyingIn(w, p).value.server == w.server.(phase := if p.end == Accepted then Ended else w.server.phase)
  {
  }

  // ---- termination

  function StatementWork(step: Step, statement: Statement): nat {
    match statement
    case CopyFrom => if step.dependency.Some? then ChunkCount(step.dependency.value.rows) + 1 else 1
    case CopyTo(rows) => AtLeastOne(|rows|) + 1
    case _ => 1
  }

  /** The chunks that so many rows make. */
  function ChunksLeft(rows: int): int {
    (rows + ROWS_PER_CHUNK - 1) / ROWS_PER_CHUNK
  }

  function AtLeastOne(n: int): nat {
    if n < 1 then 1 else n
  }

  function Rest(steps: seq<Step>, script: seq<Statement>, from: nat): nat
    decreases |script| - from
  {
    if from >= |script| || from >= |steps| then 0
    else StatementWork(steps[from], script[from]) + Rest(steps, script, from + 1)
  }

  /** The successful polls still needed for the statement being answered. */
  function Current(steps: seq<Step>, s: Server, lastRowSent: int): nat {
    if s.pos >= |s.script| || s.pos >= |steps| then 0
    else if s.phase == Ended then 1
    else match s.script[s.pos]
      case CopyFrom =>
        if steps[s.pos].dependency.None? then 1
        else AtLeastOne(ChunksLeft(|steps[s.pos].dependency.value.rows| - (lastRowSent + 1))) + 1
      case CopyTo(rows) => AtLeastOne(|rows| - s.sent) + 1
      case _ => 1
  }

  function ToSend(state: TaskState): nat {
    match state
    case Initial => 3
    case Connected => 2
    case QuerySending => 1
    case _ => 0
  }

  /** The successful polls still needed. */
  function Work(w: World): nat {
    if w.task.done then 0
    else ToSend(w.task.state) + Current(w.handler.steps, w.server, w.task.lastRowSent)
         + Rest(w.handler.steps, w.server.script, w.server.pos + 1) + 1
  }

  /** Whatever state the task is in, this poll gets on. */
  predicate Helpful(p: Poll) {
    && p.connects && p.sends && p.flushes && p.consumes && !p.busy && !p.fatal && p.put == Accepted && p.end == Accepted
    && p.available > 0 && p.ended && !p.broken
  }

  /** The work that a failed end makes: all chunks of the table again. */
  function Redo(w: World, p: Poll): nat {
    if EndFails(w, p) && Dependent(Fetch(w)).Ok? then ChunkCount(Dependent(Fetch(w)).value.rows) else 0
  }

  /** What is left to send of the table, and then its end and the answer to the statement. */
  lemma SendingWork(w: World, again: seq<nat>)
    requires Sending(w, again)
    ensures Work(w) == AtLeastOne(ChunksLeft(|Source(w, again).rows| - (w.task.lastRowSent + 1))) + 1
                       + Rest(w.handler.steps, w.server.script, w.server.pos + 1) + 1
  {
    RightTable(w, again);
  }

  lemma SentWork(w: World, again: seq<nat>)
    requires Sending(w, again) && Sending(Sent(w, again), again)
    ensures Work(Sent(w, again)) <= Work(w)
    ensures !EndPending(Sent(w, again)) ==> Work(Sent(w, again)) < Work(w)
  {
    hide Inv;
    hide Work;
    hide Rest;
    hide Flatten;
    SentKeeps(w, again);
    SendingWork(w, again);
    SendingWork(Sent(w, again), again);
    RightTable(w, again);
    RightTable(Sent(w, again), again);
  }

  lemma EndWork(w: World, p: Poll, again: seq<nat>)
    requires Sending(w, again) && EndPending(w)
    ensures Work(EndIn(w, p).value) <= Work(w) + if p.end == Failed then ChunkCount(Source(w, again).rows) else 0
    ensures p.end == Accepted ==> Work(EndIn(w, p).value) < Work(w)
  {
    hide Rest;
    RightTable(w, again);
    SendingWork(w, again);
  }

  lemma CopyInWork(w: World, p: Poll, again: seq<nat>)
    requires Sending(w, again) && Reaches(w, p) && CopyingIn(w, p).Ok?
    ensures Work(CopyingIn(w, p).value) <= Work(w) + Redo(w, p)
    ensures Helpful(p) ==> Work(CopyingIn(w, p).value) < Work(w)
  {
    hide Flatten;
    hide Inv;
    hide EndReached;
    hide Work;
    hide CopyingIn;
    hide EndIn;
    RightTable(w, again);
    SentKeeps(w, again);
    Chunked(w, p, again);
    SentWork(w, again);
    if EndPending(Sent(w, again)) {
      RightTable(Sent(w, again), again);
      EndWork(Sent(w, again), p, again);
    }
  }

  lemma CopyOutWork(w: World, p: Poll, again: seq<nat>)
    requires Receiving(w, again) && CopyingOut(w, p).Ok?
    ensures Work(CopyingOut(w, p).value) <= Work(w)
    ensures Helpful(p) ==> Work(CopyingOut(w, p).value) < Work(w)
  {
    hide Flatten;
    hide Complete;
    hide Rest;
    hide ResultSoFar;
    hide ChunksSoFar;
    var n := w.server.Arriving(p.available);
    GotKeeps(w, n, again);
    assert w.server.script[w.server.pos] == CopyTo(Rows(w));
  }

  lemma FetchWork(w: World, again: seq<nat>)
    requires Ready(w, again) && w.server.pos < |w.server.script| && w.server.phase != Ended
    ensures (w.server.script[w.server.pos].CopyFrom? || w.server.script[w.server.pos].CopyTo?) ==>
      Work(Fetch(w)) == Work(w)
  {
    hide Complete;
    hide ResultSoFar;
    PairedAt(w.handler.steps, w.server.script, w.server.pos);
  }

  /** Going on to the next statement uses up what the current one still needed. */
  lemma NextWork(w: World, v: World, again: seq<nat>)
    requires Ready(w, again) && w.server.pos < |w.server.script| && Inv(v, again) && SameQuery(v, w)
    requires v.server == w.server.Next() && v.task.state == QuerySent && !v.task.done && v.task.lastRowSent == -1
    ensures Work(v) < Work(w)
  {
    hide Complete;
    hide ResultSoFar;
    var s := v.server;
    if s.pos < |s.script| {
      PairedAt(v.handler.steps, s.script, s.pos);
    }
  }

  lemma AnswerWork(w: World, p: Poll, again: seq<nat>)
    requires Ready(w, again) && Reaches(w, p) && !p.fatal && w.server.pos < |w.server.script|
    requires Answer(Fetch(w), Fetch(w).task.result.value, p).Ok?
    ensures Work(Answer(Fetch(w), Fetch(w).task.result.value, p).value) <= Work(w) + Redo(w, p)
    ensures Helpful(p) ==> Work(Answer(Fetch(w), Fetch(w).task.result.value, p).value) < Work(w)
  {
    hide CopyingIn;
    hide CopyingOut;
    hide Work;
    hide Complete;
    hide ResultSoFar;
    hide Redo;
    var s := w.server;
    if s.phase == Ended || s.script[s.pos].Plain? {
      CommandKeeps(w, p, again);
      NextWork(w, Answer(Fetch(w), CommandOk, p).value, again);
    } else if s.script[s.pos].Select? {
      TuplesKeep(w, p, again);
      NextWork(w, Answer(Fetch(w), TuplesOk(s.script[s.pos].columns), p).value, again);
    } else {
      FetchWork(w, again);
      CopyAnnounced(w, again);
      if s.script[s.pos].CopyFrom? {
        CopyInWork(Fetch(w), p, again);
        SameRedo(w, p);
      } else {
        CopyOutWork(Fetch(w), p, again);
      }
    }
  }

  lemma SameRedo(w: World, p: Poll)
    requires w.task.result.None? && Fetch(w).task.result == Some(CopyIn) && !p.fatal
    ensures Redo(Fetch(w), p) == Redo(w, p)
  {
  }

  /** Only a failed end adds to the work left, by the chunks of its table, and a helpful poll takes from it. */
  lemma TurnWork(w: World, p: Poll, again: seq<nat>)
    requires Inv(w, again) && Turn(w, p).Ok?
    ensures Work(Turn(w, p).value) <= Work(w) + Redo(w, p)
    ensures Helpful(p) && !w.task.done ==> Work(Turn(w, p).value) < Work(w)
  {
    hide CopyingIn;
    hide CopyingOut;
    hide Inv;
    hide Current;
    hide Rest;
    hide Redo;
    DoneState(w, again);
    if Reaches(w, p) && !(p.fatal && w.task.result.None?) {
      InvIsReady(w, again);
      match w.task.result
      case Some(CopyIn) => CopyInWork(w, p, again);
      case Some(CopyOut) => CopyOutWork(w, p, again);
      case None =>
        if w.server.pos < |w.server.script| {
          AnswerWork(w, p, again);
        } else {
        }
    }
  }

  lemma DoneState(w: World, again: seq<nat>)
    requires Inv(w, again)
    ensures w.task.done <==> w.task.state == Done
  {
  }

  function Helps(polls: seq<Poll>): nat {
    if polls == [] then 0 else Helps(polls[..|polls| - 1]) + if Helpful(polls[|polls| - 1]) then 1 else 0
  }

  /** The work made by all failed ends of a run. */
  function Redone(w: World, polls: seq<Poll>): nat {
    if polls == [] then 0
    else
      var n := |polls| - 1;
      Redone(w, polls[..n]) + if Run(w, polls[..n]).Ok? then Redo(Run(w, polls[..n]).value, polls[n]) else 0
  }

  lemma {:induction false} RunWork(steps: seq<Step>, script: seq<Statement>, polls: seq<Poll>)
    requires Scripted(steps, script) && Run(Start(steps, script), polls).Ok?
    ensures var w := Start(steps, script);
      Run(w, polls).value.task.done || Work(Run(w, polls).value) + Helps(polls) <= Work(w) + Redone(w, polls)
  {
    if polls != [] {
      hide Inv;
      hide Turn;
      hide Work;
      hide Redo;
      hide Helpful;
      hide Again;
      hide Start;
      var n, w := |polls| - 1, Start(steps, script);
      RunWork(steps, script, polls[..n]);
      RunKeeps(steps, script, polls[..n]);
      var v := Run(w, polls[..n]).value;
      TurnWork(v, polls[n], Again(w, polls[..n]));
      if v.task.done {
        DoneStays(v, polls[n]);
      }
    }
  }

  lemma DoneStays(v: World, p: Poll)
    requires v.task.done
    ensures Turn(v, p) == Ok(v)
  {
  }

  /** Termination: a run that goes on is done after as many helpful polls as there is work, the chunks that failed ends
      make it send again included, however many busy, blocked or partial polls come in between. A run without failed
      ends has nothing to do again. */
  lemma RunCompletes(steps: seq<Step>, script: seq<Statement>, polls: seq<Poll>)
    requires Scripted(steps, script) && Run(Start(steps, script), polls).Ok?
    ensures Helps(polls) >= Work(Start(steps, script)) + Redone(Start(steps, script), polls) ==>
      Run(Start(steps, script), polls).value.task.done
  {
    hide *;
    RunWork(steps, script, polls);
    if !Run(Start(steps, script), polls).value.task.done {
      WorkLeft(Run(Start(steps, script), polls).value);
    }
  }

  lemma WorkLeft(w: World)
    requires !w.task.done
    ensures Work(w) > 0
  {
  }
}
