# A verified model of db_agg

db_agg runs a graph of sub-queries: it schedules them, ships every result to the executions that depend on it,
re-shards rows on the way, caches results, and keeps each result in one flat text buffer with an index. This project
models these parts in Dafny and proves what they promise. `dafny verify dfyconfig.toml` checks all of it.

## How the project is laid out

| files | what they model |
|---|---|
| `Dataflow`, `ExecutionModel`, `Scheduler`, `SchedulerInvariant`, `SchedulerTheorems`, `SchedulerLaws`, `QueryExecution`, `QueryProcessor` | the scheduler: executions, ports, channels, the polling loop and the preloading cache |
| `CopyModel`, `CopyProtocol`, `CopyTheorems`, `PostgresExecution`, `InjectedRuns` | one query against PostgreSQL: the injected steps, COPY IN and COPY OUT, and the task that polls |
| `TableText`, `CsvTable`, `CellEscape`, `TableFile`, `Views` | the flat table, its index, escaping, files, and the views built on tables |
| `Bits`, `Md5Block`, `Md5`, `Md5Known`, `Sharding`, `Resharding` | streaming MD5 (RFC 1321), the shard strategies, and rows on their way through shards |
| `LrTables`, `ParserModel`, `ParserSoundness`, `ParserCompleteness`, `Parser`, `Rendering`, `RenderingExact`, `TemplateLaws`, `Template` | the table-driven template parser and the renderer |
| `ExecutionIds` | the text whose digest identifies an execution |
| `Wrappers`, `Sequences`, `Remainders`, `Runs` | what several of these share |

Code that works by changing state is modelled twice where its properties span many calls: once as functions on values,
about which the theorems are stated, and once as classes whose methods loop and assign as the original does and are
proved to do exactly what the functions say, faults included (`QueryProcessor.QueryProcessor.Step`,
`Parser.Parser.Turn`, `PostgresExecution.QueryTask.ProcessTask`).

## What is proved

- **Scheduler.** On every well-wired graph (acyclic, distinct in-port names, one channel per in-port), for every
  iteration order, every parallelism bound of at least one, every number of polls an execution may need and every
  truthful subset of results in the cache, no call throws, the run ends, and every out-port gets its value in the one
  topological evaluation of the graph. Exactly the executions with all results in the cache are DONE after loading, a step
  processes all it can unless as many are running as may be, and whoever is DONE holds no data. Leaf executions are a
  countdown of polls; a graph's `compute` is what they deliver.
- **COPY protocol.** The server is an environment that may be busy, refuse data, deliver any number of rows per poll or
  fail, also without the client noticing. In every run the client's step number is the statement being answered, every
  table is pushed in order and in ceil(rows/100) chunks, once more than the end of its copy failed and so exactly once if
  and only if it never failed; COPY OUT hands over all rows whatever the interruptions, and the run completes after
  as many successful polls as there is work, the work of repeated copies included. What is injected is spelled out step by
  step, and a finished query has loaded every dependency that has rows, in the order of the ports.
- **Tables.** The index that is extended by appends is the one a rebuild gives; cells and rows found through it are the
  cells and rows of the list the text stands for; escaping, saving and loading are undone by their inverses; every nesting
  of joined, split, extended and range views agrees with the list of rows it means.
- **MD5 and sharding.** Any split of a message into updates gives the digest of the padded whole, the unrolled rounds are
  the table form of RFC 1321 section 3.4, its operations are given bit by bit, and a digest of its test suite is proved;
  shard ids are in range; splitting by shard and joining again is a permutation.
- **Template parser and renderer.** The parser accepts exactly the token lists the grammar derives and builds exactly the
  derived trees in source order; of a rejected list the root holds a beginning that derives. Rendering with the context
  that never shrinks is lexically scoped expansion, for all variables, exactly for templates that use no placeholder
  after its loop; what loops, nested loops and fields write is given in terms of the variables alone.
- **Execution ids.** Dependencies are the ancestors, one entry per path, and the id text does not depend on the order in
  which channels were created or on what the sort does with equal keys, exactly if keys determine address and statement.
  Two executions with the same dependencies have the same text exactly if their addresses and statements are the same.

## Where the code does not do what one would expect

The model keeps the code as it is. Each item has a lemma that says exactly when it goes right.

- A `putCopyEnd` that would block after the last chunk of a flat table makes the next poll that gets through ask for a row
  past the end (`extensions/postgresql/AsyncQueryExecutor.cpp:283-287`, `src/lib/table/TableIndex.cpp:52`):
  `CopyProtocol.TurnKeeps`, `CopyTheorems.RefusedEndTrips`.
- A `putCopyEnd` that fails there is taken for success, and the table is sent again
  (`extensions/postgresql/AsyncQueryExecutor.cpp:283-288`): `CopyTheorems.FailedEndRepeats` for one poll, and
  `CopyTheorems.Conservation` for runs, which counts these polls per statement.
- `TableDataRange::getRows` repeats its first row (`src/lib/table/TableDataRange.cpp:35`): `Views.DeliveredExact`,
  `Views.OneRowIsRight`, `Views.MoreRowsGoWrong`.
- An appended block must end as the text before it ends, or the index is wrong: `CsvTable.IncrementalExact`.
- `update` of MD5 runs past its input for lengths just below 2^32, where its 32-bit loop guard wraps: `Md5.GuardEnds`.
- The mask of the MD5 strategy reaches every shard only for powers of two; `setShardCount` asks for even numbers only:
  `Sharding.AllShardsReachable`, `Sharding.ThirdOfSixUnused`.
- A negative key is out of range under the modulo strategy unless it is a multiple of the count:
  `Sharding.ModuloShardingStrategy.GetShardId`.
- With 65536 columns or more, the 16-bit column count of the index no longer matches and loading fails:
  `TableFile.SaveThenLoad`. A column of an unregistered type comes back as text: `TableFile.ColumnReadBack`.
- The loop that counts rows has a 32-bit counter and never ends from 2^32 characters on
  (`src/lib/table/CsvTableData.cpp:224-232`): `CsvTable.CounterStops`.
- A placeholder used after its loop still names the last item: `RenderingExact.RenderingIsExpansion` with
  `RenderingExact.PlaceholderLeaks`.
- Address and statement are joined without a separator in the sort key of dependencies, so that different jobs may
  have equal keys: `ExecutionIds.SortingIsCanonical` with `ExecutionIds.AmbiguousKeys`.

## Model

| member | source | states |
|---|---|---|
| Dataflow.EvaluationExists | src/lib/core/QueryProcessor.cpp:99-149 | every acyclic well-wired graph has a topological evaluation: the reference the runs are compared with |
| Dataflow.EvaluationUnique | src/lib/core/QueryProcessor.cpp:99-149 | and only one |
| QueryExecution.QueryExecution.constructor | src/lib/core/QueryExecution.cpp:25-53 | without dependencies an execution is COMPLETE at once; without out-ports it gets the default one |
| QueryExecution.QueryExecution.SetState | src/lib/core/QueryExecution.cpp:203-232 | changes to the state if it is that already or no final one, SCHEDULED only from COMPLETE; else an error that changes nothing |
| QueryExecution.QueryExecution.SetResult | src/lib/core/QueryExecution.cpp:95-120 | fills the first out-port of that name and turns DONE when it was the last one to be filled; throws for an unknown name |
| QueryExecution.QueryExecution.Receive | src/lib/core/QueryExecution.cpp:128-154 | fills the last in-port of that name and turns COMPLETE with the last missing input; throws for an unknown name |
| QueryExecution.QueryExecution.GetResult | src/lib/core/QueryExecution.cpp:77-83 | the result of the first out-port of that name, or an error |
| QueryExecution.QueryExecution.Schedule | extensions/postgresql/PGQueryExecution.cpp:66-70 | hands over the statement, which needs all inputs, and turns SCHEDULED |
| QueryExecution.QueryExecution.Process | extensions/postgresql/PGQueryExecution.cpp:72-79 | returns true exactly when the countdown is over and every out-port has been filled |
| QueryExecution.QueryExecution.Release | src/lib/core/QueryExecution.cpp:62-74 | all ports keep their names and lose their data |
| QueryExecution.Channel.Open | src/lib/graph/Channel.cpp:29-34 | only a READY channel opens |
| QueryExecution.Channel.Send | src/lib/graph/Channel.cpp:36-41 | only an OPEN channel delivers, and to the port it was made for |
| QueryExecution.Channel.Close | src/lib/graph/Channel.cpp:43-48 | only an OPEN channel closes |
| SchedulerInvariant.DeliverKeeps | src/lib/graph/Channel.cpp:29-48 | open, send and close never throw, and an in-port is filled exactly when its channel is CLOSED, with the right value |
| SchedulerInvariant.SendFromKeeps | src/lib/core/QueryProcessor.cpp:235-241 | serving all channels of a DONE execution keeps the invariant and closes each once |
| SchedulerInvariant.OutputResultKeeps | src/lib/core/QueryProcessor.cpp:217-246 | forwarding, caching and releasing never throws, sends only right values, and no released port is read later |
| SchedulerInvariant.ProcessKeeps | extensions/postgresql/PGQueryExecution.cpp:72-79 | processing keeps the invariant, and true means DONE with the values of the evaluation |
| SchedulerInvariant.FindExecutablesKeeps | src/lib/core/QueryProcessor.cpp:680-698 | scheduling happens once per execution, only when COMPLETE, and never throws |
| SchedulerInvariant.VisitKeeps | src/lib/core/QueryProcessor.cpp:103-130 | one execution's turn keeps the invariant and takes from the work left if the execution could be processed |
| SchedulerTheorems.TurnsKeep | src/lib/core/QueryProcessor.cpp:99-149 | no turn of a step throws; executions only advance; those processed without finishing are counted and within the bound |
| SchedulerTheorems.SomeExecutable | src/lib/core/QueryProcessor.cpp:107-129 | an unfinished graph always has an execution that can be processed |
| SchedulerTheorems.StepProgress | src/lib/core/QueryProcessor.cpp:99-149 | one step: no fault, invariant kept, at most maxParallelExecutions processed without finishing, and strictly less work unless all are DONE |
| SchedulerTheorems.RunProgress | src/lib/core/QueryProcessor.cpp:151-215 | every sequence of steps is fault free and complete after at most as many steps as there was work |
| SchedulerTheorems.LoadFromCacheKeeps | src/lib/core/QueryProcessor.cpp:254-309 | preloading any truthful subset of results reaches the invariant without a fault |
| SchedulerTheorems.LoadGainsNoWork | src/lib/core/QueryProcessor.cpp:254-309 | preloading never adds work |
| SchedulerTheorems.Confluence | src/lib/core/QueryProcessor.cpp:99-149 | for every iteration order, bound, countdown and preloaded subset: no fault, completion, and every out-port's value is that of the evaluation |
| SchedulerTheorems.RunsAgree | src/lib/core/QueryProcessor.cpp:99-149 | two complete runs agree on every out-port, however differently they went |
| SchedulerLaws.LoadIsExact | src/lib/core/QueryProcessor.cpp:254-309 | from every fresh state, for any cache and order: DONE afterwards if and only if the cache may be used and has every out-port; an in-port of an unfinished execution holds what the cache has for a DONE source and else nothing; a cache that may not be used changes nothing |
| SchedulerLaws.SchedulingIsExact | src/lib/core/QueryProcessor.cpp:680-698 | exactly the listed executions that are COMPLETE are handed over, once each, and nothing else changes |
| SchedulerLaws.VisitExact | src/lib/core/QueryProcessor.cpp:103-130 | one turn processes its execution exactly if it can be processed and fewer than maxParallelExecutions are running, counts it as running unless that finished it, and leaves the others' progress alone |
| SchedulerLaws.StepIsExact | src/lib/core/QueryProcessor.cpp:99-149 | after a step everything that could be processed has been, unless the bound is used up; who counts as running has been processed and is not DONE; nobody is COMPLETE; nobody DONE holds data |
| SchedulerLaws.ExecutionsRelease | src/lib/core/QueryExecution.cpp:62-74 | in every run from the cache on, whoever is DONE after a step holds no data |
| SchedulerLaws.OutputFails | src/lib/core/QueryProcessor.cpp:217-234 | an execution that is not DONE or one of whose channels has no result is an error, and success means all results were there |
| SchedulerLaws.SendFails | src/lib/graph/Channel.cpp:29-34 | a channel that was served is skipped when only READY ones are asked for, and otherwise an error unless its target is DONE |
| SchedulerLaws.CacheFromIs | src/lib/core/QueryProcessor.cpp:700-726 | the cache afterwards has the ports before the first empty one with their data, and is otherwise as before |
| QueryProcessor.QueryProcessor.OutputResult | src/lib/core/QueryProcessor.cpp:217-246 | the objects do what the transition on values says, throwing exactly when it does |
| QueryProcessor.QueryProcessor.CacheItem | src/lib/core/QueryProcessor.cpp:700-726 | saves out-port by out-port, and stops at the first empty one |
| QueryProcessor.QueryProcessor.FindExecutables | src/lib/core/QueryProcessor.cpp:680-698 | collects what can be processed, then schedules what is not yet scheduled |
| QueryProcessor.QueryProcessor.Turn | src/lib/core/QueryProcessor.cpp:103-146 | one execution's turn, and whether all are DONE then |
| QueryProcessor.QueryProcessor.Step | src/lib/core/QueryProcessor.cpp:99-149 | one polling step is the sequence of turns on values; true exactly when every execution is DONE |
| QueryProcessor.QueryProcessor.Process | src/lib/core/QueryProcessor.cpp:151-215 | from any state satisfying the invariant the loop ends with all executions DONE and every result in the cache |
| QueryProcessor.QueryProcessor.LoadFromCache | src/lib/core/QueryProcessor.cpp:254-309 | the loops on objects do what the transition says whose outcome SchedulerLaws.LoadIsExact gives: cached results are set unless the cache is disabled, then the channels of what is DONE are served and it is released |
| PostgresExecution.DefaultDependencyInjector.Inject | src/lib/injection/DefaultDependencyInjector.cpp:29-85 | adds the steps that InjectedRuns.InjectedSteps spells out, behind those of earlier queries, and returns their statements; nothing, and an error, if and only if a dependency is missing |
| PostgresExecution.InjectedIsScripted | src/lib/injection/DefaultDependencyInjector.cpp:42-81 | for any threshold and dependencies, steps and the server's answers go together one by one |
| InjectedRuns.InjectedSteps | src/lib/injection/DefaultDependencyInjector.cpp:42-81 | every port's create step is where it is expected, followed at once by one push of that port's rows exactly if it has any, by COPY from the threshold on and by INSERT below; no other step pushes; columns and result come last |
| InjectedRuns.DependenciesLoaded | src/lib/injection/DefaultDependencyInjector.cpp:42-81 | a query that is done, without a failed end on the way, has loaded the rows of every dependency that has any, each once, in port order, and its result is the whole answer |
| PostgresExecution.LaterQueryFindsOwn | src/lib/injection/DefaultDependencyInjector.cpp:87-89 | steps are never removed: a later query through the same injector finds its own steps if and only if the first query had the very same ones |
| CopyProtocol.ChunksAreRows | extensions/postgresql/PGQueryExecution.cpp:33-42 | the first k chunks put together are the first rows, each once and in order |
| CopyProtocol.LastChunk | extensions/postgresql/PGQueryExecution.cpp:33-42 | all rows are sent with chunk ceil(rows/100) and not before |
| CopyProtocol.RightTable | extensions/postgresql/PGQueryExecution.cpp:28-31 | while a COPY IN is under way the current step is a push of the table of the statement being answered |
| CopyProtocol.SentKeeps | extensions/postgresql/AsyncQueryExecutor.cpp:259-275 | an accepted chunk is the next one; after the last row nothing more is sent |
| CopyProtocol.EndKeeps | extensions/postgresql/AsyncQueryExecutor.cpp:283-288 | an accepted end leaves the table complete in the fewest chunks; a failed one too, but the copy stays open and begins anew; only a refused one leaves the end pending |
| CopyProtocol.CopyInKeeps | extensions/postgresql/AsyncQueryExecutor.cpp:248-298 | one poll of a COPY IN, whatever the connection answers: invariant kept; a row past the end is asked for exactly when a flat table's refused end is pending, and when that is so afterwards |
| CopyProtocol.HandOverKeeps | extensions/postgresql/AsyncQueryExecutor.cpp:324-331 | the result table exists when rows are handed over, and then holds all of them |
| CopyProtocol.CopyOutKeeps | extensions/postgresql/AsyncQueryExecutor.cpp:299-331 | one poll of a COPY OUT keeps what has been received, whatever part has arrived |
| CopyProtocol.TuplesKeep | extensions/postgresql/AsyncQueryExecutor.cpp:333-340 | the columns are known before the first row is received |
| CopyProtocol.CommandKeeps | extensions/postgresql/AsyncQueryExecutor.cpp:341-346 | client and server move on together |
| CopyProtocol.TurnKeeps | extensions/postgresql/AsyncQueryExecutor.cpp:157-354 | every poll keeps the invariant, and only a failed end of a copy counts up; the only failure not from outside is the row past the end, with its exact condition |
| CopyTheorems.RunKeeps | extensions/postgresql/AsyncQueryExecutor.cpp:157-354 | every state of every run satisfies the invariant with the failed ends counted per statement; an end is pending exactly if the last one reached was refused |
| CopyTheorems.RunFails | extensions/postgresql/AsyncQueryExecutor.cpp:157-354 | a run fails from outside or on a row past the end, the latter if and only if some poll asks for results while a flat table's end is refused |
| CopyTheorems.Lockstep | extensions/postgresql/AsyncQueryExecutor.cpp:212-351 | in every reachable state queryNo is the index of the statement being answered, and a copy reads the step of its own table |
| CopyTheorems.PushedSoFar | extensions/postgresql/AsyncQueryExecutor.cpp:248-298 | at every point the tables of answered copies are there once more than their end failed, and of the current one, behind as many whole copies as its end failed, the rows up to lastRowSent, which is -1 otherwise |
| CopyTheorems.Conservation | extensions/postgresql/AsyncQueryExecutor.cpp:229-237 | when the task is done every table was pushed, in order and in ceil(rows/100) chunks, once more than its end failed, so exactly once if and only if none failed; the result table has all rows |
| CopyTheorems.TurnFails | extensions/postgresql/AsyncQueryExecutor.cpp:157-354 | for each failure from outside exactly when a poll ends with it |
| CopyTheorems.EmptyTable | extensions/postgresql/AsyncQueryExecutor.cpp:289-297 | for a table without rows only the end of the copy is sent, and there a failed one is an error |
| CopyTheorems.RunCountsRows | extensions/postgresql/AsyncQueryExecutor.cpp:316 | the rows received are counted as they come, and once all have come the count is their number |
| CopyTheorems.RefusedEndTrips | extensions/postgresql/AsyncQueryExecutor.cpp:283-287 | after a poll in which the end of a flat table's copy is reached and refused, exactly the polls that get through fail |
| CopyTheorems.FailedEndRepeats | extensions/postgresql/AsyncQueryExecutor.cpp:283-288 | a poll leaves every table pushed as often as expected if and only if it is no failed end of a copy |
| CopyTheorems.TurnWork | extensions/postgresql/AsyncQueryExecutor.cpp:157-354 | only a failed end adds work, at most the chunks of its table, and every successful poll takes some away |
| CopyTheorems.RunCompletes | extensions/postgresql/AsyncQueryExecutor.cpp:95-127 | a run that is not cut short is done after as many successful polls as there is work, the chunks to be sent again included |
| PostgresExecution.PGConnection.GetCopyData | extensions/postgresql/AsyncQueryExecutor.cpp:304-321 | one row, or error, would-block or end |
| PostgresExecution.PGQueryExecution.HandleCopyIn | extensions/postgresql/PGQueryExecution.cpp:33-42 | the text of the next 100 rows, or of those that are left; a flat table rejects a start past the end |
| PostgresExecution.PGQueryExecution.HandleCopyOut | extensions/postgresql/PGQueryExecution.cpp:44-46 | appends to the result table |
| PostgresExecution.PGQueryExecution.HandleTuples | extensions/postgresql/PGQueryExecution.cpp:48-60 | a new empty result table with the columns as they come, but a nameless one is argument_ with its position, as text (25) |
| PostgresExecution.QueryTask.ProcessCopyIn | extensions/postgresql/AsyncQueryExecutor.cpp:248-298 | the copy loop does what the transition says |
| PostgresExecution.QueryTask.ProcessCopyOut | extensions/postgresql/AsyncQueryExecutor.cpp:299-331 | the receive loop does what the transition says |
| PostgresExecution.QueryTask.ProcessTask | extensions/postgresql/AsyncQueryExecutor.cpp:157-354 | one poll on the objects is one transition, with the same fault or the same new state |
| TableText.RowsText | src/lib/table/CsvTableData.cpp:179-183 | rows written as text are read back, for every well-formed table |
| TableText.TextRows | src/lib/table/CsvTableData.cpp:272-283 | every text that ends in a newline is the text of its rows |
| TableText.RowTextIs | src/lib/table/CsvTableData.cpp:179-183 | a row is its cells joined by tabs, and a newline |
| TableText.RowsAppend | src/lib/table/CsvTableData.cpp:154-177 | a block after complete lines adds exactly its own rows |
| TableText.CellIndexed | src/lib/table/TableIndex.cpp:51-55 | index entry row * columns + column is where that cell stands |
| TableText.RowIndexed | src/lib/table/TableIndex.cpp:51-55 | a row starts where the text of the rows before it ends |
| TableText.OpenedIncreases | src/lib/table/TableIndex.cpp:23-26 | cell starts strictly increase and lie within the text |
| TableText.NewlinesAreRows | src/lib/table/CsvTableData.cpp:224-232 | counting newlines counts rows |
| CsvTable.TableIndex.AddOffset | src/lib/table/TableIndex.cpp:23-26 | appends; the assertion is the precondition every caller is proved to meet |
| CsvTable.StartsAppend | src/lib/table/CsvTableData.cpp:154-177 | extending the index is rebuilding it, when old text and block both end in a separator |
| CsvTable.IncrementalExact | src/lib/table/CsvTableData.cpp:154-177 | index and row count after an append are a rebuild's if and only if text and block end alike |
| CsvTable.CsvTableData.CalculateRowCount | src/lib/table/CsvTableData.cpp:224-232 | counts the newlines, for buffers of less than 2^32 characters |
| CsvTable.CounterStops | src/lib/table/CsvTableData.cpp:224-232 | and for longer ones the 32-bit counter never reaches the end |
| CsvTable.CsvTableData.BuildIndex | src/lib/table/CsvTableData.cpp:257-270 | collects the start of every cell |
| CsvTable.CsvTableData.AppendRaw | src/lib/table/CsvTableData.cpp:154-177 | appends any block, an empty first one included, and keeps index and rows right for blocks that end in a newline |
| CsvTable.CsvTableData.AppendToIndex | src/lib/table/CsvTableData.cpp:166-175 | the loop that looks at the character before each new one; addOffset's assertion never fails |
| CsvTable.CsvTableData.AddRow | src/lib/table/CsvTableData.cpp:179-183 | adds exactly this row if its cells contain no separator |
| CsvTable.CsvTableData.GetRows | src/lib/table/CsvTableData.cpp:272-283 | the chunk is the text of the rows asked for |
| CsvTable.Scan | src/lib/table/CsvTableData.cpp:285-292 | the scan for the end of a cell stops at its end and never reads past the buffer |
| CsvTable.CsvTableData.GetColumn | src/lib/table/CsvTableData.cpp:285-292 | the chunk is the cell |
| CellEscape.Encode | src/lib/table/CsvTableData.cpp:294-324 | the loop computes the encoding |
| CellEscape.Decode | src/lib/table/CsvTableData.cpp:326-358 | the loop computes the decoding, dropping unknown escapes |
| CellEscape.RoundTrip | src/lib/table/CsvTableData.cpp:294-359 | decode(encode(s)) is s for every string |
| CellEscape.EscapeTable | src/lib/table/CsvTableData.cpp:294-324 | the seven escaped characters by their codes, each with its letter; every other character stays |
| CellEscape.EncodedAppends | src/lib/table/CsvTableData.cpp:294-324 | encoding goes character by character |
| CellEscape.UnknownEscape | src/lib/table/CsvTableData.cpp:326-358 | an unknown escape is dropped with its letter, and so is a backslash at the end |
| CellEscape.EncodedIsPlain | src/lib/table/CsvTableData.cpp:294-324 | an encoded value contains no separator |
| CellEscape.DecodeEncode | src/lib/table/CsvTableData.cpp:294-359 | encode(decode(t)) is t exactly for the texts whose escapes are all known and that hold no other special character |
| CellEscape.StoreAll | src/lib/table/CsvTableData.cpp:179-183 | rows of arbitrary values, encoded, are added one by one behind what the table held |
| CellEscape.StoreThenFetch | src/lib/table/CsvTableData.cpp:285-359 | any value of any row stored that way comes back through getColumn and decode |
| TableFile.Split | src/lib/utils/string.cpp:47-54 | the pieces between delimiters; an empty last piece is dropped |
| TableFile.PiecesOfJoined | src/lib/utils/string.cpp:35-54 | splitting undoes joining when no item holds the delimiter and the last is not empty |
| TableFile.ReadColumns | src/lib/table/CsvTableData.cpp:185-222 | the columns of a header line, or the error for an empty definition |
| TableFile.ColumnReadBack | src/lib/table/CsvTableData.cpp:205-218 | a column of a registered type survives the header; one of an unregistered type comes back as text |
| TableFile.TypelessIsText | src/lib/table/CsvTableData.cpp:204-218 | a column without a type, or with an unknown one, is text, type 25 |
| TableFile.HeaderIs | src/lib/table/CsvTableData.cpp:237-249 | the header is name, colon and type name per column, with tabs between |
| TableFile.HeaderReadBack | src/lib/table/CsvTableData.cpp:237-249 | all columns survive the header line |
| TableFile.Save | src/lib/table/CsvTableData.cpp:234-255 | header, buffer and index file |
| TableFile.LoadIndex | src/lib/table/TableIndex.cpp:39-49 | reads as many offsets as the counts announce |
| TableFile.Load | src/lib/table/CsvTableData.cpp:114-152 | with an index file its counts are checked and used, without one rows are counted and the index is built |
| TableFile.SaveThenLoad | src/lib/table/CsvTableData.cpp:234-255 | columns, buffer, row count and index come back, equal to a rebuild's, if and only if there are fewer than 65536 columns |
| Views.MeaningShaped | src/lib/table/ExtendedTableData.cpp:37-49 | the counts every view keeps are those of the list of rows it means, at any nesting |
| Views.JoinIsFlat | src/lib/table/JoinedTableData.cpp:19-33 | a join is its sources one below the other |
| Views.SplitRow | src/lib/table/SplittedTableData.cpp:30-34 | row k of a split is the row of the source that it names |
| Views.RangeRows | src/lib/table/TableDataRange.cpp:19-26 | a range stands for that many rows of its source from its start on |
| Views.Offsets | src/lib/table/JoinedTableData.cpp:19-33 | the running offsets |
| Views.UniqueSource | src/lib/table/JoinedTableData.cpp:57-70 | at most one source holds a row, empty sources hold none |
| Views.CalculateRelativeRow | src/lib/table/JoinedTableData.cpp:57-70 | finds the one source that holds a row, exactly when the row is within bounds |
| Views.JoinedRow | src/lib/table/JoinedTableData.cpp:72-77 | the row found there is the row of the join |
| Views.ExtendedCell | src/lib/table/ExtendedTableData.cpp:79-81 | a column of an extended table is the column it refers to |
| Views.GetColumn | src/lib/table/SplittedTableData.cpp:45-47 | for every nesting of views, the cell is the cell of its meaning |
| Views.ExtendedRow | src/lib/table/ExtendedTableData.cpp:56-68 | cells, tabs and newline make the text of the row |
| Views.GetRows | src/lib/table/TableDataRange.cpp:32-37 | for every nesting of views, the chunks are the text of the rows delivered |
| Views.DeliveredExact | src/lib/table/TableDataRange.cpp:32-37 | the rows delivered are the rows asked for, except from a range, where they are exactly when all rows asked for are alike |
| Views.OneRowIsRight | src/lib/table/TableDataRange.cpp:32-37 | for at most one row a range is right, whatever it is a range of |
| Views.MoreRowsGoWrong | src/lib/table/TableDataRange.cpp:32-37 | for every larger number there is a table for which it is wrong |
| Md5Block.WordsRoundTrip | src/lib/utils/md5.cpp:145-165 | decode undoes encode |
| Md5Block.Rounds | src/lib/utils/md5.cpp:169-244 | the 64 operations written out are the table form of RFC 1321 section 3.4 |
| Md5Block.FBit | src/lib/utils/md5.cpp:61-63 | bit i of F is that of y where x has one, else that of z |
| Md5Block.GBit | src/lib/utils/md5.cpp:65-67 | bit i of G is that of x where z has one, else that of y |
| Md5Block.HBit | src/lib/utils/md5.cpp:69-71 | bit i of H is the parity of the three bits |
| Md5Block.IBit | src/lib/utils/md5.cpp:73-75 | bit i of I is that of y where z has one and x has none, and flipped elsewhere |
| Md5Block.RotateIs | src/lib/utils/md5.cpp:78-80 | rotating by n is multiplying by 2^n modulo 2^32 and adding the quotient by 2^(32-n) |
| Md5Known.WordOrder | src/lib/utils/md5.cpp:175-244 | from which word each round starts and how far on it goes each time, as in RFC 1321 section 3.4 |
| Md5Known.InitialBytes | src/lib/utils/md5.cpp:136-139 | the state starts as the bytes 01 23 .. ef fe .. 10 of RFC 1321 section 3.3 |
| Md5Known.AlphabetDigest | src/lib/utils/md5.cpp:118-123 | the digest of the 26 letters is c3fcd3d76192e4007dfb496cca67e13b, as in RFC 1321 appendix A.5 |
| Md5.DigestedSplit | src/lib/utils/md5.cpp:279-280 | blocks can be processed in any number of goes |
| Md5.CountIndex | src/lib/utils/md5.cpp:262 | the counter gives the fill of the buffer even after it has wrapped |
| Md5.CountAdds | src/lib/utils/md5.cpp:265-267 | the two counter words are 8 times the length modulo 2^64, carry included |
| Md5.PaddingIs | src/lib/utils/md5.cpp:308-322 | the padding is a byte 0x80 and zeros, up to 56 bytes of a block |
| Md5.LengthIs | src/lib/utils/md5.cpp:314-325 | the last eight bytes are the length in bits modulo 2^64, low-order word and byte first |
| Md5.GuardEnds | src/lib/utils/md5.cpp:280 | at the tail the 32-bit loop guard is false if and only if nothing wraps |
| Md5.MD5.Decode | src/lib/utils/md5.cpp:145-150 | bytes to words |
| Md5.MD5.Encode | src/lib/utils/md5.cpp:156-165 | words to bytes |
| Md5.MD5.TransformBlock | src/lib/utils/md5.cpp:169-253 | one block is absorbed by the operations that FBit, GBit, HBit, IBit and RotateIs describe |
| Md5.MD5.TransformAll | src/lib/utils/md5.cpp:279-281 | all complete blocks of the input are absorbed, and no more |
| Md5.MD5.Update | src/lib/utils/md5.cpp:259-292 | state, buffer and counter are those of everything fed so far |
| Md5.MD5.FinalizeDigest | src/lib/utils/md5.cpp:306-338 | the digest is that of the message padded as in RFC 1321 sections 3.1 and 3.2; a second call changes nothing |
| Md5.DigestOf | src/lib/utils/md5.cpp:118-123 | any split of a message into updates gives the digest of the whole |
| Sharding.IdInRange | src/lib/sharding/MD5ShardingStrategy.cpp:25-26 | ids are in 1..count exactly for positive counts |
| Sharding.VirtualShardBytes | src/lib/sharding/MD5ShardingStrategy.cpp:23 | the id before masking is the word of the last, last but one and last but two byte of the digest |
| Sharding.MaskBit | src/lib/sharding/MD5ShardingStrategy.cpp:25 | masking bit by bit, also for the negative masks that counts below one make |
| Sharding.MaskIsRemainder | src/lib/sharding/MD5ShardingStrategy.cpp:25 | the mask is a remainder exactly for powers of two |
| Sharding.AllShardsReachable | src/lib/sharding/MD5ShardingStrategy.cpp:25-34 | every shard can receive rows exactly when the count is a power of two |
| Sharding.ThirdOfSixUnused | src/lib/sharding/MD5ShardingStrategy.cpp:29-34 | with six shards, an even count, the third is never used |
| Sharding.MD5ShardingStrategy.SetShardCount | src/lib/sharding/MD5ShardingStrategy.cpp:29-34 | odd counts are refused and change nothing |
| Sharding.MD5ShardingStrategy.GetShardId | src/lib/sharding/MD5ShardingStrategy.cpp:19-27 | the id is the masked digest of the key plus one, in range for every positive count |
| Sharding.ModuloShardingStrategy.GetShardId | src/lib/sharding/ModuloShardingStrategy.cpp:19-24 | the id is one more than the remainder that takes the sign of the key; in range exactly for keys that are not negative or a multiple of a positive count |
| Resharding.MembersExact | src/lib/core/OneToMany.cpp:49-57 | a port gets exactly the rows with its id, in source order |
| Resharding.OnePort | src/lib/core/OneToMany.cpp:49-57 | a row with a valid key goes to one port, one without to none |
| Resharding.ShardsConserve | src/lib/core/OneToMany.cpp:47-62 | the ports together hold a permutation of the rows with valid keys |
| Resharding.BroadcastMultiplies | src/lib/core/OneToMany.cpp:40-44 | without a key column the ports together hold every row once per port |
| Resharding.PortRows | src/lib/core/OneToMany.cpp:47-61 | port p gets exactly the rows whose value in the first recognised column of the first sharder that recognises one is placed in shard p + 1, in source order |
| Resharding.NoKeyColumn | src/lib/core/OneToMany.cpp:40-44 | if no sharder recognises a column, every port gets the whole table |
| Resharding.ChoiceIsFirst | src/lib/core/OneToMany.cpp:69-77 | the first sharder that recognises a column is used |
| Resharding.OneToMany.FindShardColIndex | src/lib/core/OneToMany.cpp:69-77 | the loop finds that sharder and column |
| Resharding.OneToMany.Offsets | src/lib/core/OneToMany.cpp:47-57 | one pass collects the row numbers per shard; invalid keys are dropped |
| Resharding.OneToMany.Process | src/lib/core/OneToMany.cpp:31-67 | every out-port gets its shard, or the whole table without a key column |
| Resharding.ManyToOne.Process | src/lib/core/ManyToOne.cpp:18-30 | the inputs one below the other under the columns of the first; the join's assertions are the precondition |
| Resharding.SplitJoin | src/lib/core/OneToMany.cpp:47-62 | splitting and joining again is a permutation if and only if every key is valid |
| LrTables.Lookup | src/lib/template/parse.cpp:555-585 | the linear search yields the entry, the default reduction or nothing |
| LrTables.RequiresWhich | src/lib/template/parse.cpp:136-334 | which states read a token before they decide; none has an error item |
| ParserSoundness.ReduceLeaf | src/lib/template/parse.cpp:197-201 | rules 11 and 12 fire before the scanner has read past their token, so the matched text is that token's |
| ParserSoundness.RootIsPrefix | src/lib/template/parse.cpp:428-516 | where the loop ends, also in an abort, the root holds the trees of a beginning of the input that derives from the grammar |
| ParserSoundness.TurnKeeps | src/lib/template/parse.cpp:711-746 | every turn keeps the invariant: each stack value is the tree of the symbol at its position |
| ParserSoundness.Soundness | src/lib/template/parse.cpp:711-746 | no reachable turn crashes or pops too much; what is accepted derives from the grammar and is in the root in source order |
| ParserCompleteness.Completeness | src/lib/template/parse.cpp:711-746 | every printed list of templates, however deeply nested, is accepted, and the root holds its trees in source order |
| Parser.Recognises | src/lib/template/parse.cpp:711-746 | where the loop ends it accepts exactly what the grammar derives |
| Parser.Unambiguous | src/lib/template/parse.cpp:115-131 | a token list is the print of at most one list of templates |
| Parser.AstInjective | src/lib/template/parse.cpp:428-516 | different templates have different trees |
| Parser.Parser.Pop | src/lib/template/parse.cpp:411-421 | fails exactly when the stack is too short |
| Parser.Parser.NextToken | src/lib/template/parse.cpp:532-550 | a saved token first, then the scanner |
| Parser.Parser.ExecuteAction | src/lib/template/parse.cpp:428-516 | saves the token read ahead, presets the value, runs the action |
| Parser.Parser.ErrorRecovery | src/lib/template/parse.cpp:594-690 | without error items it always ends in an abort |
| Parser.Parser.Turn | src/lib/template/parse.cpp:711-746 | one turn of the loop is one step on values |
| Parser.Parser.Parse | src/lib/template/parse.cpp:711-746 | terminates; accepts exactly what the grammar derives, and the root then holds exactly those trees; otherwise it holds those of a beginning that derives |
| Rendering.RenderIsFlow | src/lib/template/Template.cpp:62-85 | rendering the tree of a template is the recursion over the template, at any nesting depth |
| RenderingExact.RenderingIsExpansion | src/lib/template/Template.cpp:62-85 | a file is rendered to its lexically scoped expansion for all variables if and only if no placeholder is used after its loop, or after an inner loop bound it again, for anything that is written |
| RenderingExact.PlaceholderLeaks | src/lib/template/Template.cpp:80-83 | the shortest such file, a loop over text followed by its placeholder, is rendered wrong for some variables |
| TemplateLaws.WritesVariable | src/lib/template/Template.cpp:46-73 | outside loops text is written as it is and a name looked up as root.name |
| TemplateLaws.WritesItem | src/lib/template/Template.cpp:46-84 | a loop over expr writes for its item root.expr.0, root.expr.1 and so on, as many as the list has |
| TemplateLaws.WritesField | src/lib/template/Template.cpp:46-84 | and for a field of the item that field of every element |
| TemplateLaws.WritesOther | src/lib/template/Template.cpp:46-84 | a name that is neither the item nor a field of it is looked up under the root in every pass |
| TemplateLaws.WritesInnerField | src/lib/template/Template.cpp:46-84 | an inner loop over a field of the outer item writes the fields of that element's list |
| TemplateLaws.WritesOuterField | src/lib/template/Template.cpp:46-84 | in an inner loop the outer item still stands for its element, unless the names are the same |
| TemplateLaws.LoopTokens | src/lib/template/Parserbase.h:202-213 | the tokens of a loop, by the numbers of their kinds, derive from that loop |
| Wrappers.DecimalIs | src/lib/template/Template.cpp:81 | an index is written in decimal digits without leading zeros |
| Template.Template.Write | src/lib/template/Template.cpp:62-85 | writes and leaves behind what the function on values says, which TemplateLaws gives in terms of the variables |
| Template.Template.RenderTokens | src/lib/template/Template.cpp:87-96 | parsing and rendering together: the text is the rendering, and if no placeholder leaks the expansion, of the templates the tokens stand for, or of a beginning of the tokens if they are rejected |
| ExecutionIds.ExecutionGraph.GetDependencies | src/lib/graph/ExecutionGraph.cpp:114-127 | terminates on every acyclic graph and lists the dependencies depth first |
| ExecutionIds.DependenciesArePathSources | src/lib/graph/ExecutionGraph.cpp:114-127 | the k-th dependency is where the k-th path comes from |
| ExecutionIds.PathsExact | src/lib/graph/ExecutionGraph.cpp:114-127 | every path is listed |
| ExecutionIds.PathsDistinct | src/lib/graph/ExecutionGraph.cpp:114-127 | none twice |
| ExecutionIds.DependenciesAreAncestors | src/lib/graph/ExecutionGraph.cpp:114-127 | the dependencies are exactly the ancestors |
| ExecutionIds.DependenciesPermuted | src/lib/graph/ExecutionGraph.cpp:114-127 | another order of the channels gives the same dependencies, each as often |
| ExecutionIds.SortingIsCanonical | src/lib/core/QueryProcessor.cpp:667-671 | whatever the sort does with equal keys, the text is the same if and only if the keys determine addresses and statements |
| ExecutionIds.CanonicalId | src/lib/core/QueryProcessor.cpp:665-678 | the id text is the same for every order in which channels were created and every way of sorting, if and only if the keys of the dependencies determine their jobs |
| ExecutionIds.AmbiguousKeys | src/lib/core/Url.cpp:178-183 | an address that goes on where the statement of another one begins makes such keys |
| ExecutionIds.IdsTell | src/lib/core/QueryProcessor.cpp:672-677 | two executions with the same dependencies have the same text if and only if they have the same address and the same statement |
| ExecutionIds.AtMostIs | src/lib/core/QueryProcessor.cpp:667-671 | keys are compared like strings: a beginning first, else by the first character that differs |
| ExecutionIds.CalculateExecutionId | src/lib/core/QueryProcessor.cpp:665-678 | collects and sorts the dependencies in descending order of address and statement; the text is own address, own statement, then address and statement of each of them, joined by newlines, and the same for every way of sorting if the keys determine the jobs |

## Left out

- QueryExecution.QueryExecution.Process: does not say how a leaf query computes its result; a countdown stands for its polls and `compute` for what it delivers.
- QueryExecution.QueryExecution.Schedule: the statement handed over is counted, not sent; sending is the subject of `PostgresExecution`.
- QueryProcessor.QueryProcessor.Process: cancellation (`stopped`), connection checks, `dontExecute`, events, symbolic links and run times are not modelled.
- Views.GetRows: bases are snapshots of flat tables, so an append to a table after a view on it was made is not covered.
- Resharding.OneToMany.Process: a shard id outside 1..noShards makes the original write outside its vector; the precondition excludes it.
- Sharding.MD5ShardingStrategy.GetShardId: keys of nearly 2^32 characters and more are excluded, as for `Md5.DigestOf`, see `Md5.GuardEnds`.
- Sharding.ModuloShardingStrategy.GetShardId: the conversion of the key to a number (`stoi`) and the printed messages are not modelled; a count of zero is excluded.
- CsvTable.CsvTableData.AppendRaw: a non-empty block behind an allocated but empty buffer is excluded, since the code then reads the character before the buffer; so are first blocks of 2^32 characters and more, see `CsvTable.CounterStops`.
- TableFile.Load: index files are records of two counts and a list of offsets, not bytes.
- PostgresExecution.DefaultDependencyInjector.Inject: statements are kept as what they do, not as SQL text; in particular the rewriting of `limit` by regular expression is not modelled, and the query is taken to be one statement.
- PostgresExecution.QueryTask.ProcessTask: cancellation and events are not modelled, and neither are asynchronous connecting, which the code switches off, and clean-up after a failure.
- Parser.Parser.Parse: takes the scanner's tokens with their texts; the generated scanner is not part of this model. Node types are an enumeration instead of strings.
- Template.Template.RenderTokens: the variables are two functions, the text and the list length at each path; the console output is left out.
- ExecutionIds.SortingIsCanonical: addresses are taken to hold no newline. The digest of the text is in `Md5`.
- ManyToMany has no working behaviour to verify: it indexes shard ids that start at one from zero (src/lib/core/ManyToMany.cpp:47) and is created without matching ports (src/lib/core/QueryProcessor.cpp:494-503).
- WorkerInjection and PostgresqlExecution are unfinished or unused.
- Query parsing, URL and server registries, configuration, the JSON interface, the curses display, SQLite, memcached, HTTP and compression are driven by libraries and would add only easy members.
