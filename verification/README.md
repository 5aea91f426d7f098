# AIOS: a verified model of its core

AIOS runs agents over a kanban board, records telemetry, indexes project knowledge and assembles the context of its
agents. This project models the parts of it that carry real invariants and proves them for all inputs, all runs and all
interleavings. `dafny verify dfyconfig.toml` checks everything.

| files | what they model |
|---|---|
| `TelemetryLedger`, `TelemetryWriter`, `TelemetryProtocol` | the buffered telemetry writer: its critical sections, one flush with retries, and every interleaving of enqueuers, flushing threads and shutdown |
| `TelemetryFlush`, `TelemetryRuns` | what enqueueing and one flush do, record by record, and what whole runs of all threads keep |
| `AgentExecutor` | the lifecycle state machine and the executor's attempt loop with retries, backoff, cancellation and its numbered event trace |
| `ExecutionResults` | outcome and trace of an execution in terms of what the agent did |
| `Kanban`, `Workflow` | the board's column machine with its TDD gate, and the agent pipeline over it with its early exits |
| `KanbanResults`, `WorkflowResults` | what flags and events tell about a run of the board, and what steps, errors and cards tell about a run of the pipeline |
| `Chunking`, `Sections` | the overlapping window splitter, and the section chunkers with their patterns |
| `SizeSplit`, `ChunkStarts` | where texts are cut, in terms of their characters |
| `Normalization`, `NormalizedText`, `LineLaws` | text normalization, what it does to the characters of a text, and the laws of its lines |
| `KnowledgeIndex`, `KnowledgeStore` | the incremental index: chunks, full-text rows and embeddings kept in step under position-based identifiers |
| `KnowledgeResults` | which chunks an embedding run covers, and what indexing makes of the stored contents |
| `ContextAssembly`, `ContextBudget`, `ContextAssembler` | stable precedence order, first-wins deduplication, token budget, and the assembler that cuts layers in place |
| `ContextResults` | what is kept and reported, in terms of words, tokens and types |
| `ConventionalCommit`, `Porcelain` | two parsers with the printers of their formats |
| `CommitTitles`, `PorcelainRecords` | the parts of a title, and what the second parser reports of any text |
| `Learning`, `LearningResults` | the approval machine for learning candidates, and when its operations succeed |
| `Percentile` | interpolated percentiles and summaries |
| `Text` | white space, splitting, joining and searching with Python's meaning |
| `Common` | what several modules use |

Objects that the program changes in place are classes here. Each method is proved against a function on values that says
what the whole new state is; the properties are proved about these functions and about runs of them. The files whose
names end in `Results` or `Laws`, and the other files listed behind a model, say in the terms of its inputs alone what
those functions yield. What the program cannot control (what the database, an agent, a gate, the embedding provider or
the memory engine answers, when a cancellation arrives, what other threads do meanwhile) is a parameter that ranges
over everything.

The table below lists the 57 main results first, area by area; the contracts and lemmas they rest on follow in the same
order.

## Where code and documentation differ

- The telemetry writer promises that a graceful shutdown loses nothing (`writer.py:19-22`, `151-152`). A fatal error or
  a lasting lock during the flush of `shutdown` drops the batch, and records enqueued while it writes or sleeps can push
  others out. `ShutdownCanLose` is a run with a loss; `FlushLosesNothingIff` says for one flush and all arrivals, and
  `RunLosesNothingIff` for all runs of all threads, exactly when nothing is lost.
- After a requeue the second `if not batch: return` of `flush` can never fire (`RedrainFindsABatch`).
- A cancelled execution does not report its retries, and its `attempts` counts the attempt that never started.
- A refused move into Done is announced with the reason that the TDD gate is missing, also for a gated card that
  would skip a column (`RefusedDoneBlamesTheGate`).
- A pipeline run can succeed although research, review or documentation failed, and a tester that crashes without a
  report counts as no failed test (`VerdictsDoNotDecide`, `SuccessIff`).
- The window splitter has no guard of its own: for sizes with max_chars < 2 * overlap, and for two zeros, there are
  texts on which it never returns, and for no other sizes (`ReturnsIff`). The sizes used, 4096 and 200, are safe.
- The index skips a document by the digest of its normalized text, but chunks the raw text. Two texts with one digest
  can have different chunks (`SkipLeavesOldChunks`), so the stored chunks are those of the last indexing that was not
  skipped. `ChunksAreCurrentIff` says exactly when they are those of the content just given;
  `UncutDigestDecides` that they always are among short texts without a heading or symbol.
- A caller may give a document its own identifier; indexing one source under two identifiers leaves old chunks or
  doubles full-text rows. `IndexingKeepsSyncedIff` has the exact condition.
- Guardrail layers are documented as never dropped. Truncation keeps them; deduplication drops one that repeats a layer
  of higher precedence (`OutrankedGuardrailIsDropped`); `GuardrailSurvivesIff` is the exact condition. A task layer, the
  only type declared immutable, is dropped only for an earlier task layer with the same words (`TaskIsBestIff`).
- The porcelain parser looks for renames and copies in the first status column only (`ReadBackIff`).
- A candidate whose memory write fails is still marked ingested (`IngestedIffMemory`).

## Model

| member | source | states |
|---|---|---|
| `TelemetryProtocol.Conservation` | src/aios/telemetry/writer.py:90-221 | In every reachable state of any interleaving: enqueued = buffered + held by the flush in progress + flushed + dropped; buffer and held batch respect the capacity |
| `TelemetryProtocol.OrderAndUniqueness` | src/aios/telemetry/writer.py:191-216 | In every reachable state no record is committed twice or both committed and dropped, and per table the committed, held and buffered rows are a subsequence of that table's enqueue order |
| `TelemetryProtocol.FlushReturnsSettled` | src/aios/telemetry/writer.py:104-142 | Whenever a thread returns from `flush` (or from `shutdown` through it), every record enqueued before its call is committed or counted as dropped, whichever thread had drained it |
| `TelemetryRuns.EverythingBeforeTheCallIsSettled` | src/aios/telemetry/writer.py:104-161 | In every run of all threads: when a thread comes back from the `flush` or `shutdown` that it called in some state, every record enqueued by then, by whatever thread, is committed or counted as dropped |
| `TelemetryProtocol.FlushTerminates` | src/aios/telemetry/writer.py:104-142 | The lock holder always has a next action, each of its actions brings it closer to returning, others do not set it back, and it makes at most len(backoff)+1 write attempts |
| `TelemetryProtocol.RunLosesNothingIff` | src/aios/telemetry/writer.py:148-161 | When the promise does hold: a run of any threads, with or without a shutdown, has lost nothing and counted no drop if and only if it never enqueued into a full buffer, never requeued a batch that no longer fitted beside what had arrived, and never gave a batch up |
| `BufferedWriter.FlushLosesNothingIff` | src/aios/telemetry/writer.py:104-142 | For everything other threads enqueue while a write runs and while the flush sleeps: a flush loses nothing if and only if there is nothing to flush, or some attempt up to the last retry is accepted after nothing but lock errors, by when the buffered records and all arrivals are of known tables and fit into the buffer together, and what arrives during the accepted write fits too |
| `BufferedWriter.FlushSettles` | src/aios/telemetry/writer.py:104-142 | For every store behaviour and whatever arrives while writes run and while the flush sleeps: every record enqueued before the flush is committed or dropped, the accounts balance, and at most retries+1 writes were tried |
| `TelemetryFlush.EnqueueAllKeepsNewest` | src/aios/telemetry/writer.py:90-98 | After any number of records the buffer holds the newest `maxlen` of all that was buffered and that arrived; what is older is lost, oldest first, and counted; nothing else changes |
| `TelemetryLedger.ExtendLeftRestoresBatch` | src/aios/telemetry/writer.py:197-202 | Requeueing puts the batch in front of what arrived meanwhile and cuts off the newest records beyond the capacity |
| `AgentExecutor.EveryTraceIsWellFormed` | src/aios/agents/executor.py:118-389 | For every agent behaviour, policy and cancellation: lifecycle events start created to created, chain along the allowed transitions, end in exactly one terminal state equal to the outcome; the last event is the only terminal execution event; retried = attempts - 1, started = invocations |
| `ExecutionResults.OutcomeTellsLastAttempt` | src/aios/agents/executor.py:220-389 | For every accepted request: succeeded exactly if the last attempt is not cancelled and the agent succeeds there, timed out exactly if it raises a timeout there, failed exactly if it does anything else, cancelled exactly if the cancellation comes before it; with the error code of that; all attempts before it were retried and it was not |
| `ExecutionResults.TraceEnds` | src/aios/agents/executor.py:220-389 | The trace of every accepted request ends with the last attempt's start, its final lifecycle event and the execution event that says what the agent did: completed, timed out, failed with its code, or cancelled |
| `AgentExecutor.AttemptsAreBounded` | src/aios/agents/executor.py:220-454 | 1 <= attempts <= max(1, max_attempts); `retried` is reported exactly for more than one attempt and no cancellation |
| `AgentExecutor.TotalBackoff` | src/aios/agents/executor.py:451-454 | The pauses before attempts 2 to n+1 add up to base_delay * (2^n - 1) |
| `AgentExecutor.AgentExecutor.Execute` | src/aios/agents/executor.py:118-389 | The published events are numbered 1..n without gap and are exactly the expected ones; outcome, invocations, pauses and security events likewise; no transition is ever refused. `OutcomeTellsLastAttempt` and `TraceEnds` say what is expected in terms of what the agent does |
| `Kanban.RunsAreConsistent` | src/aios/scheduler/store.py:164-194 | After any run of operations: Done implies gate passed; column index = forward moves - total backward distance; every column up to the present one was visited |
| `KanbanResults.EventsReplayTheBoard` | src/aios/scheduler/engine.py:84-121 | After any run the announced moves of each card form a path, each starting where the one before ended, from Backlog to the column the card is in |
| `KanbanResults.FlagsTellHistory` | src/aios/scheduler/store.py:189-202 | After any run a card's gate is passed exactly if some operation passed it, directly or by completing work from a column where that succeeds, and it is blocked exactly if some operation blocked it |
| `Workflow.CommitIffClear` | src/aios/workflow/engine.py:186-398 | The pipeline reaches its commit exactly if there is a plan, the branch was made, every developer succeeded, a path under src/ or tests/ was newly changed where due, no test failed, and every gate that ran passed, was skipped, or failed without the policy blocking; then all subtasks are completed |
| `Workflow.SuccessIff` | src/aios/workflow/engine.py:186-398 | A run succeeds exactly if that holds and the commit succeeds (or there is no git) |
| `Workflow.EarlyExitLeavesItsError` | src/aios/workflow/engine.py:186-398 | The stages are a prefix of the canonical order; an early exit leaves exactly one error, that of the last stage, which is marked failed |
| `WorkflowResults.StepsAre` | src/aios/workflow/engine.py:186-398 | The steps of a run, which they are and in which order, for every combination of agents, gates and git |
| `WorkflowResults.CrashedGateStops` | src/aios/workflow/engine.py:692-720 | A gate that crashes or times out ends every run that reaches it: nothing behind it runs, nothing is committed, and the only error is that the gate blocked |
| `WorkflowResults.CardTells` | src/aios/workflow/engine.py:490-555 | The card of each subtask after a run, in terms of which developers succeeded: finished, blocked in progress, untouched in the Backlog, or, for the last one of a run that should have changed code and did not, blocked in Done |
| `Workflow.WorkflowEngine.Execute` | src/aios/workflow/engine.py:186-398 | Stages, errors, success, counts, commit request and the whole board after a run, for every behaviour of agents, gates and git |
| `Chunking.ReturnsIff` | src/aios/knowledge/chunking.py:136-162 | For all sizes: the splitter returns on every text if and only if max_chars >= 1 and max_chars >= 2 * overlap |
| `Chunking.WindowsTile` | src/aios/knowledge/chunking.py:136-162 | The windows start at the beginning and end at the end of the text, consecutive ones share exactly `overlap` characters, and none is longer than max_chars |
| `SizeSplit.LongTextIsCut` | src/aios/knowledge/chunking.py:136-162 | A text longer than a window is cut into windows that share exactly the overlap and end behind the last paragraph break, line break or sentence end of their overlap zone or at their full size; its chunks are these windows, stripped, without the blank ones |
| `Sections.DocumentKeeps` | src/aios/knowledge/chunking.py:74-128 | No character other than white space is lost when a document is cut at headings or symbols |
| `Sections.HeadingEndIsGreedy` | src/aios/knowledge/chunking.py:13 | The computed heading match is the one greedy matching with backtracking finds first among all ways to match, and there is none exactly if there is no way |
| `ChunkStarts.CodeIsCutAtSymbols` | src/aios/knowledge/chunking.py:105-126 | Source kind "code": what stands from a line that starts with `class `, `def ` or `async def ` to the next such line or the end is one stored chunk, or if it is longer than 4096 characters its keyword is |
| `ChunkStarts.OtherTextIsCutAtHeadings` | src/aios/knowledge/chunking.py:74-97 | Every other source kind: each heading starts a stored chunk, unless it lies inside the match of an earlier heading that does |
| `ChunkStarts.DocumentIsItsSections` | src/aios/knowledge/chunking.py:38-128 | All stored chunks of any document, in order: those before the first mark (code: one; others: split by size), then for each mark its section, or if that is longer than 4096 characters the mark and its split rest; without marks the whole is split by size |
| `Normalization.NormalizeIdempotent` | src/aios/knowledge/chunking.py:17-26 | Normalizing twice is normalizing once, so the digest of normalized text is the digest of the text |
| `NormalizedText.NormalizeKeepsInk` | src/aios/knowledge/chunking.py:17-22 | Normalization keeps every character other than white space, in order |
| `KnowledgeStore.RunsStayInStep` | src/aios/knowledge/store.py:209-298 | After any run of indexing and embedding: stored chunks are those of the content last indexed, full-text rows match chunks one to one, embeddings belong to live chunks and their present content, one document row per source with the digest last indexed |
| `KnowledgeStore.EmbeddingsAreCurrent` | src/aios/knowledge/engine.py:131-192 | After any run every embedding is the vector of the content now stored under its identifier |
| `KnowledgeResults.EmbeddedIff` | src/aios/knowledge/engine.py:148-192 | After an embedding run a chunk has an embedding exactly if it had one, or stands among those to embed at a position whose batch of 32 and all batches before it the provider answered, far enough for it; the run reports the number of these positions |
| `KnowledgeStore.EveryCharacterIsStored` | src/aios/knowledge/store.py:209-298 | After any run, every character of a live document other than white space is in a stored chunk of its source, at its place among the characters which that chunk keeps of its part of the text |
| `KnowledgeStore.ChunksAreCurrentIff` | src/aios/knowledge/store.py:238-268 | When indexing leaves the chunks of the content just given, exactly: if its digest is new for the source, or it is cut into the same chunks as the content indexed before |
| `KnowledgeIndex.IndexingKeepsSyncedIff` | src/aios/knowledge/store.py:232-268 | Indexing under any document identifier keeps the three tables in step if and only if the document is known or the new chunks fit over the stored ones |
| `ContextBudget.GuardrailSurvivesIff` | src/aios/context/assembly.py:1-6 | A guardrail survives assembly if and only if no layer of the input with the same words has a higher precedence, or the same precedence and an earlier place; a task layer, if and only if no task layer before it has the same words, whatever the other layers, the budget and the caps |
| `ContextBudget.FitIs` | src/aios/context/assembly.py:108-138 | Closed form of the budget loop: either everything fits, or a front is kept unchanged, the layer that exhausts the budget keeps exactly its first words that fit (or is dropped), and behind it only what costs nothing is kept; with the audit entries of all that |
| `ContextBudget.AssemblyAccountsForEveryLayer` | src/aios/context/assembly.py:167-187 | Input layers = final layers + `dropped_duplicate` entries + `dropped` entries |
| `ContextResults.AuditBalances` | src/aios/context/assembly.py:167-187 | The audit accounts for every token: the tokens of the input are those of the result and those that the entries report as gone |
| `ContextBudget.TruncateTwice` | src/aios/context/assembly.py:78-140 | Truncating a second time changes no layer, and reports nothing unless a cap is negative |
| `ContextAssembler.AssembleLayers` | src/aios/context/assembly.py:167-187 | Result, audit and final layer objects of the whole assembly |
| `ConventionalCommit.RoundTripIff` | src/aios/backlog/runner.py:87-91 | Parsing gives back what the commit factory printed if and only if the parts are well formed (word type, scope without closing parenthesis, trimmed one-line subject that ends in no tag of its own when the version is empty, proper version), or all empty |
| `ConventionalCommit.ParsesIff` | src/aios/backlog/parser.py:8-19 | Parsing yields given parts exactly if the trimmed title is the type, optionally a scope in parentheses, a colon, white space, the subject and, if there is a version, white space and the version in parentheses, in whatever way |
| `ConventionalCommit.SplitBodyIsFirst` | src/aios/backlog/parser.py:8 | The subject and version found are the way to match that greedy and lazy matching with backtracking tries first, if there is any |
| `Porcelain.ReadBackIff` | src/aios/agents/git.py:198-201 | An entry is read back for all paths if and only if its rename or copy, if any, is in the first column |
| `PorcelainRecords.PathsAre` | src/aios/agents/git.py:190-204 | For any records, well-formed or not: the paths reported are those behind the first three characters of the records that are not taken for the source of a rename or copy before them and report a path that is renamed, copied or not deleted, in order |
| `Learning.RunsAreSound` | src/aios/learning/engine.py:157-303 | After any run: at most one candidate per hash is not rejected, versions are 1 exactly for ingested candidates and 0 otherwise, and each review log is exactly the one of the candidate's state (ingested: one approval, then one ingestion) |
| `LearningResults.ExtractedIff` | src/aios/learning/engine.py:157-188 | Extraction adds a scored candidate for a hash exactly if some observation with that hash has evidence, enough of it, and a confidence that reaches the threshold, and every candidate with that hash so far is rejected |
| `LearningResults.IngestsIff` | src/aios/learning/engine.py:258-303 | In every run: a candidate is ingested exactly if its approval is all that was decided about it and there is a memory engine; its version is then 1 and it names its memory entry, or the error of storing it; otherwise nothing changes and the error says why |
| `Percentile.SummaryIs` | src/aios/telemetry/benchmark.py:93-116 | A summary holds the number of samples, the smallest and the largest, their sum divided by their number, and the values that stand at 50, 95 and 99 hundredths of the way from the first to the last of them in order |
| `TelemetryRuns.MarkIsFromCall` | src/aios/telemetry/writer.py:104-111 | What a thread inside its call compares with is what had been enqueued when it called, whatever ran in between |
| `TelemetryRuns.FlushesAreCounted` | src/aios/telemetry/writer.py:213-216 | In every reachable state `flush_count` is the number of successful writes of the run |
| `TelemetryRuns.OnlyKnownTablesAreCommitted` | src/aios/telemetry/store.py:592-605 | In every reachable state all committed records belong to tables the store knows |
| `TelemetryRuns.ShutdownStopsTheWorker` | src/aios/telemetry/writer.py:148-161 | A shutdown stops the writer at once and for good; from then on the worker starts no flush |
| `TelemetryRuns.AnyoneMayCall` | src/aios/telemetry/writer.py:104-161 | Outside its calls every thread can call `flush`, the worker only before a shutdown, and every thread but the worker `shutdown` |
| `TelemetryProtocol.StepKeepsInv` | src/aios/telemetry/writer.py:90-221 | Every single action (enqueue, call, acquire, drain, commit, count, locked failure, fatal failure) keeps the ledger and the lock discipline |
| `TelemetryProtocol.ReachableInv` | src/aios/telemetry/writer.py:90-221 | The ledger and the lock discipline hold in every state any run of actions reaches |
| `TelemetryProtocol.ReturningLeavesNothingOld` | src/aios/telemetry/writer.py:113-142 | The three ways back from `flush` leave nothing held and only records in the buffer that were enqueued after the call |
| `TelemetryProtocol.ShutdownCanLose` | src/aios/telemetry/writer.py:148-161 | The module's promise that a graceful shutdown loses nothing (lines 19-22, 151-152) is too strong: a concrete run in which `shutdown` drops the one buffered record |
| `TelemetryProtocol.StepLosesIff` | src/aios/telemetry/writer.py:90-221 | Exactly these three actions lose records; every other action of any thread loses none |
| `BufferedWriter.RoundFits` | src/aios/telemetry/writer.py:119-136 | A round that meets a lock loses nothing exactly if the batch and what arrives during its write and its sleep fit into the buffer; then the next batch is the old one with the arrivals behind it |
| `BufferedWriter.FirstWriteDecides` | src/aios/telemetry/writer.py:119-142 | An accepted first write commits exactly the old buffer, per table in order, and leaves what arrived while it ran; a first error that is not a lock, or one unknown table, loses the whole batch |
| `TelemetryFlush.LastWriteDecides` | src/aios/telemetry/writer.py:117-142 | A write that is not retried ends the flush: if the store takes it and knows all tables, the batch is appended to its tables in order and counted; otherwise it is lost and counted. What arrived while it ran stays buffered, the newest first |
| `TelemetryFlush.LockedWriteIsRetried` | src/aios/telemetry/writer.py:119-136 | After a lock the flush goes on with the oldest of batch and arrivals that fit, and of those and what arrives during its sleep the newest that fit |
| `TelemetryFlush.WritesUntilNotLocked` | src/aios/telemetry/writer.py:117-142 | A flush tries writes until one of them does not meet a lock, or no retry is left |
| `TelemetryFlush.WritingIs` | src/aios/telemetry/writer.py:113-124 | While a write runs only what arrives meanwhile is buffered, the newest of it |
| `TelemetryFlush.EmptyFlush` | src/aios/telemetry/writer.py:113-116 | A flush of an empty buffer changes nothing and tries no write |
| `BufferedWriter.RedrainFindsABatch` | src/aios/telemetry/writer.py:134-136 | After a requeue the second drain is never empty, whatever arrived meanwhile, so the second early return is dead code |
| `BufferedWriter.KnownByTable` | src/aios/telemetry/store.py:592-605 | A batch passes `insert_many` table by table exactly if every one of its records has a known table |
| `BufferedWriter.TelemetryWriter.constructor` | src/aios/telemetry/writer.py:59-84 | A new writer has an empty buffer and zero counters |
| `BufferedWriter.TelemetryWriter.Enqueue` | src/aios/telemetry/writer.py:90-98 | The new state: the buffer is the newest of the old entries and the new one that fit, and an evicted entry is counted; the wake flag is set from the batch size on |
| `BufferedWriter.TelemetryWriter.Drain` | src/aios/telemetry/writer.py:191-195 | Takes exactly the buffer and leaves it empty |
| `BufferedWriter.TelemetryWriter.PushFront` | src/aios/telemetry/writer.py:202 | The element-wise loop of `extendleft(reversed(batch))` on a bounded deque, specified by a fold that `ExtendLeftRestoresBatch` puts in closed form |
| `BufferedWriter.TelemetryWriter.Requeue` | src/aios/telemetry/writer.py:197-202 | The new state, with the overflow counted exactly |
| `BufferedWriter.TelemetryWriter.Group` | src/aios/telemetry/writer.py:205-207 | Tables in order of first appearance, each with its rows in batch order |
| `BufferedWriter.TelemetryWriter.InsertGroups` | src/aios/telemetry/writer.py:209-211 | All groups are inserted, or nothing is: an unknown table rolls the transaction back |
| `BufferedWriter.TelemetryWriter.Write` | src/aios/telemetry/writer.py:204-216 | Writes and counts the whole batch or changes nothing |
| `BufferedWriter.TelemetryWriter.Drop` | src/aios/telemetry/writer.py:218-221 | Counts the batch as dropped |
| `BufferedWriter.TelemetryWriter.Arrive` | src/aios/telemetry/writer.py:90-98 | What other threads enqueue while a write runs or while the flush sleeps, one record after the other |
| `BufferedWriter.TelemetryWriter.Flush` | src/aios/telemetry/writer.py:104-142 | The retry loop: final state and number of writes for every store behaviour and everything that arrives during its writes and its sleeps |
| `TelemetryLedger.GroupingKeepsRows` | src/aios/telemetry/writer.py:204-211 | Writing table by table commits exactly the batch and keeps the order inside every table |
| `TelemetryLedger.EnqueueEvictsOldest` | src/aios/telemetry/writer.py:90-98 | One record: the buffer is the last min(maxlen, n + 1) of the n old entries and the new one; the one that is cut off, if any, is the oldest, and is counted |
| `TelemetryLedger.RequeueDropsNewest` | src/aios/telemetry/writer.py:197-202 | A requeue: the buffer is the first min(maxlen, n) of the n entries of batch and buffer; what is cut off is the newest, and is counted |
| `TelemetryLedger.TablesByFirstAppearance` | src/aios/telemetry/writer.py:205-207 | Tables are written in the order in which they first appear in the batch |
| `TelemetryLedger.GroupedByFirstAppearance` | src/aios/telemetry/writer.py:205-211 | So are their rows |
| `TelemetryLedger.EnqueueKeepsLedger` | src/aios/telemetry/writer.py:90-98 | Enqueue keeps every record in exactly one place, in order, with drops counted exactly |
| `TelemetryLedger.DrainKeepsLedger` | src/aios/telemetry/writer.py:191-195 | So does draining the buffer into a held batch |
| `TelemetryLedger.RequeueKeepsLedger` | src/aios/telemetry/writer.py:197-202 | So does requeueing, despite evicting the newest records |
| `TelemetryLedger.CommitKeepsLedger` | src/aios/telemetry/writer.py:209-211 | So does committing the held batch, grouped by table |
| `TelemetryLedger.DropKeepsLedger` | src/aios/telemetry/writer.py:218-221 | So does dropping the held batch |
| `TelemetryLedger.CountKeepsLedger` | src/aios/telemetry/writer.py:213-216 | So does updating the counters after the commit |
| `TelemetryLedger.TableOrderIsKept` | src/aios/telemetry/writer.py:191-216 | Per table the committed, held and buffered rows are a subsequence of the enqueue order |
| `TelemetryLedger.CommittedAtMostOnce` | src/aios/telemetry/writer.py:191-221 | No record is in two places at once |
| `AgentExecutor.LoopEnds` | src/aios/agents/executor.py:220-389 | The loop ends at the first attempt that is cancelled or not retried, after at most max(1, max_attempts) attempts |
| `ExecutionResults.RetriedIff` | src/aios/agents/executor.py:446-449 | An attempt is followed by another one exactly if a policy is in force (the request's, or else the agent's), it allows more attempts, and it lists the code of the raised timeout, or of the raised error of unknown kind |
| `ExecutionResults.RefusalTellsWhy` | src/aios/agents/executor.py:134-197 | A request that fails a check ends after one failed event with the code for its task or for lack of permission |
| `ExecutionResults.TraceOpens` | src/aios/agents/executor.py:130-218 | The trace of every accepted request opens with the four lifecycle events that lead to running |
| `ExecutionResults.TraceOfRetried` | src/aios/agents/executor.py:313-371 | Each attempt before the last leaves its start, a retried event with its error code, and the lifecycle event for running again, at its place in the trace |
| `ExecutionResults.PausesDouble` | src/aios/agents/executor.py:451-454 | The first pause is the base delay, and each further one is twice the one before |
| `ExecutionResults.AuditTellsIntent` | src/aios/agents/executor.py:162-206 | The security events tell whether an intent was checked, after task and capabilities, and with what result |
| `AgentExecutor.RoundsAreMidTrace` | src/aios/agents/executor.py:220-371 | Before every attempt the trace so far is linked, non-terminal and counts one retried event for each earlier attempt |
| `AgentExecutor.RefusalIsWellFormed` | src/aios/agents/executor.py:118-197 | A refused task has a well-formed trace with no started event |
| `AgentExecutor.CancelIsWellFormed` | src/aios/agents/executor.py:222-235 | Cancellation before an attempt ends the trace properly and counts the attempt that never started |
| `AgentExecutor.FinishIsWellFormed` | src/aios/agents/executor.py:268-389 | Success, failure and timeout end the trace properly |
| `AgentExecutor.AgentExecutor.Attempts` | src/aios/agents/executor.py:220-389 | The attempt loop against its specification, with its invariant |
| `AgentExecutor.AgentExecutor.Attempt` | src/aios/agents/executor.py:222-389 | One round: cancelled, retried with its pause, or final |
| `AgentExecutor.AgentExecutor.Admit` | src/aios/agents/executor.py:130-218 | The checks in order, their refusals and security events, or a running lifecycle |
| `AgentExecutor.AgentExecutor.Publish` | src/aios/agents/executor.py:471-524 | One event gets the next number; nothing is numbered without a bus |
| `AgentLifecycle.AgentLifecycle.Transition` | src/aios/agents/lifecycle.py:62-69 | A transition happens exactly if the table allows it, and otherwise changes nothing; start time once, finish time on terminal states |
| `AgentLifecycle.ChainsEndInTerminal` | src/aios/agents/lifecycle.py:32-48 | Along any chain of transitions a terminal state can only be last and only `running` repeats |
| `AgentLifecycle.ChainOnlyAdvances` | src/aios/agents/lifecycle.py:32-48 | States never go back along a chain |
| `AgentLifecycle.TransitionsAre` | src/aios/agents/lifecycle.py:32-48 | Which transitions there are: from a state that is not terminal to failure, to cancellation, one step on, or from running to itself |
| `Kanban.GateAndBlockArePermanent` | src/aios/scheduler/store.py:189-202 | No later operation removes a card, takes its gate back or unblocks it |
| `Kanban.BeginWorkSucceeds` | src/aios/scheduler/engine.py:141-144 | `begin_work` succeeds for every existing card from any column and changes only its column |
| `Kanban.CompleteWorkSucceeds` | src/aios/scheduler/engine.py:146-150 | `complete_work` succeeds exactly from InProgress, Review and Done, and otherwise changes nothing |
| `Kanban.RefusedDoneBlamesTheGate` | src/aios/scheduler/engine.py:84-108 | When a move into Done is refused, and that the published reason (missing gate) is untrue exactly for a gated card that would skip a column |
| `KanbanResults.MovesIff` | src/aios/scheduler/store.py:164-187 | Column by column where a card may go, and what a move, a move to the same column and a refused move do to the board and the events |
| `KanbanResults.CardsAreNumbered` | src/aios/scheduler/store.py:110-131 | After any run the cards are numbered 1, 2, 3, ... by their creation, and none is lost |
| `KanbanResults.ApplyFlags` | src/aios/scheduler/store.py:164-202 | What one operation does to the flags, the reason and the board of a card |
| `KanbanResults.WorkAnnounces` | src/aios/scheduler/engine.py:141-150 | The moves that beginning and completing work announce, from every column |
| `Kanban.ApplyKeepsConsistent` | src/aios/scheduler/store.py:110-202 | Every single operation keeps the consistency of board and event log |
| `Kanban.KanbanStore.CreateCard` | src/aios/scheduler/store.py:110-131 | A new card starts in Backlog, ungated and unblocked |
| `Kanban.KanbanStore.MoveCard` | src/aios/scheduler/store.py:164-187 | The move rules: unknown column or card, gate before Done, no skipped column, same column allowed |
| `Kanban.KanbanStore.PassTddGate` | src/aios/scheduler/store.py:189-194 | Sets the gate of an existing card, nothing else |
| `Kanban.KanbanStore.SetBlocked` | src/aios/scheduler/store.py:196-202 | Sets the blocked flag and reason of an existing card, nothing else |
| `Kanban.KanbanEngine.MoveCard` | src/aios/scheduler/engine.py:84-121 | The move with its events: moved on change, blocked on a refused move into Done |
| `Kanban.KanbanEngine.BlockCard` | src/aios/scheduler/engine.py:123-136 | Blocks an existing card and announces it with the column it is in; for a missing card nothing changes and nothing is announced |
| `Kanban.KanbanEngine.BeginWork` | src/aios/scheduler/engine.py:141-144 | Two moves; succeeds exactly for existing cards |
| `Kanban.KanbanEngine.CompleteWork` | src/aios/scheduler/engine.py:146-150 | Move, gate, move; succeeds exactly from InProgress, Review, Done |
| `Workflow.VerdictsDoNotDecide` | src/aios/workflow/engine.py:259-270 | The verdicts of research, reviewer and documentation change neither the steps that run nor success |
| `WorkflowResults.StopsIff` | src/aios/workflow/engine.py:186-398 | Which answers of agents, gates and git stop a run, step by step |
| `WorkflowResults.StageSucceedsIff` | src/aios/workflow/engine.py:186-398 | Which answers mark a stage as successful, step by step |
| `WorkflowResults.StopLeaves` | src/aios/workflow/engine.py:186-398 | The error each of these stops leaves |
| `WorkflowResults.EarlyStop` | src/aios/workflow/engine.py:186-398 | A run is cut behind the first step that stops it, and leaves the error of that step |
| `WorkflowResults.CompletedTells` | src/aios/workflow/engine.py:490-529 | The number of completed subtasks is that of the developers that succeeded before the first failure |
| `Workflow.NoopIff` | src/aios/workflow/engine.py:457-465 | A run should have changed code and did not exactly if there is git, the task is an implementation, and no path under src/ or tests/ is changed after but not before the developers |
| `Workflow.WorkedCard` | src/aios/workflow/engine.py:491-518 | One subtask turns its waiting card into a finished one, or leaves it in InProgress and blocked, with all other cards untouched |
| `Workflow.CompletedCardsEndBoard` | src/aios/workflow/engine.py:531-555 | After all developers the board is final, except that a no-op implementation blocks its last card in Done |
| `Workflow.RanStops` | src/aios/workflow/engine.py:186-398 | What ran ends with the first step that halts, or is everything |
| `Workflow.ClearMeansNoneHalts` | src/aios/workflow/engine.py:186-398 | No step before the commit halts exactly under that condition |
| `Workflow.WorkflowEngine.RunPlanPhase` | src/aios/workflow/engine.py:418-440 | Optional research stage, then planner; a failed planner stops the run |
| `Workflow.WorkflowEngine.RunGate` | src/aios/workflow/engine.py:652-724 | A gate that is not configured is skipped; the run goes on exactly if the gate passed, was skipped, or failed without the policy blocking, and stops if it crashed |
| `Workflow.WorkflowEngine.RunDevelopers` | src/aios/workflow/engine.py:490-529 | The loop invariant: the first i cards are Done, gated and unblocked, the rest wait in Backlog, completed_count is i; on failure the current card is in InProgress and blocked |
| `Workflow.WorkflowEngine.CheckProduced` | src/aios/workflow/engine.py:531-555 | The no-op check of implementation tasks |
| `Workflow.WorkflowEngine.RunTestPhase` | src/aios/workflow/engine.py:283-315 | Failed tests stop the run; a missing report counts as none failed |
| `Workflow.WorkflowEngine.RunCommitPhase` | src/aios/workflow/engine.py:368-396 | Stage and commit, or skip without git |
| `Chunking.EndlessText` | src/aios/knowledge/chunking.py:142-160 | For all other sizes, a text on which its loop runs for ever; for an overlap longer than the window this goes through positions before the text, with the meaning that negative indices have in searches |
| `Chunking.AdvancesIff` | src/aios/knowledge/chunking.py:144-160 | Each window of every text starts behind the one before exactly for the same sizes |
| `Chunking.StepAdvances` | src/aios/knowledge/chunking.py:144-160 | Each step that is not the last advances by at least max_chars - 2 * overlap, and by one more if there is an overlap |
| `Chunking.StuckText` | src/aios/knowledge/chunking.py:144-160 | For the other sizes whose overlap is not longer than the window, a text on which the first window is followed by itself |
| `Chunking.WindowEndsBehindBreak` | src/aios/knowledge/chunking.py:147-155 | A window that is not the last ends behind the last paragraph break of its overlap zone, else the last line break, else the last sentence end, else at its full size |
| `Chunking.TilingCovers` | src/aios/knowledge/chunking.py:136-162 | Every position of the text is in some window |
| `Chunking.SizeSpansKeep` | src/aios/knowledge/chunking.py:136-162 | No character other than white space is lost |
| `Chunking.TrimIsStrip` | src/aios/knowledge/chunking.py:157 | The trimmed span of a window is its stripped text, and is empty exactly if the window is blank |
| `Chunking.FindBreakpoint` | src/aios/knowledge/chunking.py:149-153 | Paragraph break, else line break, else sentence end, each the last one in range |
| `Chunking.ChunkBySize` | src/aios/knowledge/chunking.py:136-162 | The loop returns exactly the stripped non-blank windows; it terminates |
| `SizeSplit.CutsAreUnique` | src/aios/knowledge/chunking.py:136-162 | There is only one such way to cut a text |
| `SizeSplit.ShortTextIsOneChunk` | src/aios/knowledge/chunking.py:136-140 | A text that fits into one window is one chunk, stripped; a blank text is none |
| `Sections.DocumentChunks` | src/aios/knowledge/chunking.py:74-128 | Every chunk is stripped and not blank, and longer than 4096 characters only as a heading or as the preamble of a code file |
| `Sections.NoChunkIsBlank` | src/aios/knowledge/chunking.py:97-128 | The final filter of blank chunks never removes one |
| `Sections.FindAllMarks` | src/aios/knowledge/chunking.py:75-106 | Matches are in order, apart, non-empty and start with something other than white space |
| `Sections.FindAllComplete` | src/aios/knowledge/chunking.py:75-106 | Every place where the pattern matches is a match start or lies inside an earlier match |
| `ChunkStarts.SymbolsAreMarks` | src/aios/knowledge/chunking.py:105-106 | In code a match starts exactly at each line that starts with one of the three keywords, and ends behind it |
| `ChunkStarts.HeadingMatches` | src/aios/knowledge/chunking.py:75 | Elsewhere the pattern matches exactly at line starts with one to six hashes, white space and a title |
| `Sections.SizeSpansOfKeep` | src/aios/knowledge/chunking.py:84-93 | Splitting a part of the text by size loses no character of that part other than white space |
| `Sections.SectionKeeps` | src/aios/knowledge/chunking.py:86-95 | A section keeps all its characters, also when its heading is cut off and its body split |
| `Sections.ChunkPreamble` | src/aios/knowledge/chunking.py:81-115 | Markdown preambles are split by size, code preambles are one chunk |
| `Sections.ChunkSection` | src/aios/knowledge/chunking.py:117-126 | One chunk, or for a long section the heading and the split body |
| `Sections.ChunkDocument` | src/aios/knowledge/chunking.py:74-128 | The two chunkers return exactly the chunks of the specification |
| `Normalization.NormalizeYieldsNormal` | src/aios/knowledge/chunking.py:17-22 | The result has no trailing white space in a line, no blank line at either end and at most two in a row |
| `Normalization.NormalIsFixed` | src/aios/knowledge/chunking.py:17-22 | A text in that form is left as it is |
| `Normalization.NormalizeKeepsLines` | src/aios/knowledge/chunking.py:17-22 | Every line that is not blank stays, in order, without its trailing white space |
| `NormalizedText.NormalizeOfStrip` | src/aios/knowledge/chunking.py:17-22 | Stripping a text before normalizing it is removing leading white space afterwards, so the normalized form of a stripped text depends on the digest of the text only |
| `NormalizedText.InkOfSplitLines` | src/aios/knowledge/chunking.py:19-21 | Cutting a text into lines, at any of the line boundaries, keeps every character other than white space |
| `Normalization.NormalizeIs` | src/aios/knowledge/chunking.py:17-22 | The second splitting and trimming inside normalization is without effect |
| `Normalization.SplitLinesOfJoin` | src/aios/knowledge/chunking.py:19-21 | Splitting joined lines gives the lines back |
| `Normalization.SqueezeRuns` | src/aios/knowledge/chunking.py:174-183 | Runs of empty lines are cut to at most two |
| `Normalization.CollapseBlankLines` | src/aios/knowledge/chunking.py:170-186 | The three loops compute the specified collapse |
| `LineLaws.CollapseCuts` | src/aios/knowledge/chunking.py:170-186 | Blank lines at both ends go, and of every run of blank lines in between the first two stay |
| `LineLaws.SqueezeAround` | src/aios/knowledge/chunking.py:174-183 | Runs of blank lines are cut separately on both sides of a line that is not blank |
| `LineLaws.SqueezeOfBlanks` | src/aios/knowledge/chunking.py:174-183 | A run of blank lines is cut to its first two |
| `LineLaws.BlankLinesCollapse` | src/aios/knowledge/chunking.py:170-186 | Nothing stays of lines that are all blank |
| `LineLaws.LineEndsAtBreak` | src/aios/knowledge/chunking.py:20 | Each line boundary ends a line and is not part of one |
| `LineLaws.LineEndsAtReturnAndFeed` | src/aios/knowledge/chunking.py:20 | A carriage return with the line feed behind it is one boundary |
| `LineLaws.JoinLinesConcat` | src/aios/knowledge/chunking.py:19 | Lines are joined by one line feed between two of them and nothing else |
| `KnowledgeResults.IndexingMakesLive` | src/aios/knowledge/store.py:209-298 | In every run, indexing a source of one of the seven kinds makes its content the live one unless the digest is that of the live one already; any other kind changes nothing |
| `KnowledgeIndex.DerivedKeepsSynced` | src/aios/knowledge/store.py:209-298 | With derived identifiers it always does, the stored chunks then come from a content with the digest just given, and other sources are untouched |
| `KnowledgeIndex.ReindexingChangesNothing` | src/aios/knowledge/store.py:238-242 | Indexing a content with the same digest again changes no table |
| `KnowledgeIndex.ClearingKeepsSynced` | src/aios/knowledge/store.py:589-599 | Deleting a source removes exactly its chunks, full-text rows and embeddings |
| `KnowledgeIndex.InsertSyncedIff` | src/aios/knowledge/store.py:266-268 | When inserting chunks at their positions keeps the tables in step, exactly |
| `KnowledgeIndex.InsertRowsBreak` | src/aios/knowledge/store.py:619-631 | Inserting over stored chunks gives a second full-text row |
| `KnowledgeIndex.WithChunksOverwrites` | src/aios/knowledge/store.py:601-618 | Position-based identifiers overwrite earlier chunks at the same positions and touch no others |
| `KnowledgeIndex.ChunkText` | src/aios/knowledge/chunking.py:38-66 | The contents of the chunks: raw chunks, each normalized |
| `KnowledgeStore.SkipLeavesOldChunks` | src/aios/knowledge/store.py:238-242 | A skipped indexing can leave chunks that are not those of the content just given: white space that the digest ignores decides where a text is cut |
| `KnowledgeStore.UncutDigestDecides` | src/aios/knowledge/store.py:238-268 | This holds for all texts of at most 4096 characters in which there is no heading or symbol to cut at: among them equal digests give equal chunks |
| `KnowledgeStore.UncutIsOneChunk` | src/aios/knowledge/chunking.py:38-71 | Such a text is stored as one chunk, its normalized form without leading white space, or not at all if it is blank |
| `KnowledgeStore.ChunkTextKeeps` | src/aios/knowledge/chunking.py:51-58 | Each stored chunk has exactly the characters other than white space of its part of the text, in order |
| `KnowledgeStore.GivenIdentifiersDuplicate` | src/aios/knowledge/store.py:215-251 | One source indexed under two given identifiers appears twice in the full-text table |
| `KnowledgeStore.EmbeddingKeepsSynced` | src/aios/knowledge/engine.py:131-192 | Embedding keeps the tables in step for every behaviour of the provider |
| `KnowledgeStore.EmbeddingCompletes` | src/aios/knowledge/engine.py:148-192 | If every batch is answered completely, all listed chunks are embedded and the next run finds nothing to do |
| `KnowledgeStore.BatchesAdd` | src/aios/knowledge/engine.py:165-190 | The batches only add rows for unembedded chunks, each from its stored content |
| `KnowledgeStore.BatchesCover` | src/aios/knowledge/engine.py:165-190 | Complete replies leave no chunk of the list without row |
| `KnowledgeResults.EmbeddedRows` | src/aios/knowledge/engine.py:175-190 | Embeddings there were stay, and a new one is the vector of what is stored |
| `KnowledgeResults.TodoKeepsOrder` | src/aios/knowledge/engine.py:148-161 | The chunks to embed are taken in the order listed |
| `KnowledgeResults.IndexingTouchesOneSource` | src/aios/knowledge/store.py:209-298 | Under whatever identifier a source is indexed, chunks and embeddings of other sources stay as they are; its own row holds the new digest, or what it held if the indexing is skipped |
| `KnowledgeResults.ChunksNameTheirDocument` | src/aios/knowledge/store.py:601-618 | In every run each chunk names the document of its own source, and that document is stored |
| `KnowledgeStore.KnowledgeStore.IndexDocument` | src/aios/knowledge/store.py:209-298 | The whole new state and the reported action, for any type, identifier and content; `DocumentIsItsSections` says what the chunks are |
| `KnowledgeStore.KnowledgeStore.DeleteChunksForSource` | src/aios/knowledge/store.py:589-599 | The whole new state |
| `KnowledgeStore.KnowledgeStore.InsertChunk` | src/aios/knowledge/store.py:601-631 | The whole new state |
| `KnowledgeStore.KnowledgeStore.SaveBatch` | src/aios/knowledge/engine.py:175-190 | Saves one row for each vector returned, up to the batch |
| `KnowledgeStore.KnowledgeStore.EmbedIndexed` | src/aios/knowledge/engine.py:131-192 | New embedding table and count; a failed batch ends the run, a short reply does not; the status and the skipped count for every provider |
| `ContextAssembly.OrderIsStableSort` | src/aios/context/assembly.py:32-34 | The result is sorted by precedence and keeps the layers of each precedence in order |
| `ContextAssembly.StableSortIsUnique` | src/aios/context/assembly.py:32-34 | There is only one such list |
| `ContextAssembly.SurvivorIsBest` | src/aios/context/assembly.py:32-75 | A layer survives ordering and deduplication only as the earliest of the highest precedence among its duplicates |
| `ContextAssembly.SurvivesIffBest` | src/aios/context/assembly.py:32-75 | And exactly then: no layer with the same words has a higher precedence, or the same precedence and an earlier place in the input |
| `ContextAssembly.EveryDigestSurvives` | src/aios/context/assembly.py:53-75 | Each group of duplicates keeps a representative |
| `ContextAssembly.DedupeKeeps` | src/aios/context/assembly.py:53-75 | Deduplication keeps the order and adds nothing |
| `ContextAssembly.DedupeKeepsDigest` | src/aios/context/assembly.py:53-75 | Deduplication keeps every digest |
| `ContextAssembly.DedupeDistinct` | src/aios/context/assembly.py:53-75 | No two kept layers have the same digest |
| `ContextAssembly.DedupeCounts` | src/aios/context/assembly.py:53-75 | Every layer is kept or has its `dropped_duplicate` entry |
| `ContextResults.OrderFollowsPrecedence` | src/aios/context/layers.py:28-35 | Task, user, project, global, research, retrieved: in this order no layer comes before one of an earlier type |
| `ContextResults.DuplicatesIff` | src/aios/context/assembly.py:37-39 | Two layers count as duplicates exactly if they have the same words in the same order, apart from case |
| `Text.SplitOfJoin` | src/aios/retrieval/selector.py:164-170 | Splitting joined words gives the words back, which truncation rests on |
| `ContextBudget.TruncatedCount` | src/aios/retrieval/selector.py:164-170 | Truncated text has as many words as allowed, or all it had |
| `ContextBudget.TruncatedKeepsFirstWords` | src/aios/retrieval/selector.py:164-170 | Truncated text consists of the first words of the text, as many as are allowed; a text that fits is left as it is |
| `ContextBudget.TruncateKeepsGuardrails` | src/aios/context/assembly.py:78-140 | Truncation keeps every guardrail unchanged |
| `ContextBudget.TruncateStaysWithinBudget` | src/aios/context/assembly.py:108-138 | The other layers stay within max(0, budget - guardrail tokens) |
| `ContextBudget.TruncateRespectsCaps` | src/aios/context/assembly.py:97-106 | No layer that is kept exceeds its cap, guardrails excepted |
| `ContextBudget.DefaultCapsAreRespected` | src/aios/context/assembly.py:22-29 | With the default caps, research layers stay within 1500 tokens and global, project and user layers within 4000, guardrails excepted |
| `ContextAssembly.TaskIsBestIff` | src/aios/context/layers.py:37-38 | For a task layer that condition is that no task layer before it in the input has the same words |
| `ContextBudget.OutrankedGuardrailIsDropped` | src/aios/context/assembly.py:1-6 | "Never dropping guardrail layers" is false of assembly: every guardrail with the content of a layer of higher precedence is dropped |
| `ContextBudget.DuplicateGuardrailIsDropped` | src/aios/context/assembly.py:1-6 | A concrete one: a global guardrail behind a user layer with the same content |
| `ContextBudget.FitWithin` | src/aios/context/assembly.py:111-138 | The budget loop keeps guardrails and never spends more than it has |
| `ContextBudget.FitCounts` | src/aios/context/assembly.py:111-138 | Every layer is kept, perhaps cut, or has its `dropped` entry |
| `ContextResults.CapCutsIff` | src/aios/context/assembly.py:97-106 | A layer is cut to its cap exactly if there is one, the layer is neither a task nor a guardrail, and it has more tokens; then it keeps its first words |
| `ContextResults.DefaultCapsCut` | src/aios/context/assembly.py:22-29 | With the default caps: research layers to their first 1500 words, global, project and user layers to their first 4000 |
| `ContextResults.TruncateSpends` | src/aios/context/assembly.py:108-138 | What all guardrails together cost comes off the budget first, and what is left is spent on the capped layers in order |
| `ContextResults.DuplicatesReported` | src/aios/context/assembly.py:59-74 | The duplicates reported are exactly the layers with the words of an earlier one, with all their tokens gone |
| `ContextResults.CapsReported` | src/aios/context/assembly.py:97-106 | The cuts reported for the caps are exactly those made, with the tokens before and after |
| `ContextResults.AddedReported` | src/aios/context/assembly.py:176-177 | Every layer that is no duplicate is reported as added, in order |
| `ContextResults.ReportedInTurn` | src/aios/context/assembly.py:59-106 | Entries stand in the order of the layers they are about |
| `ContextResults.AuditInPhases` | src/aios/context/assembly.py:167-187 | Duplicates are reported first, then what is added, then what is cut or dropped |
| `ContextResults.TruncatedIff` | src/aios/context/assembly.py:167-187 | A result is marked truncated exactly if it reports a cut or a drop |
| `ContextAssembler.DedupeLayers` | src/aios/context/assembly.py:53-75 | The loop keeps the specified layers and returns different objects, whatever the input list repeats |
| `ContextAssembler.ApplyCaps` | src/aios/context/assembly.py:97-106 | Cuts layers in place to their caps, with audit entries |
| `ContextAssembler.FitLayers` | src/aios/context/assembly.py:111-138 | Keeps, cuts in place or drops layers within the budget, with audit entries |
| `ContextAssembler.TruncateLayers` | src/aios/context/assembly.py:78-140 | Caps, then budget, on the layer objects; `CapCutsIff` and `FitIs` say which words stay |
| `ConventionalCommit.ParsePrintParse` | src/aios/backlog/parser.py:8-19 | Printing what was parsed and parsing it again changes nothing |
| `ConventionalCommit.ParseIsWellFormed` | src/aios/backlog/parser.py:11-19 | Whatever is parsed is well formed, unless nothing is |
| `ConventionalCommit.SplitHeadIff` | src/aios/backlog/parser.py:8 | There is at most one way to match type, scope and colon, and it is the one found |
| `ConventionalCommit.SubjectEndIs` | src/aios/backlog/parser.py:8 | The lazy search stops at the first place where the rest is a tag or nothing, and fails exactly at an earlier line feed |
| `CommitTitles.VersionIff` | src/aios/backlog/parser.py:8 | A version is the letter v and three numbers with dots between them |
| `CommitTitles.TagIff` | src/aios/backlog/parser.py:8 | A tag is a version in parentheses at the end |
| `CommitTitles.ParseIgnoresMargins` | src/aios/backlog/parser.py:16 | White space around a title makes no difference |
| `Porcelain.ParseOfWritten` | src/aios/agents/git.py:173-204 | For entries with renames and copies in the first status column the parser returns exactly the new paths, in order, of renames, copies and whatever is not a deletion |
| `Porcelain.SourceIsReported` | src/aios/agents/git.py:198-201 | A rename or copy in the second column only: its source path is reported as an entry |
| `PorcelainRecords.RecordsSplitAtNul` | src/aios/agents/git.py:190 | Records are the pieces between NUL characters, without the empty ones; the last needs no NUL |
| `Porcelain.ParsePorcelain` | src/aios/agents/git.py:173-204 | The loop with its skip flag against the specification by recursion |
| `Learning.RejectedAndIngestedAreFinal` | src/aios/learning/engine.py:190-303 | Rejected and ingested candidates never change again |
| `Learning.NextFollows` | src/aios/learning/engine.py:157-303 | A step forgets no candidate, changes no hash and moves states only forward |
| `Learning.NextKeepsSound` | src/aios/learning/engine.py:157-303 | Every single operation keeps the table sound |
| `Learning.ExtractTwice` | src/aios/learning/engine.py:165-188 | Extracting from the same observations again finds nothing new |
| `Learning.IngestedIffMemory` | src/aios/learning/engine.py:271-340 | An approved candidate becomes ingested exactly if there is a memory engine, even if that fails to store it |
| `Learning.ExtractedKeeps` | src/aios/learning/engine.py:168-188 | Extraction appends scored candidates with fresh hashes only |
| `LearningResults.ApprovesIff` | src/aios/learning/engine.py:190-221 | In every run: a candidate is approved exactly if it exists and nothing was decided about it; otherwise nothing changes and the error says why |
| `LearningResults.RejectsIff` | src/aios/learning/engine.py:223-256 | The same for rejection, which asks for a reason first |
| `LearningResults.ExtractsOne` | src/aios/learning/extractor.py:172-192 | What one observation adds |
| `LearningResults.ExtractsInTurn` | src/aios/learning/engine.py:168-188 | Observations are taken one after the other |
| `Learning.LearningEngine.Extract` | src/aios/learning/engine.py:157-188 | New table and identifiers |
| `Learning.LearningEngine.Approve` | src/aios/learning/engine.py:190-221 | New state and result, or the error and no change |
| `Learning.LearningEngine.Reject` | src/aios/learning/engine.py:223-256 | New state and result, or the error and no change |
| `Learning.LearningEngine.Ingest` | src/aios/learning/engine.py:258-303 | New state and version, or the error and no change |
| `Learning.LearningEngine.InsertCandidate` | src/aios/learning/store.py:179-205 | Appends and returns the identifier |
| `Learning.LearningEngine.UpdateCandidateState` | src/aios/learning/store.py:261-277 | Changes the state of one candidate |
| `Learning.LearningEngine.InsertReview` | src/aios/learning/store.py:290-309 | Appends to the review log |
| `Percentile.SummaryIsOrdered` | src/aios/telemetry/benchmark.py:93-116 | min <= p50 <= p95 <= p99 <= max, min <= mean <= max, the extremes are samples and bound all samples |
| `Percentile.PercentileGrows` | src/aios/telemetry/benchmark.py:79-90 | The percentile of a sorted list never decreases as q grows over [0, 100] |
| `Percentile.PercentileBounded` | src/aios/telemetry/benchmark.py:79-90 | It lies between minimum and maximum |
| `Percentile.PercentileEnds` | src/aios/telemetry/benchmark.py:79-90 | It is the minimum at 0 and the maximum at 100 |
| `Percentile.ValueIsLinear` | src/aios/telemetry/benchmark.py:85-90 | Between two neighbours the percentile moves on a straight line from one to the other |
| `Percentile.PercentileStandsAt` | src/aios/telemetry/benchmark.py:85-90 | The percentile for q stands at the fractional index (n - 1) * q / 100: on a value, or on the straight line between two |
| `Percentile.OrderedSum` | src/aios/telemetry/benchmark.py:106-111 | Ordering does not change the sum |
| `Percentile.OrderedIs` | src/aios/telemetry/benchmark.py:106 | Ordering yields the sorted permutation |
| `Percentile.SummaryIgnoresOrder` | src/aios/telemetry/benchmark.py:93-116 | A summary does not depend on the order of the samples |

## Left out

- SQLite, files, subprocesses, HTTP and configuration; tables are maps and sequences. A COMMIT that fails, and write
  errors other than `sqlite3.Error` and `TelemetryError`, which the writer does not account for.
- Wall-clock time and real scheduling: only the order of atomic steps matters, and every order is considered. Lifecycle
  time stamps are a parameter; flush durations and `metrics` are not modelled.
- Details of `shutdown`: a second call returns at once and the join of the worker may time out; in
  `TelemetryProtocol` any thread may call it at any time and the worker may still be inside its own flush.
- Raising observers (`on_progress`, `notify`), the texts of messages, and the content of event payloads beyond what is
  listed in the datatypes.
- JSON decoding of agent output, which is assumed well formed; how gates and policies come to their results.
- `Kanban.KanbanEngine.BlockCard`: for a missing card the program returns nothing without an event bus and raises an
  error with one; the model says only that no card was found.
- Boards and cards of several projects, subtasks of cards, and the order in which cards are listed.
- `Chunking.ChunkBySize`: requires sizes that advance, or a text that is blank or short; on other sizes there are texts
  on which the program does not return (`EndlessText`), and the chunks of those on which it does are not modelled.
- `KnowledgeStore.KnowledgeStore.EmbedIndexed`: takes the list of all chunks, in the order the queries return them, as a
  parameter, and the provider as a function of each text together with how many vectors each batch gets.
- The knowledge index of more than one project: the deletion of full-text rows is not limited to a project.
- Metadata, titles and time stamps of sources and chunks, the `chunks_deleted` figure, search and retrieval.
- SHA-256: a digest is its input, so that two digests are equal exactly if the inputs are.
- `ContextAssembler.TruncateLayers`: requires that no layer object is listed twice; `AssembleLayers` does not.
- `ContextAssembly.DedupeKeepsDigest`: lower case is ASCII only in the digest; none of the results depends on it.
- Layer tokens are natural numbers; the program does not check that they are not negative.
- `ConventionalCommit.RoundTripIff`: which characters beyond ASCII count as word characters or digits is left open, except
  that white space does not.
- The backlog run loop, `_greedy_select` and `_rank` of the retrieval selector, routing, cost and quality tables,
  capability sets and report comparison: short loops and finite tables.
- `Learning.RunsAreSound`: one project; an advisor that raises is not modelled (nothing has changed by then).
- `Percentile.PercentileGrows`: over exact reals, without rounding.
