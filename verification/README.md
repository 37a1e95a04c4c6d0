# Verification model of the ticketing services

A Dafny model of the services that carry the application's state machines and data structures,
with proofs of what they promise. Database tables are maps and sequences, the clock is a
parameter that does not go backwards where the property needs that, and other workers, failing
writes and crashes are steps that may happen at any point. Objects that the code updates in
place are classes whose methods are proved against functions; the properties are lemmas about
those functions and about whole runs.

`dafny verify dfyconfig.toml` checks the whole project.

| module | what it models |
|---|---|
| ArchiveProtocol | any number of archivers on one audit table and one append-only file |
| Retention, Counts, AuditTable, Numerals | the retention scanner in its plain and archiving form, loop by loop |
| ArchiveLines | the JSONL text of the archive |
| Base64Url, Utf8, Json, Cursors | the cursor codecs, plain and signed |
| AuditPages | keyset paging of the audit log over a changing table |
| AgentRuns, RunQueue, RunAccounting | the agent run queue: dedup, claiming, side effects, totals |
| QueueWorkers, WorkerTotals | many workers on that queue, with transactions and crashes |
| Orchestrator | the demo driver: plan, enqueue, capped drain, replay |
| RateLimit | the sliding-window limiter against one that forgets nothing |
| Forest, Comments | the comment table and its threaded listing, built in place |
| Hierarchy | the ticket hierarchy: level expansion, type filter, stable sort |
| Events | per-session staging and the lossy fan-out bus |
| Bounties | the bounty lifecycle and its audit journal |
| HumanReview | the mock reviewer |
| Handles | handle derivation in the insert triggers and the backfill |
| Prelude, Sequences | shared datatypes, and sequences with entries left out |

Where the code and its own comments differ, the model follows the code:

- `app/events.py:4-5` says the oldest event is dropped on overflow; the new one is (`Events.AcceptedStays`).
- `app/services/audit_log_archive.py:29-33` allows for a DELETE that finds its rows gone; between
  archivers that cannot happen (`ArchiveProtocol.DeleteRemovesTheWholeBatch`).
- `app/services/_pagination.py:45-48` says invalid cursors decode to `None`; some raise
  (`Cursors.DecodeRaisesIff`, `Cursors.ListCursorRaises`, `Cursors.NanCursorRaises`).
- `app/scripts/mock_human_review.py:147-149` says the read mark keeps a notification from being
  picked up again; it is the canned comment (`HumanReview.ReadFlagIsNotConsulted`).
- `app/models/agent_run.py:6` lists `running` as a stage of a row; no other session ever sees it,
  because claim and result are committed together (`QueueWorkers.ReachableState`).

Five promises fail for some inputs; each has the exact condition under which it holds:

- the exit of an archiver once its bucket is drained (`ArchiveProtocol.ShortSelectLeavesLocked` and
  `ArchiveProtocol.LeftByAShortBatch`, with `ArchiveProtocol.RivalsMayLeaveDueRows`),
- the total of a prune (`Retention.TotalIsRowsRemoved`, with `Retention.GlobalNameClashLosesCount`),
- publication of the events in commit order (`Events.PublishedInCommitOrderIff`, with
  `Events.FlushesMayOvertake`),
- completion in queue order (`QueueWorkers.DoneInOrderIffInTurn` and `QueueWorkers.ClaimsOldestIff`,
  with `QueueWorkers.CommitsMayOvertake`),
- distinct handles after the backfill (`Handles.BackfillCollidesIff`, with `Handles.BackfillMayCollide`).

## Model

| member | source | states |
|---|---|---|
| `ArchiveProtocol.CopiesAreAccountedFor` | app/services/audit_log_archive.py:182-231 | in every reachable state of any number of archivers, with inserts, failed or torn writes and crashes anywhere: the file copies of a row are its committed deletes, plus the rolled-back attempts whose write had reached it, plus one if an open transaction has written it |
| `ArchiveProtocol.DeletedAtMostOnce` | app/services/audit_log_archive.py:15-33 | a row is deleted at most once over any run, and exactly once if it is gone |
| `ArchiveProtocol.NoRowIsLost` | app/services/audit_log_archive.py:15-33 | a row that was ever in the table and is no longer there left it at some step, and the archive holds it with the content it had at that step |
| `ArchiveProtocol.DeleteRemovesTheWholeBatch` | app/services/audit_log_archive.py:213-223 | the DELETE of a batch never finds one of its rows gone, since the rows stay locked from the SELECT on; the documented case of a DELETE that removes nothing cannot arise between archivers |
| `ArchiveProtocol.AbortedRowsAreFreeAgain` | app/services/audit_log_archive.py:203-211 | after a rollback every row of the batch is in the table unchanged and free to be picked up by any worker |
| `ArchiveProtocol.ShortSelectLeavesLocked` | app/services/audit_log_archive.py:225-229 | what a batch below the limit, an empty one included, leaves due is exactly what other workers have locked, so the bucket is drained if and only if they hold no due row |
| `ArchiveProtocol.LeftByAShortBatch` | app/services/audit_log_archive.py:213-231 | over every run: at the exit after a short batch a row that was due at its SELECT is still in the table if and only if another worker had it locked then and no transaction has deleted it since |
| `ArchiveProtocol.RivalsMayLeaveDueRows` | app/services/audit_log_archive.py:228-231 | a run of two workers in which the exit leaves due rows behind with no worker left |
| `ArchiveProtocol.StepKeepsInv` | app/services/audit_log_archive.py:182-231 | every step keeps: open batches are disjoint, their rows are in the table as read, and what a batch claims to have written is in the archive |
| `Retention.AuditStore.SelectBatch` | app/services/audit_log_archive.py:103-152 | the batch is a correct answer of the ordered, limited, locked SELECT: due rows only, oldest first, all of them if fewer than the limit |
| `Retention.AuditStore.AppendLines` | app/services/audit_log_archive.py:85-100 | all lines are appended in order, or on a failing disk exactly a prefix of them, which is all of them when it is the flush that fails |
| `Retention.AuditStore.ArchiveBatch` | app/services/audit_log_archive.py:182-223 | one transaction either archives and deletes exactly its batch, or leaves the table as it was with exactly the lines the disk took of the batch in the file |
| `Retention.AuditStore.ArchiveThenPrune` | app/services/audit_log_archive.py:155-240 | for every batch size and any clock the loop ends with the table of one direct DELETE at the clock of its last transaction, archived == deleted == rows removed, every removed row archived exactly once, and all transactions but the last full; a failing write stops it with every removed row archived; every line added is of the bucket and lies in its file, named after the event with each / replaced by _ or _default, and dated by the day of the transaction that wrote it |
| `Retention.MovedMeaning` | app/services/audit_log_archive.py:182-231 | the lines gained are exactly the rows that left the table, each once, with their content, and nothing else changed |
| `Retention.LastBatchShortMeaning` | app/services/audit_log_archive.py:228-231 | the short-circuit exit: n transactions remove between (n - 1) * size and n * size - 1 rows, the last one short |
| `Retention.AuditStore.DeleteBuckets` | app/services/audit_log_retention.py:148-193 | the plain branch leaves exactly the survivors and returns the count of every bucket |
| `Retention.AuditStore.ArchiveBuckets` | app/services/audit_log_retention.py:125-147 | the archiving branch leaves exactly the survivors of cutoffs taken during the call, returns their counts, and archives exactly what it removed |
| `Retention.AuditStore.PruneOnce` | app/services/audit_log_retention.py:86-248 | the whole prune: disabled or locked out it does nothing; otherwise it leaves the survivors, the archive, counts and total of its mode, and one summary row for each insert that succeeded (none when nothing was removed) carrying total, counts per bucket, global days and overrides; a failed write surfaces as an error with nothing lost; each line it adds lies in the file of its own event if that has an override and in the fallback file otherwise, dated by the day of its transaction |
| `Retention.SummaryTellsCounts` | app/services/audit_log_retention.py:215-220 | the recorded metadata of two prunes agree only if their totals and the counts of all their buckets do |
| `Retention.SurvivesIffRecent` | app/services/audit_log_retention.py:103-106 | a row survives exactly when it is no older than the retention of its own event (override if present, else global), whatever the order of the overrides |
| `Retention.WhatSurvives` | app/services/audit_log_retention.py:103-193 | what any prune leaves, in either mode: a row past the period of its own event when the prune began is gone, one not past it at the end is unchanged; the plain mode goes by the beginning alone |
| `Retention.PerEventCounts` | app/services/audit_log_retention.py:122-189 | the reported counts: for each override the rows of that event older than its days, and under __global__ the rows older than the global days whose event has no override |
| `Retention.SummaryRowsInFull` | app/services/audit_log_retention.py:191-240 | which summary rows a prune records, and every column and metadata member of each |
| `Retention.BucketsAreDisjoint` | app/services/audit_log_retention.py:149-189 | no event belongs to two buckets |
| `Retention.TotalIsRowsRemoved` | app/services/audit_log_retention.py:191 | the returned total is the number of rows removed if and only if no override named __global__ deletes anything |
| `Retention.GlobalNameClashLosesCount` | app/services/audit_log_retention.py:131-147 | a concrete case in which the total is wrong: one row removed, total 0; the stored row is named __global__, which no part of the application records, so it has to come from outside |
| `Retention.SecondPruneIsIdle` | app/services/audit_log_retention.py:191-248 | with all periods at least a day, a second prune at the same clock, over the survivors and the summary rows, deletes nothing and counts nothing |
| `Retention.FrozenClockRefinesPlain` | app/services/audit_log_retention.py:125-189 | while the clock stands still a prune in archiving mode and one in plain mode, from one table and with the same periods, leave equal tables and return equal totals and counts per bucket |
| `Retention.AdvancingClockBounds` | app/services/audit_log_retention.py:125-147 | with an advancing clock every row expired at the start is gone and every row not expired at the end survives |
| `Numerals.NumeralReads` | app/services/audit_log_retention.py:215-220 | the decimal text of a number, read digit by digit, is the number |
| `Counts.TotalPut` | app/services/audit_log_retention.py:122-146 | assigning a dictionary entry loses whatever count the key held |
| `Base64Url.PaddingRestored` | app/services/_pagination.py:59-61 | the recomputed padding restores the padded text, whose length is a multiple of 4 (sections 3.2 and 5 of RFC 4648) |
| `Base64Url.RoundTrip` | app/services/_pagination.py:38-39 | decoding the stripped base64url text of any bytes gives the bytes back |
| `Base64Url.DecodesIff` | app/services/_pagination.py:59-63 | a text of alphabet symbols decodes exactly when its length is not 1 modulo 4 |
| `Base64Url.AlphabetIs` | app/services/_pagination.py:39 | the URL-safe alphabet of section 5 of RFC 4648 |
| `Utf8.RoundTrip` | app/services/_pagination.py:37-38 | decoding the UTF-8 encoding of any text gives the text (RFC 3629) |
| `Utf8.DecodesOnlyEncodings` | app/services/_pagination.py:65 | bytes decode only if they are the encoding of what they decode to: overlong forms, surrogates and values past U+10FFFF are refused |
| `Json.StringReadsJoined` | app/services/_pagination.py:37-38 | what any printed string reads back as: itself with adjacent surrogate pairs joined |
| `Json.StringRoundTrip` | app/services/_pagination.py:37-38 | a string printed with JSON escapes is read back, whatever follows it, if and only if it holds no high surrogate directly before a low one; text from UTF-8 never does |
| `Json.RoundTrip` | app/services/_pagination.py:86-88 | reading the sorted-key compact JSON text of a value gives the value back (RFC 8259), for strings over all code points without an adjacent surrogate pair, numbers kept as tokens, integers of at most 4300 digits, and NaN, Infinity and -Infinity |
| `Json.LoadsFields` | app/services/_pagination.py:37-38 | an object printed with its members in any order reads back as the object, for the same values |
| `Json.PrintPlain` | app/services/audit_log_archive.py:72 | printed JSON is printable ASCII without a line break |
| `Json.KeysAreSorted` | app/services/audit_log_archive.py:72 | the members of an object are printed in dictionary order of their names, each once |
| `Json.EscapesAre` | app/services/_pagination.py:37-38 | the seven two-character escapes, and four lower-case hexadecimal digits that read back as the code point for the rest of what is not printable ASCII (section 7 of RFC 8259) |
| `Json.TooLongIff` | app/services/_pagination.py:64-70 | an integer is too long exactly with more than 4300 digits |
| `Cursors.CursorRoundTrip` | app/services/_pagination.py:30-68 | decode_cursor(encode_cursor(t, i)) == (t, i) |
| `Cursors.CursorTextInFull` | app/services/_pagination.py:37-39 | the text inside a plain cursor, character by character, which existing cursors depend on |
| `Cursors.ListCursorRaises` | app/services/_pagination.py:42-70 | the cursor W10 (an empty JSON list) is not treated as absent, as documented: an exception goes through |
| `Cursors.NanCursorRaises` | app/services/_pagination.py:64-70 | so does the exception for TmFO, the constant NaN |
| `Cursors.DecodeRaisesIff` | app/services/_pagination.py:57-70 | for every non-empty cursor whose JSON nests within the interpreter's recursion limit: decode_cursor raises instead of returning None exactly if the cursor is not ASCII, or decodes to JSON (multi-byte UTF-8, NaN and Infinity included) that is no object, or whose t is no string, or whose t is a date and whose i is no string; an integer of more than 4300 digits makes it return None |
| `Cursors.OpenSealed` | app/services/_pagination.py:124-171 | opening a sealed cursor returns its payload exactly for its own arm and the right signature, and otherwise the error of the first check that fails |
| `Cursors.EnvelopeInFull` | app/services/_pagination.py:86-121 | the text that is signed, members a and p, and the text that is sent, members a, p and s |
| `Cursors.SignedRoundTrip` | app/services/_pagination.py:97-121 | decode_signed_cursor(a, encode_signed_cursor(a, p)) == p |
| `Cursors.WrongArmRefused` | app/services/_pagination.py:166-167 | a cursor minted for one arm is refused under every other arm, whatever the secret |
| `Cursors.CanonicalInjective` | app/services/_pagination.py:86-94 | no two signed messages share their canonical bytes |
| `Cursors.AlteredCursorRefused` | app/services/_pagination.py:168-170 | with a collision-free MAC a cursor with altered arm or payload and the original signature is refused |
| `ArchiveLines.LineDeterminesRow` | app/services/audit_log_archive.py:57-72 | an archived line determines the row it was written for, column by column |
| `ArchiveLines.LineReadsBack` | app/services/audit_log_archive.py:57-72 | an archived line reads back as an object of exactly seven members, each holding the column of its name |
| `ArchiveLines.FileDeterminesRows` | app/services/audit_log_archive.py:95-98 | the text of the file determines the archived rows and their order |
| `AuditPages.PageMeaning` | app/services/audit_log.py:121-138 | a page holds rows the query selects, newest first, and nothing it leaves out is newer than its last row; it is full exactly when there is a next page |
| `AuditPages.ListEntries` | app/services/audit_log.py:115-156 | the endpoint returns that page, a next cursor for its last row exactly when more rows follow, and a total only on the first page |
| `AuditPages.PageHolds` | app/services/audit_log.py:121-152 | in raw columns: every row of a page is in the table, has the event, actor and target type asked for, lies behind the cursor, and the rows strictly descend; at most the limit of them, 50 by default and 100 at most, and exactly that many when more follow |
| `AuditPages.PagePassesNothing` | app/services/audit_log.py:121-156 | in raw columns: every row of the table with the columns asked for behind the cursor is on the page or behind its last row, and then the next cursor stands for that last row |
| `AuditPages.PageTotal` | app/services/audit_log.py:158-168 | the total is the number of rows of the whole table with the columns asked for, and is given exactly without a cursor |
| `AuditPages.NextCursor` | app/services/audit_log.py:138-143 | the next cursor decodes to the position of the last row returned |
| `AuditPages.WalkDescends` | app/services/audit_log.py:121-143 | over any run of pages, whatever happens to the table in between, rows come in strictly descending (created_at, id) order, so none twice |
| `AuditPages.EachRowExactlyOnce` | app/services/audit_log.py:121-156 | from no cursor to next_cursor = None every row that matched throughout is returned exactly once |
| `AuditPages.StaticPagesAreTheTable` | app/services/audit_log.py:121-156 | on a table that does not change the pages concatenate to the whole filtered, sorted table, for every limit |
| `AuditPages.StaticWalkLength` | app/services/audit_log.py:121-156 | on such a table a walk is finished exactly when it has max(1, ceil(n / limit)) pages, n being the rows that match, and never has more |
| `AuditPages.StaticWalkExists` | app/services/audit_log.py:121-156 | and following next_cursor does get to the end, from every cursor that does not raise |
| `AuditPages.PageCountMeaning` | app/services/audit_log.py:135-143 | that number of pages is the least positive one with room for n rows |
| `AgentRuns.RawKeyInjective` | app/services/agent_run_queue.py:79-84 | the digested string agent:ticket:prompt determines all three, whatever the prompt holds |
| `AgentRuns.OneRowPerTriple` | app/services/agent_run_queue.py:109-118 | at most one row per agent, ticket and prompt in every reachable table |
| `AgentRuns.KeysIdentifyTriples` | app/services/agent_run_queue.py:79-118 | with a collision-free digest only the same agent, ticket and prompt share a key, so no other request is swallowed |
| `AgentRuns.SplitLesson` | app/services/agent_run_queue.py:329-337 | title and body of a lesson: split at the first newline, nothing lost |
| `AgentRuns.StructuredLines` | app/services/agent_run_queue.py:44-76 | the structured comment, read line by line: headline, summary, details and one bullet per location, with blank lines between the sections, whatever line breaks these texts hold |
| `AgentRuns.ReEmitLessons` | alembic/versions/v6b_agent_run_lesson_idx.py:56-62 | emitting the lessons of a run again adds nothing |
| `RunQueue.Queue.Enqueue` | app/services/agent_run_queue.py:94-130 | returns the row that carries the key and changes nothing, whatever its status, or inserts one pending row under the new id |
| `RunQueue.Queue.Oldest` | app/services/agent_run_queue.py:141-148 | the oldest pending row by (enqueued_at, id), or none exactly when none is pending |
| `RunQueue.Queue.ProcessOne` | app/services/agent_run_queue.py:132-363 | claims exactly the oldest pending row and leaves the tables as one processed row does, keeping all invariants; an empty queue changes nothing |
| `RunQueue.Queue.EmitSideEffects` | app/services/agent_run_queue.py:188-357 | the writes happen in order comment, notifications, lessons; when one raises exactly the writes before it remain |
| `RunQueue.Queue.RecordAgentLesson` | app/services/project_lessons.py:76-110 | an insert that an existing (run, index) keeps out |
| `RunQueue.ProcessedRow` | app/services/agent_run_queue.py:163-171 | a processed row ends done or error with the error text the code gives it, keeps its identity, and no other row, comment or lesson changes |
| `RunQueue.ProcessedValid` | app/services/agent_run_queue.py:132-363 | processing keeps keys, comment links and the rule that only done runs have lessons |
| `RunAccounting.EveryTableHasAQueue` | app/services/agent_run_queue.py:141-147 | every table has its reference queue, the pending rows by (enqueued_at, id) |
| `RunAccounting.ArrivalGoesLast` | app/services/agent_run_queue.py:120-130 | a later arrival joins the reference queue at its end |
| `RunAccounting.FirstInFirstOut` | app/services/agent_run_queue.py:140-154 | k calls of a sole worker process exactly the first k pending rows in order, as the reference queue would, and leave the rest |
| `RunAccounting.ClaimedByAge` | app/services/agent_run_queue.py:140-154 | the rows a drain claims were pending at its start and come by enqueued_at and id; every pending row left over is younger than all of them |
| `RunAccounting.SideEffectsOfARun` | app/services/agent_run_queue.py:188-346 | a run whose side effects do not fail adds one agent comment to which the row points, one agent_responded for a known owner, one agent_invoked_in_comment exactly when somebody else wrote the originating comment, and lessons 0..n-1 exactly when the project is known |
| `RunAccounting.WhoIsNotified` | app/services/agent_run_queue.py:239-308 | field by field: the owner, if there is one, is told that the agent responded; told a second time exactly when the run was started from a comment whose author is not the owner, with that author as the actor and that comment as the target |
| `RunAccounting.WhatIsPosted` | app/services/agent_run_queue.py:189-237 | the posted comment in full: ticket, author and text, which is structured exactly when there are a non-empty summary, handle and display id, with which text under which heading; otherwise the provider's text |
| `RunAccounting.WhatIsLearned` | app/services/agent_run_queue.py:319-346 | the lessons in full: one per emitted text under its index, with project, agent, title up to the first newline and body after it; none without a project |
| `RunAccounting.RunAdds` | app/services/agent_run_queue.py:188-357 | the exact number of comments, notifications and lessons any processed row adds, also when a write fails midway |
| `RunAccounting.DrainTotals` | app/services/agent_run_queue.py:188-357 | over a whole drain the tables grow by exactly the sum of what the processed rows owe, read off the table before the drain |
| `QueueWorkers.RunOnlyForward` | app/services/agent_run_queue.py:140-171 | over every run of any number of workers, interleaved and crashing anywhere, a committed row moves only from pending to done or error and then never changes |
| `QueueWorkers.ReachableState` | app/services/agent_run_queue.py:109-154 | in every reachable state no row is committed as running, one row carries a key and one belongs to an agent, ticket and prompt, no row is held by two workers, and each row was committed as finished exactly once if final and never otherwise |
| `QueueWorkers.SideEffectsOfOneTurn` | app/services/agent_run_queue.py:188-357 | in every reachable state the comments, notifications and lessons in the tables are, run by run, none for a run that is not final and for a final one exactly those its one finishing turn writes for the run as it was enqueued, origin comment included, with interleaved and crashing workers |
| `QueueWorkers.RowsComeFromSteps` | app/services/agent_run_queue.py:120-171 | and that enqueued run and that turn are those of an insert and of a finish in the history |
| `QueueWorkers.FinishedIsProcessOne` | app/services/agent_run_queue.py:132-363 | the row a worker leaves in its transaction and the writes it makes there are those of a sole worker's call on the same run |
| `WorkerTotals.InterleavedTotals` | app/services/agent_run_queue.py:188-357 | in every reachable state the numbers of comments, notifications and lessons are the sum of what the finished rows owe, read off the rows as enqueued: the sum of a sole worker's drain |
| `WorkerTotals.WritesOwed` | app/services/agent_run_queue.py:188-357 | what a turn writes is as many comments, notifications and lessons as a sole worker's drain owes for the run, cut off where a write fails |
| `QueueWorkers.CrashFreesRows` | app/services/agent_run_queue.py:141-154 | a worker that dies leaves its claimed rows pending, free for every worker, and without side effects |
| `QueueWorkers.ClaimsOldestIff` | app/services/agent_run_queue.py:141-148 | a claim takes the oldest pending row the worker sees if and only if no older one is locked by another worker |
| `QueueWorkers.SoleWorkerClaimsOldest` | app/services/agent_run_queue.py:141-148 | so a worker without rivals claims the oldest pending row of all it sees |
| `QueueWorkers.DoneInOrderIffInTurn` | app/services/agent_run_queue.py:141-171 | over every run of any number of workers runs are finished in queue order if and only if each finishing commit happens with no earlier row of the queue unfinished |
| `QueueWorkers.CommitsMayOvertake` | app/services/agent_run_queue.py:141-148 | with two workers and any two pending rows that condition may fail: the later row is final while the earlier one is pending |
| `Orchestrator.AssigneePlanEmpty` | app/scripts/orchestrate_demo.py:106-148 | nothing is planned exactly when every agent-assigned ticket has a run of its assignee |
| `Orchestrator.PlanInFull` | app/scripts/orchestrate_demo.py:106-207 | the whole plan: the tickets whose own agent has no run on them, in their order, then the lowest-numbered ticket with each agent member that has no run on it, in theirs; nothing else |
| `Orchestrator.ReportInFull` | app/scripts/orchestrate_demo.py:223-310 | column by column: the planned count and the two deltas as numbers of rows of the project, and every new row with the agent, ticket, prompt and key of an entry of the plan; all other rows are as before |
| `Orchestrator.SamePairOneRow` | app/scripts/orchestrate_demo.py:106-272 | for tickets with distinct ids a pair both planners name gets one row, since both give it the same prompt |
| `Orchestrator.Orchestrate` | app/scripts/orchestrate_demo.py:223-310 | a dry run reports the plan and changes nothing; a live one enqueues the plan, drains until a call finds nothing or 200 calls are made, and reports the deltas and one summary line per processed row, in order, no two of one row, each showing the agent, ticket, status and comment its row ends with |
| `Orchestrator.DrainLeaves` | app/scripts/orchestrate_demo.py:285-289 | the drain processes min(200, pending) rows and leaves what the cap cut off |
| `Orchestrator.SecondPlansNothing` | app/scripts/orchestrate_demo.py:252-272 | after a live invocation a second one on unchanged data plans nothing |
| `Orchestrator.ReplayIsNoOp` | app/scripts/orchestrate_demo.py:252-310 | the second invocation processes nothing if and only if the first had at most 200 rows to drain, and then it leaves the database as it is |
| `RateLimit.Limiter.Check` | app/middleware/rate_limit.py:19-35 | answers from the attempts of the window and keeps exactly those, plus the new one if admitted |
| `RateLimit.Limiter.Cleanup` | app/middleware/rate_limit.py:37-47 | removes exactly the e-mails whose attempts have all expired |
| `RateLimit.PruningIsInvisible` | app/middleware/rate_limit.py:19-47 | over any run under a clock that does not go backwards every answer, retry time included, is that of a limiter that keeps the whole history |
| `RateLimit.CleanupIsInvisible` | app/middleware/rate_limit.py:37-47 | a cleanup inserted anywhere in a run changes no answer |
| `RateLimit.NeverOverTheLimit` | app/middleware/rate_limit.py:19-35 | for every e-mail and every t at most max_requests admitted requests lie in (t - window, t] |
| `RateLimit.RejectedUntilOldestExpires` | app/middleware/rate_limit.py:21-33 | a rejected caller without other attempts is admitted exactly from the moment the oldest attempt is a full window old |
| `RateLimit.WaitingHelps` | app/middleware/rate_limit.py:27-33 | in every reachable state a rejection names 1 to window + 1 seconds, and waiting that long without another attempt is enough, whatever others do meanwhile |
| `RateLimit.WaitingLessDoesNotHelp` | app/middleware/rate_limit.py:27-33 | and not a second too long: whoever asks again more than a second before that time is rejected again |
| `RateLimit.AnswerInFull` | app/middleware/rate_limit.py:19-35 | in every reachable state, from the admitted times alone: admitted if and only if the max-th last of them is a full window old, otherwise told to wait r seconds where r - 1 is what that time still lacks in whole seconds |
| `RateLimit.CleanupInFull` | app/middleware/rate_limit.py:37-47 | a cleanup keeps an e-mail's list, unchanged, exactly if one of its times lies in the window |
| `RateLimit.FailsExactlyWithoutALimit` | app/middleware/rate_limit.py:27-28 | a call to check raises IndexError instead of answering if and only if max_requests is not positive |
| `Comments.CommentStore.Create` | app/services/comments.py:67-119 | inserts one row or refuses with the documented error and changes nothing |
| `Comments.CommentStore.Edit` | app/services/comments.py:127-147 | changes body and edited flag of the author's own comment only |
| `Comments.CommentStore.Delete` | app/services/comments.py:155-192 | a comment with replies becomes a tombstone, one without goes |
| `Comments.OnlyTheAuthorChanges` | app/services/comments.py:127-192 | over every run: unless its author or an admin removes it a comment stays, and all that ever changes of it is the text of its author's last edit and the edited flag; what anybody else does leaves no trace |
| `Comments.EveryRowHasItsHistory` | app/services/comments.py:67-192 | after every run each row is explained by the calls: the create that gave its fixed columns, the edit of its author or the allowed removal that wrote its text, and what set its two flags |
| `Comments.RunsKeepThreads` | app/services/comments.py:81-192 | over all runs of create, edit and delete the parent relation is acyclic, no parent dangles, and threads stay in their problem and solution |
| `Comments.EveryCommentIsListedOnce` | app/services/comments.py:200-252 | after any run, flattening the listing of any problem or solution gives each of its comments exactly once, for any order of ties |
| `Comments.BuildForest` | app/services/comments.py:237-252 | in-place attachment gives every node the nodes of its children, and the list of roots, in row order |
| `Comments.GetComments` | app/services/comments.py:200-252 | the nodes returned show the forest of the listing |
| `Comments.WhoIsARoot` | app/services/comments.py:245-250 | a listed comment is a root exactly when it has no parent or, on a problem, answers a comment on a solution; otherwise it stands under its parent |
| `Comments.AnswerIsInTimeOrder` | app/services/comments.py:213-252 | siblings and roots come oldest first |
| `Comments.FindNode` | app/routes/comments.py:220-228 | the recursive search finds an id exactly when it occurs in the forest |
| `Comments.CreatedIsFound` | app/routes/comments.py:45-57 | after any run, a comment whose create succeeded is found in the listing that follows, so the 500 branch is never taken |
| `Forest.ForestConserves` | app/services/comments.py:243-252 | for any acyclic parent relation and any order of the rows, children before parents included, the flattened forest holds every row exactly once |
| `Forest.SiblingsKeepOrder` | app/services/comments.py:245-250 | siblings and roots keep the order of the rows |
| `Forest.ChildrenExactly` | app/services/comments.py:247-248 | a row is under a parent exactly when that is its parent among the rows, and once |
| `Forest.FindIff` | app/routes/comments.py:220-228 | the search succeeds exactly for the ids that occur, and returns the right node |
| `Hierarchy.ExpandCount` | app/routes/projects.py:279-283 | in one round of the UNION ALL a ticket comes as often as its parent did in the round before |
| `Hierarchy.RoundsMeaning` | app/routes/projects.py:273-287 | the recursive query returns exactly the tickets whose chain inside the project reaches a root within the limit, once each, with their chain length, even with parent cycles elsewhere |
| `Hierarchy.AtIffChain` | app/routes/projects.py:273-284 | a ticket is at depth d exactly when d steps from parent to parent, all inside the project, lead to a root |
| `Hierarchy.GetHierarchy` | app/routes/projects.py:262-331 | the endpoint filters the query rows and sorts them |
| `Hierarchy.HierarchyIsExact` | app/routes/projects.py:269-331 | what the caller gets: each such ticket of a wanted type exactly once, with its chain length as depth and its own parent, number and creation time, in the order of depth, number, creation time and id of the tickets |
| `Hierarchy.SortIsStable` | app/routes/projects.py:329 | entries with equal keys keep the order of the query |
| `Hierarchy.ParentsComeFirst` | app/routes/projects.py:329 | without a type filter every ticket but a root has its parent listed before it, one level up |
| `Hierarchy.CyclesAreNotListed` | app/routes/projects.py:273-284 | a ticket whose chain runs into a cycle is at no depth, hence never listed |
| `Events.Hub.Publish` | app/events.py:52-58 | each subscriber is offered the event on its own, so a full queue affects no other |
| `Events.SubscriberSees` | app/events.py:44-58 | in every reachable state of sessions and any number of subscribers a live subscriber was offered exactly what was published since it subscribed, all of it staged by committed sessions; what it took and has queued, at most 256 events, is an in-order subsequence of that, and all of it exactly when none was dropped |
| `Events.OthersDoNotMatter` | app/events.py:44-58 | taking a subscriber out of a run changes neither sessions, nor publication, nor any other queue |
| `Events.BoxSees` | app/events.py:52-58 | one queue under any interleaving of offers and takes: everything arrives exactly when every offer found fewer than 256 events waiting |
| `Events.AcceptedStays` | app/events.py:52-58 | what a queue has accepted is handed out in that order whatever is offered later: it is the new event that a full queue drops |
| `Events.SeesFromSubscription` | app/events.py:44-58 | a queue is offered exactly what is published from its subscription on |
| `Events.NothingAfterUnsubscribe` | app/events.py:48-50 | and nothing after it was taken off; what it then holds can still be read |
| `Events.BoxRunsByItself` | app/events.py:52-58 | in a run of the bus each queue goes through exactly its own offers and takes |
| `Events.Hub.FlushSessionEvents` | app/events.py:103-110 | publishes everything the session staged, in order, to every subscriber, and forgets it |
| `Events.Hub.DiscardSessionEvents` | app/events.py:113-115 | forgets what the session staged |
| `Events.PublishedIsCommitted` | app/database.py:80-88 | the published sequence is, in order of flushing, everything the flushed sessions staged; each had committed; a rolled-back one contributes nothing |
| `Events.PublishedIsWhatWasStaged` | app/events.py:97-115 | read off the steps alone: the published events are, flush by flush, those the session staged, in the order of staging; flushed and rolled-back sessions keep nothing staged, the others exactly what they staged |
| `Events.PublishedInCommitOrderIff` | app/database.py:81-84 | over every run, the published events, each with the session that staged it, are the first of all committed ones in commit order if and only if every flush with events is that of the earliest committed session with events not yet flushed |
| `Events.SilentSessionsMayBeLate` | app/database.py:81-84 | a session that staged nothing, as a read-only request, does not matter for that: a run in which it commits first and never flushes |
| `Events.FlushedInOrderIffInTurn` | app/database.py:81-84 | the order of the flushes themselves: the flushed sessions are the first to commit, in commit order, if and only if every flush, silent ones included, comes in its turn |
| `Events.FlushesInTurnPublishInOrder` | app/database.py:81-84 | which is enough for the order of the events |
| `Events.PromptFlushesPublishInCommitOrder` | app/database.py:81-84 | and so is that no commit comes between another commit and its flush |
| `Events.FlushesMayOvertake` | app/database.py:81-84 | otherwise the order may be lost: a run in which the later commit is published first |
| `Bounties.BountyService.CreateBounty` | app/services/bounties.py:51-87 | users only, positive points only, one row and one journal entry, or nothing |
| `Bounties.BountyService.ClaimBounty` | app/services/bounties.py:151-167 | the transition with its journal entry, or a refusal that changes neither |
| `Bounties.BountyService.UnclaimBounty` | app/services/bounties.py:169-188 | the transition, state checked before the claimant, or a refusal that changes neither |
| `Bounties.BountyService.AwardBounty` | app/services/bounties.py:190-207 | the transition, poster checked before the state, or a refusal that changes neither |
| `Bounties.BountyService.WithdrawBounty` | app/services/bounties.py:209-225 | the transition, poster checked before the state, or a refusal that changes neither |
| `Bounties.MoveInFull` | app/services/bounties.py:126-225 | column by column: exactly when each of the four transitions is refused and with which error, and every column and the journal entry it leaves |
| `Bounties.OnlyThePosterDecides` | app/services/bounties.py:190-225 | over every run of any actors and user deletions: who awarded or withdrew a bounty is the user of its create entry, which comes before all its other entries, and the poster of a row is that user or nobody |
| `Bounties.DecisionsFromTheStart` | app/services/bounties.py:51-225 | the same from empty tables, entry by entry |
| `Bounties.JournalReplaysToRows` | app/services/bounties.py:139-225 | over every run replaying the journal from create gives each row's status and claimant; claimant columns set together exactly while claimed or awarded; an awarded bounty's claimant is the actor of its last claim; claimed_at <= awarded_at |
| `Bounties.FinalStaysFinal` | app/services/bounties.py:151-225 | awarded and withdrawn are absorbing: the row keeps everything but a deleted poster and gets no further entry |
| `Bounties.WithoutPosterNeverFinal` | app/models/bounty.py:36-50 | once its poster is deleted an open or claimed bounty stays open or claimed over every run: nobody can award or withdraw it |
| `HumanReview.Inbox.ResolvePending` | app/scripts/mock_human_review.py:85-154 | the loop answers the listed notifications one by one |
| `HumanReview.OneApprovalEach` | app/scripts/mock_human_review.py:107-150 | each ticket and targeted user gets exactly one canned comment if one is asked for and none is there, none otherwise |
| `HumanReview.WhatACallDoes` | app/scripts/mock_human_review.py:107-154 | notification by notification: answered, in list order, exactly if ticket and active user exist, that user has no such comment on the ticket and no earlier notification asks for the same; each by one comment and its read mark; nothing else changes |
| `HumanReview.ListingMeaning` | app/scripts/mock_human_review.py:94-103 | the list holds exactly the human_review notifications for users that are a second old or more, read or not, oldest first |
| `HumanReview.SecondCallResolvesNothing` | app/scripts/mock_human_review.py:96-154 | a second call at the same time resolves nothing and adds nothing |
| `HumanReview.ReadFlagIsNotConsulted` | app/scripts/mock_human_review.py:147-149 | the read flag has no influence on what is resolved, contrary to the comment beside it |
| `Handles.NormaliseIsClean` | alembic/versions/a12_add_handles.py:144-155 | the normaliser yields only [a-z0-9_] without doubled, leading or trailing underscore |
| `Handles.NormaliseIsIdempotent` | alembic/versions/a12_add_handles.py:144-155 | normalising twice is normalising once |
| `Handles.NormaliseJoinsWords` | alembic/versions/a12_add_handles.py:144-155 | for every text the result is its runs of lower-case letters and digits, joined by single underscores: john.doe gives john_doe |
| `Handles.BasesAreJoinedWords` | alembic/versions/a12_add_handles.py:144-158 | for every e-mail the base is the words of the lower-cased local part so joined, or user; for every agent name its words, or agent |
| `Handles.BasesAreHandles` | alembic/versions/a12_add_handles.py:156-158 | with its fallback the base is a clean, non-empty handle, for users and agents |
| `Handles.PlainNamesAreKept` | alembic/versions/a12_add_handles.py:144-155 | a local part (or agent name) that is a handle up to case becomes the base in lower case, whatever the domain |
| `Handles.CandidatesDiffer` | alembic/versions/a12_add_handles.py:159-164 | the candidates base, base_2, base_3, ... are pairwise different |
| `Handles.CandidateIsATry` | alembic/versions/a12_add_handles.py:159-164 | the n-th candidate is the base, and from n = 2 on the base, an underscore and the decimal digits of n |
| `Handles.Pigeonhole` | alembic/versions/a12_add_handles.py:161-164 | if the first n - 1 candidates are taken, n - 1 accounts hold them |
| `Handles.Accounts.Search` | alembic/versions/a12_add_handles.py:159-165 | the loop ends within (number of handles + 1) candidates with the first free one |
| `Handles.Accounts.InsertWithBase` | alembic/versions/a12_add_handles.py:139-166 | an insert keeps a given handle or is refused by the unique index; a derived handle is the first free candidate, clean, and cannot clash |
| `Handles.Accounts.InsertUser` | alembic/versions/a12_add_handles.py:135-166 | the same for a user, with the base derived from the e-mail |
| `Handles.Accounts.InsertAgent` | alembic/versions/a12_add_handles.py:172-203 | the same for an agent, with the base derived from the name |
| `Handles.BackfilledInFull` | alembic/versions/a12_add_handles.py:69-83 | the backfill gives a row its base, with its number among the rows of that base from the second on |
| `Handles.BackfillCollidesIff` | alembic/versions/a12_add_handles.py:69-83 | two rows of the backfill end with the same handle if and only if some base equals another row's suffixed handle |
| `Handles.BackfillMayCollide` | alembic/versions/a12_add_handles.py:50-84 | three accounts that collide: alice, alice and alice_2 |

## Left out

- SQL, ORM sessions and savepoints: replaced by maps, sequences and explicit commit and rollback steps; row locks and the advisory lock are atomic, and the unique and foreign keys used are stated as guards or invariants.
- Hashing: SHA-256 and HMAC are functions taken as given, collision-free only where a lemma says so.
- UUIDs and datetimes: numbers; printing and parsing them is a given inverse pair, and a printed UUID holds no colon.
- ArchiveProtocol.CopiesAreAccountedFor: a file write that keeps running in its thread after the request that started it was cancelled is not a step of the model, nor are lines torn in the middle; a flush or fsync that fails is a rollback after the last line.
- ArchiveProtocol.NoRowIsLost: the workers are archivers; a plain DELETE running beside them in the non-archiving mode is not one of the steps.
- Retention.AuditStore.PruneOnce: logging is left out, and a failing commit of the summary rows counts as both inserts failing.
- Retention.GlobalNameClashLosesCount: every event name the application records is another literal, so a stored row named __global__ can only come from outside.
- Retention.AuditStore.ArchiveBatch: the date in the file name is read from the clock of the transaction, where the code reads the wall clock when it writes; only the directory and the date format of the path are left out.
- Retention.AuditStore.ArchiveThenPrune: a sole worker, so no row is skipped as locked; several workers are the subject of ArchiveProtocol.
- Json.RoundTrip: numbers are kept as their token, so neither float rounding nor the order of equal numbers is modelled; a string with a high surrogate directly before a low one reads back joined (Json.StringReadsJoined).
- Cursors.DecodeRaisesIff: JSON nested deeper than the interpreter's recursion limit is not covered; the integer limit is that of Python 3.11 and later, 4300 digits by default.
- Cursors.OpenSealed: for a cursor outside ASCII the codec raises ValueError and for a signature outside ASCII TypeError instead of its own error, which the model tells apart as NotAscii and SignatureNotAscii; the ValueError of an integer of more than 4300 digits is counted as malformed JSON.
- AuditPages.ListEntries: the actor references attached to a page and the shape of an entry are left out.
- RunQueue.Queue.EmitSideEffects: a failure that leaves the database transaction usable; one that aborts it makes the final flush raise as well, and is the rollback step of QueueWorkers.
- RunQueue.Queue.ProcessOne: one worker in one process, whose lock makes calls sequential; the provider's answer is a parameter.
- QueueWorkers.SideEffectsOfOneTurn: provider calls of a transaction that is rolled back may be repeated, only committed effects are counted; the comments runs were started from, and their authors, are given and do not change.
- Orchestrator.Orchestrate: seeding is a black box that changes nothing on unchanged data, and the ticket and member rows are given.
- RateLimit.NeverOverTheLimit: times are real numbers, not floats; a clock set back is not covered.
- Comments.CommentStore.Create: identifiers are values, so a problem id that spells the same UUID differently is not modelled; the HTML sanitiser is a function taken as given.
- Comments.GetComments: anonymous masking, author names and the other fields of a node are left out; the rows are those of one query.
- Comments.CommentStore.Delete: a reply inserted between the check for replies and the delete, by another session, is not modelled.
- Hierarchy.GetHierarchy: both queries see the same tickets; the 404 for a missing project is left out.
- Events.Hub.FlushSessionEvents: called once after a commit that succeeded, as the session dependency does; the direct publish of `app/events.py:118-120` and websocket delivery are left out.
- Bounties.BountyService.CreateBounty: ticket and problem references, listing and paging of bounties are left out.
- Handles.Accounts.InsertWithBase: ASCII text; two concurrent inserts that choose the same candidate are left to the unique index.
- Routes, schemas, notifications by e-mail or chat, telemetry, authentication, search, share posts and the frontend: plumbing or easy members.
