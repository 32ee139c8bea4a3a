# Durable chat turns, proved

A Dafny model of the protocol by which this system answers one chat question durably, and of the
knowledge indexes next to it, with proofs about whole runs.

A question is admitted idempotently (`TurnLifecycle`), accepted against a shared capacity
(`Capacity`, `Acceptance`), generated by a worker under the session's lease (`SessionLease`,
`Generation`), batched into a replayable log (`Events`, `DeltaBatcher`, `EventStream`; for protocol
version 2 `EventStoreV2` and `EventRecords`), framed for browsers and resumed after any break
(`ServerSentEvents`), and stored as a new version of its answer (`AnswerVersions`).

`TurnHistory` is the whole life of one Turn: requests, convergences and any number of workers, each
of which loads the Turn and later writes what it has loaded over the saved row, fresh or not, with
or without the lease. It proves what every run keeps, exactly when a completed row is left, and how
many answers are stored: one for the completed row and one for every completed row that was
overwritten. Every generation, with others' writes anywhere in between, is such a run
(`TurnWorkers`), and one of them loses an answer (`LostAnswer`). `EndToEnd` goes from the tokens to
the reader: a reader that never lagged and whose connection has ended was sent the log from its
first cursor to the end of that connection; if no earlier attempt left text or a terminal event
there, what it shows is the text of the run, and the exact conditions are proved. `BrokenLog` does
the same for appends that fail.

Older rounds are folded into a rolling summary (`SessionMemory`), recent ones form the model's window
(`MemoryWindow`), and actions for other systems leave through an outbox (`Outbox`). On the knowledge
side, `WikiLinks`, `IdLinks`, `LinkSync` and `TitleRename` cover the links between documents and their
renaming, `Vectors`, `PooledEmbedding` and `Similarity` the incremental table of similar documents,
with the rounding of `Rounding` and the arithmetic of `RealArithmetic`, and `Keyset` the cursor
pagination.

Each store is explicit state, each script or transaction one atomic step, and time an input; a clock
is assumed to be monotone only where a statement says so. Classes have the fields of the objects or
rows that they stand for, and every method is proved against a function of the old state; the
theorems are lemmas about these functions, over all sequences of steps. `dafny verify dfyconfig.toml`
checks everything.

## What the proofs found

- A completed Turn can lose its answer. A transition writes the worker's object over the row without
  looking at it, so a worker that lost its lease while answering marks a Turn that another one has
  completed meanwhile as failed; the answer is gone from the row, and the same request generates a
  second one (`LostAnswer.StaleMarkLosesAnswer`, `LostAnswer.AnswerIsLost`). A completed or cancelled
  Turn stays so for good exactly if no worker still holds an object that says otherwise
  (`TurnHistory.FinalForGoodIff`), and exactly one answer is stored exactly if no completed row is ever
  overwritten (`TurnHistory.OneAnswerIff`).
- If the row lock finds an answer of another run, done is announced with that answer, and the text that
  was shown is stored nowhere (`Generation.AnotherTextIsStored`, `Generation.StoredIsShownIff`).
- If something is raised after the commit, the run ends with an error although its answer is stored. If
  the commit's reply was lost, the run then overwrites its own completed row
  (`Generation.LateRunStores`, `Generation.DisagreesIff`).
- A reference with spaces around its title, like `[[ a ]]`, is linked to the document `a` but is
  not renamed with it. For titles without such spaces the links follow a rename exactly if there is
  no such reference (`WikiLinks.StrippedTitlesCommuteIff`; for all titles
  `WikiLinks.ExtractionCommutesIff`).
- The pattern for references by document id takes everything up to the next closing parenthesis
  after the reference's own. Of two references in a row the second is found exactly if a closing
  parenthesis stands between them (`IdLinks.NeighbourIsFoundIff`, `IdLinks.SecondReferenceIsLost`).
- The rows of a document depend on the order in which the database lists the documents exactly if
  some document is contested (`LinkSync.OrderMattersIff`).
- Truncating a message keeps it within the token cap exactly from a cap of 27 tokens on
  (`MemoryWindow.CutFitsCap`, `MemoryWindow.SmallerCapsAreExceeded`).
- A reader that starts at cursor zero stops at the error of an earlier attempt, because a retry does
  not clear the log (`EventStream.EarlierErrorStopsReader`).
- A worker that dies writes no error event, and neither does the mark or the convergence that fails
  its Turn. After a retry a reader from the start is shown what the first attempt had said, followed
  by the next attempt's answer (`EndToEnd.AbandonedTextIsShown`).
- If the append of the last event fails, the answer is already stored and the Turn completed, but
  its log never ends (`BrokenLog.GenerateChatTurn`). A repeated request starts nothing
  while the row stays completed, and readers of that log wait on (`BrokenLog.ReaderWaits`).
- Releasing a reservation answers true for one that has expired but was not pruned; in every other
  case the lazy pruning cannot be noticed (`Capacity.LazyRefinesEager`).
- A transition changes the object in memory before it can raise; the saved row is not affected
  (`TurnLifecycle.ChatTurn.Transition`).
- A document that is neither active nor stale gets edges when it is refreshed itself and loses them
  when the other one is; the edges of active and stale documents do not depend on the order
  (`Similarity.EdgeIff`, `Similarity.DraftsDependOnOrder`).
- The mean embedding is divided by the number of all usable chunks, also those of another dimension
  that were not summed. That alone changes no score
  (`PooledEmbedding.AverageScoresLikeTheMean`); after the rounding to eight decimals it can, by as
  much as from 1 to 0 (`PooledEmbedding.RoundingCanTell`), but only for short vectors
  (`PooledEmbedding.StoredScoreIsNear`) and not if all dimensions are equal
  (`PooledEmbedding.EqualDimensionsSuffice`).
- The outbox's backoff of at most an hour never exceeds 1024 seconds (`Outbox.BackoffIsPowerOfTwo`).
- A message that becomes visible after a run has selected its batch, with a time up to the batch's last
  one, or that shares the time of that last one, is never folded into the summary
  (`SessionMemory.CommitPassesIff`, `SessionMemory.PassedForGood`).
- With a summary trigger of four or less, a run may fold every message
  (`SessionMemory.SmallTriggerFoldsAll`).
- If the request runs inside a transaction and the queue is down at the commit, the client has been
  told that its question is accepted; the log then ends with an error, unless that append fails too
  (`Acceptance.Acceptance.Accept`).

## Model

| member | source | states |
|---|---|---|
| `TurnLifecycle.ChatTurn.Transition` | backend/apps/chat/services.py:131-183 | A transition is refused if the status graph forbids it or a completion has no answer. What the object becomes in every case; the saved row is untouched if the transition is refused or the store fails, and otherwise the object's fields are written over it whatever it holds, attempts excepted. |
| `TurnLifecycle.TransitionsIff` | backend/apps/chat/services.py:89-121 | The status graph by rank: an accepted Turn goes to retrieval only, a later one to any later phase, a saving one to completion; active ones can fail or be cancelled, a failed one be accepted again, and nothing else. |
| `TurnLifecycle.TransitionWrites` | backend/apps/chat/services.py:131-183 | What a stored transition says in the row, field by field: the model cut at 160 characters, the answer, the error code, and the completion time exactly for terminal targets. |
| `TurnLifecycle.PersistWrites` | backend/apps/chat/generation.py:388-465 | Unless it is rolled back, the answer to replace is missing, or the row is neither saving nor completed without an answer, the transaction adds one answer and completes the row with it at that time; otherwise it changes nothing. |
| `TurnLifecycle.NormalizeErrorCode` | backend/apps/chat/services.py:124-128 | What is stored is always 1 to 64 characters of a-z, 0-9 and underscore, and a code that already is of that form is stored as it is. |
| `TurnLifecycle.CodeIsRead` | backend/apps/chat/services.py:124-128 | A safe code is recognised in any case and with white space around it. |
| `TurnLifecycle.OtherCodes` | backend/apps/chat/services.py:124-128 | A code with any other character inside is stored as an internal error. |
| `TurnLifecycle.TurnRepository.BeginChatTurn` | backend/apps/chat/services.py:361-478 | The answer and the new store are `Classify` and `AfterBegin` of every request; an answer that starts no generation leaves the store unchanged. What these functions mean is stated over runs by `CreatedIff`, `ConflictIff`, `AnsweredByStatus` and `RetryStartsOver`. |
| `TurnLifecycle.ConvergeStaleTurn` | backend/apps/chat/stream_events.py:268-326 | The row is failed exactly if the snapshot is active, idle for more than the lease time, without a lease, and the row still has the snapshot's status and update time. |
| `TurnLifecycle.ConvergesIff` | backend/apps/chat/stream_events.py:268-326 | The exact condition of the conditional update on the row, and that it fails the Turn as worker_lost at that time, which admits a retry, and changes nothing else. |
| `TurnHistory.SavedRowLifecycle` | backend/apps/chat/services.py:89-183 | In every saved row of every run, whatever stale objects are written over it: an error code exactly if failed, an answer if completed, a completion time exactly if terminal. |
| `TurnHistory.AdmissionIsIdempotent` | backend/apps/chat/services.py:361-478 | Over any run for one user and request id: at most one question is created, and the attempt count is the number of answers that start a generation. |
| `TurnHistory.CreatedIff` | backend/apps/chat/services.py:387-441 | Over all runs: a request by anybody but the owner of the locked session, or without a space, is a scope error, one in a read-only space is refused; otherwise the first request whose question fits makes the Turn, and no later one does. |
| `TurnHistory.CreatedLeaves` | backend/apps/chat/services.py:409-441 | The request that makes the Turn leaves one accepted Turn on its first attempt, with its model, and one question unless it came with one. |
| `TurnHistory.ConflictIff` | backend/apps/chat/services.py:337-358 | Whatever happened since a request made the Turn, another one is answered as a conflict exactly if its session, owner, locked space, content, mode, thinking flag or protocol differs from that request's. |
| `TurnHistory.AnsweredByStatus` | backend/apps/chat/services.py:455-478 | The same request is answered by what the row says then: completed, in progress, retry exactly after a failure with a retryable code, terminal otherwise. |
| `TurnHistory.RetryStartsOver` | backend/apps/chat/services.py:461-478 | A retry makes the same Turn accepted again, with one more attempt, the model of the new request, and nothing of the failed attempt. |
| `TurnHistory.GenerationsAreSeparated` | backend/apps/chat/services.py:461-478 | Between two answers that start a generation the Turn entered a failure with a retryable code. |
| `TurnHistory.LeavesIff` | backend/apps/chat/services.py:131-183 | A completed or cancelled row is left exactly if some worker writes another status that the object it has loaded allows. |
| `TurnHistory.FinalForGoodIff` | backend/apps/chat/services.py:131-183 | A completed or cancelled Turn stays so in every continuation exactly if no worker still holds an object that says otherwise. |
| `TurnHistory.CompletedForGoodIff` | backend/apps/chat/services.py:440-455 | Then, and only then, every later request with the same content is answered with the completed Turn. |
| `TurnHistory.GoesBackIff` | backend/apps/chat/services.py:89-121 | Attempts never go down; while no retry raises them the status goes back exactly in a write whose target does not outrank the saved status. |
| `TurnHistory.UpToDateAdvances` | backend/apps/chat/services.py:89-121 | A worker whose object still says what the row says never makes such a write. |
| `TurnHistory.StatusOnlyAdvances` | backend/apps/chat/services.py:89-121 | Without such writes every status change between two retries raises the rank. |
| `TurnHistory.AnswersAreCounted` | backend/apps/chat/generation.py:367-470 | Over any run the number of stored answers is one if the Turn is completed, plus one for every time that a completed row was overwritten; a completed row names the last of them, and no earlier message changes its text. |
| `TurnHistory.OneAnswerIff` | backend/apps/chat/generation.py:367-470 | A completed Turn has exactly one answer exactly if no completed row was ever overwritten. |
| `TurnHistory.UpToDateStoresOnce` | backend/apps/chat/generation.py:367-470 | If every worker writes only while its object says what the row says, at most one answer is stored, exactly one if the Turn is completed. |
| `LostAnswer.StaleMarkLosesAnswer` | backend/apps/chat/generation.py:327-336 | The mark of a worker whose Turn was meanwhile completed by another fails the row without its answer, and the same request starts a generation again. |
| `LostAnswer.AnswerIsLost` | backend/apps/chat/generation.py:664-674 | A whole run from the first request on, for every request, in which one Turn stores two answers and loses the first. |
| `TurnHistory.UnchangedSince` | backend/apps/chat/stream_events.py:268-290 | With write times that increase, an unchanged update time means that the row was not written at all. |
| `TurnHistory.ConvergesOnlyUntouched` | backend/apps/chat/stream_events.py:290-326 | Convergence only ever fails a row that nobody wrote since the snapshot was taken. |
| `TurnWorkers.TraceIsRun` | backend/apps/chat/generation.py:481-717 | Whatever a generation does to row, object and messages, with writes of others anywhere in between, a run does. |
| `TurnWorkers.Generate` | backend/apps/chat/generation.py:481-717 | An undisturbed run of the generator is such a run, with the generator's own result. |
| `TurnWorkers.Play` | backend/apps/chat/services.py:361-478 | Every run, played on the objects' own methods. |
| `Acceptance.Acceptance.Publish` | backend/apps/chat/v3_views.py:156-200 | After a reservation: the response, what the log and the queue get for each call that may fail, and that the Turn is either handed over untouched or failed with its code and its reservation released. |
| `Acceptance.Acceptance.Accept` | backend/apps/chat/v3_views.py:111-200 | Repeated requests change nothing. Otherwise the response, the log, the queue, the reservations and the row are given for every failing call: capacity out of reach, no room, and everything after the reservation, each with its own error code. |
| `Acceptance.Acceptance.CleanUp` | backend/apps/chat/v3_views.py:159-173 | The clean-up's exact effect on log, reservations and row, for every call in it that may fail. |
| `Generation.Generation.IterChatTurn` | backend/apps/chat/generation.py:481-717 | For every stream of raw events and every point and kind of failure, the commit included: a run that is not turned away emits exactly one terminal event, last. It is done exactly if nothing was raised; then the row has an answer, which is the concatenation of the emitted deltas unless the row lock found another one. Otherwise the error event names the first failure; before the commit no message is added and, if the mark can be stored and the Turn was not failed before, the row is cancelled or failed with a retryable code; after the commit the answer is stored, and the mark is refused if the object knows and overwrites the row if not. Every write of the run is in its trace; a row that is in order stays so. |
| `Generation.Generation.Attempt` | backend/apps/chat/generation.py:522-638 | The events before the end, the first failure, and what it leaves of row, object and messages. |
| `Generation.Generation.PersistCompletedTurn` | backend/apps/chat/generation.py:367-470 | All or nothing, on the row that the lock finds, with the answer to replace looked up: the new row, messages and object are `AfterPersist`, whose meaning `TurnLifecycle.PersistWrites` and `AnswerVersions.AddedExtends` state. If the reply of the commit is lost, all this is stored and the object does not know. |
| `Generation.SourceIs` | backend/apps/chat/generation.py:351-403 | The answer to replace is the one that the caller names, or else that of the completed Turn for the same question that started last; there is none exactly if no such Turn has one. |
| `Generation.AnswerIsAdded` | backend/apps/chat/generation.py:367-470 | A run that stores its answer adds the text of its tokens to the messages that it finds, as a new version of the answer it replaces or as the first of a new group, and changes nothing else. |
| `Generation.Generation.Dropped` | backend/apps/chat/generation.py:554-600 | A consumer that drops the generator after any number of pipeline events leaves an active row, and the events are those of these pipeline events; messages are not touched. |
| `Generation.Generation.DroppedSaving` | backend/apps/chat/generation.py:602-610 | A worker killed between the saving phase and the commit leaves a row that is saving, and no message. |
| `Generation.Generation.Stream` | backend/apps/chat/generation.py:554-600 | The loop forwards exactly the events before the first fault, and the collected tokens are the text of the emitted deltas. |
| `Generation.Generation.Handle` | backend/apps/chat/generation.py:555-600 | One raw event: its fault, if any, comes before anything is emitted; the first token announces the answering phase and moves the Turn to answering. |
| `Generation.Generation.Mark` | backend/apps/chat/generation.py:327-348 | Marking as failed or cancelled never raises; it writes the object over whatever row it finds. |
| `Generation.Generation.Fail` | backend/apps/chat/generation.py:639-700 | Each kind of failure gets its error event and its final row. |
| `Generation.EmittedIsAnswer` | backend/apps/chat/generation.py:554-600 | What the loop emits contains nothing terminal, and its deltas concatenate to the tokens. |
| `Generation.ItemsOfEmitted` | backend/apps/chat/generation.py:554-600 | Apart from the text a stream emits the citations, quality and phase events of the pipeline, in order and unchanged, and with the transport the answering phase just before the first text. |
| `Generation.TextIsAnnounced` | backend/apps/chat/generation.py:580-600 | With the transport no text is emitted before the answering phase is announced. |
| `Generation.GoodRunShows` | backend/apps/chat/generation.py:536-638 | Apart from the text a good run shows the retrieving phase, those events, the saving phase and the usage if there is a transport, and the message as done. |
| `Generation.GoodIff` | backend/apps/chat/generation.py:481-717 | A run is good exactly if nothing went wrong: the lease, every call, every phase that is stored, no token after the deadline, a row that can be completed, and the commit. |
| `Generation.StreamFaultIs` | backend/apps/chat/generation.py:554-600 | The fault of a stream is the first one: what a check before an event raised, else the deadline at a token, else the answering phase that could not be stored. |
| `Generation.CodeTells` | backend/apps/chat/generation.py:639-700 | Which code stands for which fault, and for an unexpected one whether it hit the saving of the answer. |
| `Generation.RunsEndOnce` | backend/apps/chat/generation.py:522-700 | Both endings of a run give exactly one terminal event, and they add no answer text. |
| `Generation.ErrorCode` | backend/apps/chat/generation.py:639-700 | Every error code is a safe code, and each except cancellation is one that admits a retry. |
| `Generation.DisagreesIff` | backend/apps/chat/generation.py:617-700 | If nobody else completes or marks the Turn, a completed row without done is left exactly when something was raised after the commit and the object knew or the mark could not be stored. |
| `Generation.LateRunStores` | backend/apps/chat/generation.py:447-470 | A run that ends with an error after its commit has stored its answer; the row keeps it exactly if the object knew or the mark could not be stored. |
| `Generation.StoredIsShownIff` | backend/apps/chat/generation.py:391-397 | After done the stored text is the text that was shown exactly if the row lock found no other answer or one with the same text. |
| `Generation.AnotherTextIsStored` | backend/apps/chat/generation.py:391-397 | A concrete run that shows `b` and announces a message that says `a`; no message says `b`. |
| `AnswerVersions.AddedKeepsVersions` | backend/apps/chat/generation.py:404-438 | Adding an answer keeps versions in a group distinct and exactly one of them, the newest, current, so it never violates the constraints of models.py:146-155. |
| `AnswerVersions.AddedExtends` | backend/apps/chat/generation.py:401-440 | What is added: without an answer to replace the first and current version of a new group, everything else unchanged; with one the next version after the greatest of its group, current, no earlier one of the group current any more, everything else unchanged. |
| `AnswerVersions.RegenerateSource` | backend/apps/chat/generation.py:351-364 | The answer that is replaced belongs to the completed Turn for the same question that started last; there is none exactly if no such Turn has an answer. |
| `Events.AnswerOfView` | backend/apps/chat/stream_events_v3.py:188-231 | The view of a log in which neighbouring deltas are joined determines the answer text. |
| `DeltaBatcher.AnswerDeltaBatcher.Push` | backend/apps/chat/stream_events_v3.py:209-222 | Text comes out as a whole batch or waits; between pushes less than the maximum waits. |
| `DeltaBatcher.AnswerDeltaBatcher.Flush` | backend/apps/chat/stream_events_v3.py:224-231 | Everything that waits comes out. |
| `DeltaBatcher.ForwardOne` | backend/apps/chat/tasks.py:189-206 | Text never crosses another event. |
| `DeltaBatcher.ForwardText` | backend/apps/chat/tasks.py:194-199 | A piece of text is written with all that waited exactly if that is long enough or has waited long enough, and else waits. |
| `DeltaBatcher.ForwardItem` | backend/apps/chat/tasks.py:201-205 | Every other event is written at once, after the text that waited. |
| `DeltaBatcher.ForwardEvents` | backend/apps/chat/tasks.py:189-211 | For every event sequence and every clock, joining neighbouring deltas gives the same before and after the loop; no empty delta is written, and the batches are counted. |
| `EventStream.RedisTurnStreamV3.Append` | backend/apps/chat/stream_events_v3.py:19-44 | The next number, and what is retained is always the contiguous newest part of everything ever appended. |
| `EventStream.RedisTurnStreamV3.Replay` | backend/apps/chat/stream_events_v3.py:154-164 | Everything retained above the cursor. |
| `EventStream.RedisTurnStreamV3.Read` | backend/apps/chat/stream_events_v3.py:166-185 | The first 256 of those. |
| `EventStream.EventReader.Poll` | backend/apps/chat/v3_views.py:314-353 | A connection first asks for everything above its cursor, then for batches. |
| `EventStream.EventReader.YieldBatch` | backend/apps/chat/v3_views.py:314-356 | A batch is yielded up to and including its first done or error; then the connection ends. |
| `EventStream.DeliveriesIncrease` | backend/apps/chat/v3_views.py:306-356 | For every interleaving of appends, trims, reads and reconnects, the delivered numbers strictly increase over all connections and each carries its event. |
| `EventStream.ReadsExactlyOnce` | backend/apps/chat/v3_views.py:306-364 | A client that never lags by more than the log's length is given exactly the events after its first cursor, each once and in order, and each connection ends at its first done or error and nowhere else. |
| `EventStream.FetchIsComplete` | backend/apps/chat/stream_events_v3.py:154-185 | A fetch is empty exactly if nothing is left, and starts right after the cursor exactly if the reader does not lag. |
| `EventStream.EarlierErrorStopsReader` | backend/apps/chat/v3_views.py:314-320 | A reader from cursor zero never gets past an earlier attempt's error. |
| `EndToEnd.CoalescedEndsOnce` | backend/apps/chat/tasks.py:189-211 | Coalescing keeps the one terminal event, last, and the answer. |
| `EndToEnd.GenerateChatTurn` | backend/apps/chat/tasks.py:172-217 | Without a reservation the row is marked and nothing is written; a log that already ends is left alone; otherwise what the worker adds, if no append fails, is its announcement if that was missing and every event of the run with neighbouring text joined; it ends once, with the run's last event and its text. If nobody else completed or marked the Turn: after done the stored message is the text that was added, and after an error the row is completed exactly if the run was late and its mark did not take. |
| `EndToEnd.MarkTaskFailed` | backend/apps/chat/tasks.py:89-108 | The task's own mark fails a row that is still active, from a fresh object and without the lease. |
| `EndToEnd.ReaderIsSent` | backend/apps/chat/v3_views.py:306-364 | Whatever the log held before the worker's run and wherever the reader started: a reader that never lagged and whose connection has ended was sent the log from its first cursor to the end of that connection; this is the whole rest of the log exactly if no earlier attempt left a terminal event after the connection's cursor, and then its text is that of the worker's run exactly if no earlier attempt left text after the first cursor. |
| `EndToEnd.ReaderGetsAnswer` | backend/apps/chat/v3_views.py:306-364 | If only announcements stand before the run, a reader that started among them, never lagged and whose connection has ended was sent everything after its first cursor, and its text is that of the run. |
| `EndToEnd.AbandonedTextIsShown` | backend/apps/chat/stream_events.py:290-326 | A worker that dies after some text leaves no error event; a reader from the start is then shown that text in front of the next attempt's answer. |
| `EndToEnd.SomeReaderEnds` | backend/apps/chat/v3_views.py:314-320 | Such readers exist for every log without an earlier terminal event: one that replays it all. |
| `BrokenLog.GenerateChatTurn` | backend/apps/chat/tasks.py:172-223 | If any append fails, the log holds every event up to that one, text joined, and nothing terminal unless the failed append was the last one and has landed all the same. Before the end of the run nothing is stored and the Turn is failed retryably; at the end of a good run the answer is stored although the log may never end. |
| `BrokenLog.ReaderWaits` | backend/apps/chat/v3_views.py:314-356 | A log without a terminal event never ends a connection, over all of a reader's connections, lags included; only failures and lost authorization do. |
| `SessionLease.RedisSessionLease.Acquire` | backend/apps/chat/coordination.py:95-108 | Set-if-absent with expiry; the answer and the new state for every reply, lost replies included. |
| `SessionLease.RedisSessionLease.Renew` | backend/apps/chat/coordination.py:110-128 | Extends only the client's own key; a refusal or a failure sets the lost flag. |
| `SessionLease.RedisSessionLease.EnsureOwned` | backend/apps/chat/coordination.py:153-167 | Passes only if not lost and the key holds the client's token. |
| `SessionLease.RedisSessionLease.Release` | backend/apps/chat/coordination.py:169-190 | The answer and the new state, lost replies included: `AfterRelease`, whose meaning `ReleaseFrees` and `ReleasedIsGranted` state; another client's key stays. |
| `SessionLease.OwnershipNeverInterleaves` | backend/apps/chat/coordination.py:95-190 | After a second client passed its check, the first passes again only after a call of it acquired the key anew, that is found it free and was not lost on the way; for any clock, expiry and failures. |
| `SessionLease.OthersKeyIsSafe` | backend/apps/chat/coordination.py:17-29 | No operation of one client changes the key or the expiry of another's live lease, nor tells it that it owns it. |
| `SessionLease.ReleaseFrees` | backend/apps/chat/coordination.py:24-29 | A release that happens, by a client that acquired the lease and whose live key carries its token, leaves no key. |
| `SessionLease.AcquiredIff` | backend/apps/chat/coordination.py:95-108 | An acquisition that is answered is granted exactly if there is no live key; the key is then the client's for exactly 180 seconds. |
| `SessionLease.ReleasedIsGranted` | backend/apps/chat/coordination.py:95-190 | Over any run after such a release, with checks, renewals and releases only, the next acquisition that is answered is granted, whoever asks. |
| `SessionLease.OwnerPasses` | backend/apps/chat/coordination.py:110-167 | While its term lasts, an owner whose own calls are checks and renewals and are answered passes every check, and every renewal gives it a new term, whatever others do. |
| `SessionLease.SilentOwnerIsReplaced` | backend/apps/chat/coordination.py:95-108 | An owner that goes silent keeps all others out for exactly its term: an acquisition that is answered is refused before its end and granted from then on. |
| `SessionLease.LostIsPermanent` | backend/apps/chat/coordination.py:110-167 | The lost flag stays, and no later check passes. |
| `SessionLease.LostIff` | backend/apps/chat/coordination.py:110-167 | The flag is set exactly by a renewal or a check that a client which acquired the lease gets no yes for. |
| `SessionLease.TermIsExclusive` | backend/apps/chat/coordination.py:95-128 | With a monotone clock a grant keeps the key the owner's for the whole term. |
| `SessionLease.OthersAreRefused` | backend/apps/chat/coordination.py:95-167 | In that term every other client's acquisition, renewal and check is refused. |
| `Capacity.GenerationCapacityController.ReserveTurn` | backend/apps/chat/capacity.py:20-37 | The script's answer and new set: pruned, renewed, added or refused at the limit. |
| `Capacity.GenerationCapacityController.RenewTurn` | backend/apps/chat/capacity.py:39-50 | Only a live reservation is renewed. |
| `Capacity.GenerationCapacityController.ReleaseTurn` | backend/apps/chat/capacity.py:52-56 | Answers whether the member was stored, expired or not. |
| `Capacity.GenerationCapacityController.CountOutstanding` | backend/apps/chat/capacity.py:58-62 | Counts what has not expired. |
| `Capacity.NeverOverLimit` | backend/apps/chat/capacity.py:20-62 | After any operations with any clock there are never more reservations than the limit. |
| `Capacity.ReservingAgainAddsNothing` | backend/apps/chat/capacity.py:20-37 | Reserving again moves the expiry and adds nothing; the reported count is the stored one; a reservation is stored exactly if accepted. |
| `Capacity.RenewNeverRevives` | backend/apps/chat/capacity.py:39-50 | A renewal is accepted exactly if the reservation is stored and has not expired; then it lives for the full time from then on, and no other reservation changes but by expiry. |
| `Capacity.ReservationStands` | backend/apps/chat/capacity.py:20-50 | A reservation that was accepted or renewed is stored, with its expiry, until its time has passed, whatever is done for other Turns. |
| `Capacity.ReleaseMakesRoom` | backend/apps/chat/capacity.py:52-56 | A release removes that reservation only, and any Turn can be reserved after it. |
| `Capacity.ExpiredMakesRoom` | backend/apps/chat/capacity.py:20-37 | So can any Turn once the time of some reservation has passed. |
| `Capacity.LazyRefinesEager` | backend/apps/chat/capacity.py:20-62 | With a monotone clock every answer is that of a set that drops each reservation the moment it expires, except exactly the release of an expired but unpruned one. |
| `EventStoreV2.RedisTurnEventStore.AppendEvent` | backend/apps/chat/stream_events.py:46-79 | The next number, the buffer after expiry, and the checkpoint, which may fail: the event is then stored and the append reported as failed. |
| `EventStoreV2.RedisTurnEventStore.Checkpoint` | backend/apps/chat/views.py:836-840 | The durable value never goes down. |
| `EventStoreV2.RedisTurnEventStore.Clear` | backend/apps/chat/stream_events.py:206-212 | The buffer is dropped; the counter and the durable value stay. |
| `EventStoreV2.BufferIff` | backend/apps/chat/stream_events.py:46-79 | Over all runs the buffer holds, in order, exactly the numbers that were given out since the events were last cleared, expired or lost, but for those that an append since then found 900 seconds old. |
| `EventStoreV2.KeptAtLast` | backend/apps/chat/stream_events.py:75-77 | With a clock that does not go back, those are the numbers that are not that old at the last append. |
| `EventStoreV2.SequencesIncrease` | backend/apps/chat/stream_events.py:160-212 | Without counter loss numbers strictly increase over all attempts, also after the buffer is cleared or has expired and after checkpoints that failed. |
| `EventStoreV2.CheckpointsAreDurable` | backend/apps/chat/stream_events.py:189-196 | No checkpointed number exceeds the durable value. |
| `EventStoreV2.DurableIff` | backend/apps/chat/stream_events.py:189-197 | A number becomes durable when it is given out exactly if it ends the stream or is a multiple of 25, unless the checkpoint fails. |
| `EventStoreV2.DurableKeepsUp` | backend/apps/chat/stream_events.py:189-196 | If no checkpoint fails the durable value is at least the last multiple of 25 of the highest number. |
| `EventStoreV2.CountsFromDurable` | backend/apps/chat/stream_events.py:66-72 | After a loss the numbers go up one by one from the durable value. |
| `EventStoreV2.LossReissuesFew` | backend/apps/chat/stream_events.py:66-78 | Losing the counter at any moment never reissues a checkpointed number, and if no checkpoint fails it reissues at most 24. |
| `EventStoreV2.AllTwentyFourRepeat` | backend/apps/chat/stream_events.py:66-78 | A run in which all 24 repeat: the bound is reached. |
| `Decimals.PaddedWidth` | backend/apps/chat/stream_events.py:72 | The prefix has exactly its width if and only if the number fits. |
| `Decimals.PaddedOrder` | backend/apps/chat/stream_events.py:72 | String order of prefixes is numeric order. |
| `EventRecords.MemberRoundTrip` | backend/apps/chat/stream_events.py:72-72 | Number and record come back from a member, colons included, for every number below 10^20 and for no other, provided that the record's id decodes, which a JSON encoder with 14 significant digits grants below 10^14. |
| `EventRecords.DecodedIff` | backend/apps/chat/stream_events.py:214-226 | A string is read as an event exactly if it is the member of that event, its number is below 10^20 and its record has that id. |
| `EventRecords.UnavailableIff` | backend/apps/chat/stream_events.py:214-231 | A replay is unavailable exactly if something in the buffer is no member of such an event. |
| `EventRecords.MembersSortByNumber` | backend/apps/chat/stream_events.py:72-75 | Members with one score are kept in the order of their numbers. |
| `EventRecords.Replay` | backend/apps/chat/stream_events.py:214-231 | Malformed members make the whole replay unavailable; otherwise the events above the cursor come sorted. |
| `EventRecords.ReplayReturnsStored` | backend/apps/chat/stream_events.py:214-231 | In whatever order the buffer lists them, the replay is the stored events above the cursor, each once, by number. |
| `ServerSentEvents.StreamRoundTrip` | backend/apps/chat/stream_events.py:104-106 | A browser that reads the frames by section 9.2.6 of the HTML standard, with heartbeats anywhere between them, gets exactly the events that were sent. |
| `ServerSentEvents.CutStream` | backend/apps/chat/v3_views.py:325-356 | Wherever the connection breaks, the browser has read exactly the whole frames, and its last event id is that of the last of them. |
| `ServerSentEvents.ReconnectContinues` | backend/apps/chat/v3_views.py:306-314 | So the cursor of the next request is the number of the last event that was read, by the header alone or by a query parameter kept up to date; a query parameter that is not is what counts. |
| `ServerSentEvents.CursorOfId` | backend/apps/chat/v3_views.py:306-313 | The header that carries a number is parsed back to it. |
| `ServerSentEvents.CursorOfAfter` | backend/apps/chat/v3_views.py:306-313 | The query parameter is parsed back to its number whatever the header says. |
| `ServerSentEvents.CursorOtherwise` | backend/apps/chat/v3_views.py:306-313 | Without parameter and header, with a negative number, or with any character that no number has, the reader starts at the beginning; an empty parameter counts as none. |
| `SessionMemory.MemoryTable.Store` | backend/apps/chat/tasks.py:391-413 | The compare-and-set on the watermark under the row lock. |
| `SessionMemory.MemoryTable.Update` | backend/apps/chat/tasks.py:312-413 | One run of the summarizer without interference, with its early exits: disabled, no session, too few messages, an empty or unusable reply, a row that has moved on. |
| `SessionMemory.CommitBuildsOnCurrent` | backend/apps/chat/tasks.py:391-396 | A commit that goes through was computed from the very row that it replaces. |
| `SessionMemory.FoldsExactlyOnce` | backend/apps/chat/tasks.py:312-413 | For any interleaving of any number of runs, if messages become visible in the order of their times: the summary stands for exactly the messages up to the watermark, each once and in order, and the version counts the commits. |
| `SessionMemory.FoldsAtMostOnce` | backend/apps/chat/tasks.py:312-413 | Whatever the order in which messages become visible: none is folded twice, what is folded is in order and at or below the watermark, and the version counts the commits. |
| `SessionMemory.CommitPassesIff` | backend/apps/chat/tasks.py:330-347 | A commit passes over exactly the messages up to its new watermark that its run did not select, because they were not visible yet or share the time of the last one selected. |
| `SessionMemory.PassedForGood` | backend/apps/chat/tasks.py:330-347 | A message that was passed over is never folded later. |
| `SessionMemory.WatermarkGrows` | backend/apps/chat/tasks.py:389-399 | Every commit strictly raises the watermark. |
| `SessionMemory.FourStayUnfolded` | backend/apps/chat/tasks.py:339-347 | With a trigger above four, and messages in order, at least four messages stay out of the summary. |
| `SessionMemory.UndisturbedRun` | backend/apps/chat/tasks.py:330-413 | With messages in order, a run that nobody disturbs folds nothing below the trigger; else all but the four newest, which are then exactly the messages above the watermark, and all if there are no more than four. |
| `SessionMemory.SmallTriggerFoldsAll` | backend/apps/chat/tasks.py:343-345 | With a smaller one a first run folds everything. |
| `MemoryWindow.CutKeepsEnds` | backend/apps/chat/memory.py:46-59 | A cut message keeps a beginning and an end that do not overlap. |
| `MemoryWindow.FittingStays` | backend/apps/chat/memory.py:46-55 | A text that fits the cap is not touched. |
| `MemoryWindow.CutFitsCap` | backend/apps/chat/memory.py:33-59 | By the length estimate a cut message costs at most the cap, for every cap from 27 on. |
| `MemoryWindow.SmallerCapsAreExceeded` | backend/apps/chat/memory.py:33-59 | For every smaller cap some message is cut to more than the cap. |
| `MemoryWindow.SelectNewest` | backend/apps/chat/memory.py:118-129 | The loop's selection: non-empty, within budget unless it is one message, and the next older one would exceed it. |
| `MemoryWindow.BuildMemoryContext` | backend/apps/chat/memory.py:104-130 | The window is the longest run of the newest 60 messages that fits the budget, or the single newest one, oldest first, each with its role and its text cut to the cap; a missing or zero setting means the default. |
| `MemoryWindow.WindowIsLargest` | backend/apps/chat/memory.py:118-129 | So a run of newest messages fits the budget exactly if it is no longer than the window. |
| `MemoryWindow.TotalIsSum` | backend/apps/chat/memory.py:118-129 | What a run of messages costs is the sum of what its messages cost: the estimate of the text, once cut, and four. |
| `Outbox.ActionOutboxEvent.Claim` | backend/apps/notifications/outbox_services.py:81-108 | When an event is claimed and what the claim writes. |
| `Outbox.ActionOutboxEvent.Finish` | backend/apps/notifications/outbox_services.py:120-173 | Only the current attempt's holder writes its result; what it writes. |
| `Outbox.AttemptsAreFenced` | backend/apps/notifications/outbox_services.py:81-108 | Attempts in flight are pairwise distinct and none exceeds the row's. |
| `Outbox.OnlyNewestWrites` | backend/apps/notifications/outbox_services.py:120-173 | Only the newest attempt can change the row or report success. |
| `Outbox.DeliveredIsFinal` | backend/apps/notifications/outbox_services.py:81-173 | A delivered row never changes again. |
| `Outbox.DeliveredAtMostOnce` | backend/apps/notifications/outbox_services.py:111-173 | At most one dispatch ever reports success, exactly if the row is delivered. |
| `Outbox.ClaimsAreSpaced` | backend/apps/notifications/outbox_services.py:81-160 | Successive claims are a full lease apart, or a recorded failure and its backoff apart. |
| `Outbox.BackoffIsPowerOfTwo` | backend/apps/notifications/outbox_services.py:136-150 | The backoff is 2 to the power of the attempt, at most 1024 seconds. |
| `Outbox.NeverStuck` | backend/apps/notifications/outbox_services.py:81-108 | After 1024 seconds of quiet an event can be claimed exactly if it is not delivered, crashes included. |
| `Outbox.ClaimableIff` | backend/apps/notifications/outbox_services.py:81-97 | Over any run an event can be claimed from its creation on, from the end of the lease on while it is being delivered, from the next attempt on once it failed, and never once it is delivered. |
| `Outbox.ClaimLeads` | backend/apps/notifications/outbox_services.py:94-108 | A claim starts the next attempt under a lease of a minute. |
| `Outbox.FailureLeads` | backend/apps/notifications/outbox_services.py:126-150 | The failure of the newest attempt is recorded, and the event can be claimed from exactly the backoff on. |
| `Outbox.SuccessLeads` | backend/apps/notifications/outbox_services.py:152-173 | Its success makes the event delivered at that time and is the one that is reported. |
| `Outbox.OthersLeadNowhere` | backend/apps/notifications/outbox_services.py:120-173 | The end of an attempt that was overtaken, or whose event has ended, changes and reports nothing. |
| `WikiLinks.LinkAtIsPattern` | backend/apps/knowledge/links.py:28 | The scanner accepts exactly the strings of the pattern. |
| `WikiLinks.RewriteIsRename` | backend/apps/knowledge/links.py:177-179 | The two textual replacements are one pass that renames every reference and nothing else. |
| `WikiLinks.RenameCommutes` | backend/apps/knowledge/links.py:177-179 | The titles captured in the rewritten text are those of the original with old mapped to new, plain and aliased alike. |
| `WikiLinks.RenameBackIff` | backend/apps/knowledge/links.py:177-179 | Renaming back restores the text exactly if the new title was not referenced before. |
| `WikiLinks.ExtractionCommutesIff` | backend/apps/knowledge/links.py:35-46 | For all titles: the stripped titles follow the rename exactly if no reference is spoiled, that is, its stripped title and the rewriter disagree about it. |
| `WikiLinks.StrippedTitlesCommuteIff` | backend/apps/knowledge/links.py:35-46 | For titles without spaces around them: exactly if no reference is written with spaces around the old title. |
| `WikiLinks.PaddedReferenceStays` | backend/apps/knowledge/links.py:39-39 | A concrete padded reference that is linked but not renamed. |
| `WikiLinks.FilterIsExact` | backend/apps/knowledge/links.py:168-180 | The database filter drops no document that the rewrite would change. |
| `IdLinks.LinkAtIsPattern` | backend/apps/knowledge/links.py:29-32 | The scanner accepts exactly the strings of the second pattern. |
| `IdLinks.CodeCharsAre` | backend/apps/knowledge/links.py:31-31 | The characters of a code are the hexadecimal digits of both cases and the dash. |
| `IdLinks.ReferenceSwallows` | backend/apps/knowledge/links.py:29-32 | A reference that is closed as usual takes the text up to the next closing parenthesis with it. |
| `IdLinks.NeighbourIsFoundIff` | backend/apps/knowledge/links.py:40-46 | So of two closed references the second is found exactly if a closing parenthesis stands between them. |
| `IdLinks.SecondReferenceIsLost` | backend/apps/knowledge/links.py:40-46 | A concrete sentence with two references of which one is found. |
| `IdLinks.UuidRoundTrip` | backend/apps/knowledge/links.py:43-46 | Every id below 16^32, written with 32 digits in lower or in upper case and dashes after 8, 12, 16 and 20, is a code of the pattern and is read back. |
| `IdLinks.IsIdIff` | backend/apps/knowledge/links.py:40-46 | A code of the pattern is an id exactly if it holds four dashes, wherever they stand. |
| `IdLinks.WrittenReference` | backend/apps/knowledge/links.py:29-46 | A text that starts, after anything without a bracket, with a written reference refers first to that id, with the stripped anchor. |
| `TitleRename.KnowledgeBase.PropagateTitleRename` | backend/apps/knowledge/links.py:159-195 | The texts of the other documents of the space that may be rewritten become the rewritten ones, nothing else of them changes, and those whose text changed are counted; exactly their rows and those of documents that waited for the new title are rebuilt, from the texts at the end. If the renamed document can be linked, no other document of the space then has an unresolved row for its title. |
| `TitleRename.LinkedIff` | backend/apps/knowledge/links.py:48-84 | A document that alone bears its title and that no reference leads to is linked from the text of another one exactly if it can be linked, stands in that one's space or in a library of that space, and the text refers to its title. |
| `TitleRename.KnowledgeBase.RewriteReferers` | backend/apps/knowledge/links.py:166-190 | The loop's texts, rows and count; a row rebuilt in the middle is the one that the final texts give. |
| `TitleRename.KnowledgeBase.ResolveUnresolvedLinksTo` | backend/apps/knowledge/links.py:129-156 | The rows of exactly the documents that waited for the title are rebuilt, and their number is returned. |
| `TitleRename.NobodyWaits` | backend/apps/knowledge/links.py:129-156 | Why: a rebuilt row is resolved because the renamed document is a candidate, and no other row was waiting. |
| `TitleRename.RowsAfterwards` | backend/apps/knowledge/links.py:159-195 | Both loops together, document by document. |
| `TitleRename.RenameMovesNoLink` | backend/apps/knowledge/links.py:159-195 | If nobody else within reach bears the old or the new title, the new one was not referred to and no reference is spoiled, every wikilink leads to the same document after the rename as before. |
| `TitleRename.RenameKeepsWaiting` | backend/apps/knowledge/links.py:159-195 | And a title waits for its document exactly if it did before. |
| `LinkSync.LinkTable.SyncDocumentLinks` | backend/apps/knowledge/links.py:62-126 | The rows of the document become a function of its text, scanned with both patterns, and the documents, whatever was stored before; the rows of others stay; the returned number is what is stored. What the function says of a document is stated by `WrittenReferenceLinks`, `SoleBearerIsLinkedIff` and `OwnSpaceWins`. |
| `LinkSync.WrittenReferenceLinks` | backend/apps/knowledge/links.py:86-106 | A written reference to another document of a space in scope gives a row whose target is that document, whatever its status; if no later reference leads there, with the reference's stripped anchor, or the title if that is empty, cut at 255 characters. |
| `LinkSync.SoleBearerIsLinkedIff` | backend/apps/knowledge/links.py:69-84 | A document that alone bears its title and that no reference leads to has a row exactly if it is another document of a space in scope, is active, pending review or stale, and its title is wanted. |
| `LinkSync.OwnSpaceWins` | backend/apps/knowledge/links.py:72-84 | If another document of the own space that can be linked bears the title, no document of a different space is linked for it. |
| `LinkSync.Rebuild` | backend/apps/knowledge/links.py:67-120 | The rows that the loops build are the specified ones. |
| `LinkSync.CollectByTitle` | backend/apps/knowledge/links.py:69-84 | The loop computes the first candidate of each title and the set of titles that have one. |
| `LinkSync.AddRefs` | backend/apps/knowledge/links.py:93-95 | References by id come after and replace anchors; the last one counts. |
| `LinkSync.CreatedIsUnique` | backend/apps/knowledge/models.py:755-766 | The rebuilt rows satisfy both uniqueness constraints. |
| `LinkSync.NothingIsSkipped` | backend/apps/knowledge/links.py:121-123 | So ignoring conflicts drops nothing. |
| `LinkSync.OneIsChosen` | backend/apps/knowledge/links.py:77-84 | Some candidate of each title is chosen, one of the own space if there is one. |
| `LinkSync.ChosenOnce` | backend/apps/knowledge/links.py:77-84 | No two chosen documents share a title. |
| `LinkSync.UnresolvedIff` | backend/apps/knowledge/links.py:107-120 | There is an unresolved row for a title exactly if it is wanted and no candidate bears it. |
| `LinkSync.TargetIff` | backend/apps/knowledge/links.py:98-106 | A document has a row exactly if the title scan or a reference by id chose it. |
| `LinkSync.RowIff` | backend/apps/knowledge/links.py:86-106 | Which row a document has: the last anchor of the references by id, or else its own title. |
| `LinkSync.ChosenIsPreferred` | backend/apps/knowledge/links.py:77-84 | A chosen document is of the own space whenever some candidate of its title is. |
| `LinkSync.RowsAreLinks` | backend/apps/knowledge/links.py:62-120 | If no document is contested the rows are exactly the links that a definition without any scan describes. |
| `LinkSync.OrderDoesNotMatter` | backend/apps/knowledge/links.py:72-84 | Then the order in which the database lists the documents changes nothing. |
| `LinkSync.OrderMattersIff` | backend/apps/knowledge/links.py:72-95 | Some order of the documents gives other rows exactly if a document is contested: another one that could be chosen bears its wanted title, and no reference by id settles its own row. |
| `Vectors.CosineIsSymmetric` | backend/apps/knowledge/similarity.py:32-38 | The score does not depend on the order of the pair. |
| `Vectors.CauchySchwarz` | backend/apps/knowledge/similarity.py:32-38 | The inequality behind the bound, also for vectors of different lengths. |
| `Vectors.CosineAtMostOne` | backend/apps/knowledge/similarity.py:32-38 | No score exceeds one in absolute value. |
| `Vectors.CosineIgnoresScale` | backend/apps/knowledge/similarity.py:32-38 | A score does not change when a vector is scaled. |
| `Vectors.DotAppend` | backend/apps/knowledge/similarity.py:33-33 | The product is the sum over the coordinates, |
| `Vectors.RestIsLeftOut` | backend/apps/knowledge/similarity.py:33-33 | and what a longer vector has more is left out. |
| `Vectors.CosineOfItself` | backend/apps/knowledge/similarity.py:32-38 | A vector scores one with itself, a vanishing one zero. |
| `Vectors.NearbyScores` | backend/apps/knowledge/similarity.py:32-38 | The scores of two vectors with any third one differ by at most twice their distance relative to the length of the first. |
| `PooledEmbedding.ComputePooledEmbedding` | backend/apps/knowledge/similarity.py:41-58 | The pooled vector of any chunks is `Pooled`: what that means is stated by `TotalAppend`, `TotalOfOne`, `UnusableIsIgnored`, `PooledInAnyOrder`, `AverageIsMeanIff` and `StoredIsNear`. |
| `PooledEmbedding.TotalAppend` | backend/apps/knowledge/similarity.py:51-57 | The sum of two lists of vectors is the sum of their sums, in every coordinate; |
| `PooledEmbedding.TotalOfOne` | backend/apps/knowledge/similarity.py:53-55 | that of one vector is the vector, and nothing for another dimension. |
| `PooledEmbedding.UnusableIsIgnored` | backend/apps/knowledge/similarity.py:44-47 | A chunk without an embedding, or with a vanishing one, changes nothing wherever it stands. |
| `PooledEmbedding.PooledInAnyOrder` | backend/apps/knowledge/similarity.py:41-58 | The order of the chunks decides only by the dimension of the first usable one: any other order that starts with the same dimension gives the same vector, |
| `PooledEmbedding.OneDimensionInAnyOrder` | backend/apps/knowledge/similarity.py:41-58 | and so does every order if all chunks have one dimension. |
| `PooledEmbedding.HalfWay` | backend/apps/knowledge/similarity.py:50-58 | Two unit vectors are pooled to the one half way between them. |
| `PooledEmbedding.AverageScoresLikeTheMean` | backend/apps/knowledge/similarity.py:50-58 | Dividing by too many vectors alone changes no score. |
| `PooledEmbedding.AverageIsMeanIff` | backend/apps/knowledge/similarity.py:50-58 | The average is the mean exactly if all usable chunks have the first one's dimension or their sum vanishes. |
| `PooledEmbedding.RoundingCanTell` | backend/apps/knowledge/similarity.py:58-58 | After the rounding it can change a score: concrete chunks that score 0 instead of 1. |
| `PooledEmbedding.StoredIsNear` | backend/apps/knowledge/similarity.py:58-58 | Every stored coordinate is within half of 10^-8 of the exact one. |
| `PooledEmbedding.EqualDimensionsSuffice` | backend/apps/knowledge/similarity.py:50-58 | If all usable chunks have the same dimension, what is stored is the rounded mean. |
| `PooledEmbedding.StoredScoreIsNear` | backend/apps/knowledge/similarity.py:58-58 | The rounding moves no score by more than 10^-8 times the square root of the dimension over the length of the exact average. |
| `Rounding.RoundIsNear` | backend/apps/knowledge/similarity.py:58-58 | Rounding to eight decimals moves a number by at most half of 10^-8. |
| `Rounding.TiesGoToEven` | backend/apps/knowledge/similarity.py:58-58 | Of two neighbours that are equally near the even one is taken. |
| `Rounding.RoundStaysBetween` | backend/apps/knowledge/similarity.py:102-102 | Rounding to four decimals does not cross a multiple of 10^-4, so no stored score falls below the threshold. |
| `PooledEmbedding.PooledIsNotEmpty` | backend/apps/knowledge/similarity.py:44-51 | No pooled vector is empty. |
| `Similarity.SimilarityIndex.RefreshDocument` | backend/apps/knowledge/similarity.py:61-112 | The new vectors and edges, and that the returned number is that of the document's edges in the table. |
| `Similarity.RowsAre` | backend/apps/knowledge/similarity.py:87-104 | The rows built for a document are exactly the pairs with similar candidates, with their scores. |
| `Similarity.WindowIsEverybody` | backend/apps/knowledge/similarity.py:77-86 | The cut to 300 candidates drops nobody while a space has at most 301 documents. |
| `Similarity.WindowIsNewest` | backend/apps/knowledge/similarity.py:77-86 | A document is compared with the candidates that were updated last: if one is looked at, so is every candidate before it, and there are 300 of them or nobody is left out. |
| `Similarity.TableIsSound` | backend/apps/knowledge/similarity.py:61-107 | For any symmetric score: after any saves, deletions and refreshes in any order the table holds only true edges: one space, both vectors stored, the current score above the threshold, rounded to four decimals. |
| `Similarity.EdgeIff` | backend/apps/knowledge/similarity.py:61-107 | Exactly which edges are there, while documents come, go and change their status between the calls: the similar pairs whose last refresh saw the other document active or stale. |
| `Similarity.TableIsBruteForce` | backend/apps/knowledge/similarity.py:61-107 | For any symmetric score: if all documents are active or stale throughout and no space ever has more than 301, the incremental table is the brute-force one after any saves, deletions and refreshes in any order, with repeats. |
| `Similarity.DraftsDependOnOrder` | backend/apps/knowledge/similarity.py:77-86 | A concrete draft and active document for which the order of the refreshes decides about the edge. |
| `Similarity.CosineTable` | backend/apps/knowledge/similarity.py:61-107 | So it is with the cosine, and every stored score lies between 0.8 and one. |
| `Keyset.ListDocuments` | backend/apps/knowledge/platform_views.py:140-200 | The page is the first 50 rows, and there is a next cursor, the last row's key, exactly if more rows follow. |
| `Keyset.WalkDescends` | backend/apps/knowledge/platform_views.py:117-142 | Under any inserts and deletes between pages the walk strictly descends. |
| `Keyset.PaginationIsComplete` | backend/apps/knowledge/platform_views.py:117-200 | Following the cursors to the end returns each row that was there throughout exactly once, in order. |
| `Keyset.BelowNext` | backend/apps/knowledge/platform_views.py:133-138 | The next page continues where the last one stopped. |
| `Keyset.FixedTableTerminates` | backend/apps/knowledge/platform_views.py:117-200 | On a fixed table the walk ends after one page for every 50 rows and returns the listing. |

## Left out

- HTTP, permissions, serializers, audit logging, notification texts, metrics, translation, frontend: input and output without an invariant of their own.
- The retrieval pipeline, the language model and the tokenizer: raw pipeline events are an arbitrary sequence, token cost an arbitrary function (or a quarter of the length), summaries are terms that record what was folded.
- JSON: event payloads are opaque single-line strings, and the decoder of stored records is a parameter that returns the id of the records it accepts.
- Threads, sockets and job delivery: renewals, expiry, crashes and repeated delivery are steps of the runs.
- Floating point: scores, vectors and ratios are exact numbers with any square root function; only the rounding to four and eight decimals is modelled, exactly.
- Generation.Generation.IterChatTurn: does not model a fault after the usage event or after done, nor writes of others before the first three transitions, which overwrite them unseen; `TurnHistory` has these writes, and a consumer that stops early is Dropped.
- EndToEnd.GenerateChatTurn: does not model failing appends, which BrokenLog.GenerateChatTurn does.
- BrokenLog.GenerateChatTurn: does not model a failing append together with writes of others, other than before the row lock and the final mark.
- TurnHistory.AnswersAreCounted: does not model the lease as a step, because no write depends on it; SessionLease keeps the checks of two workers apart, not their writes.
- EventStoreV2.SequencesIncrease: does not model two stores that append at the same time from different initial values; one attempt is active.
- EventRecords.Replay: does not model prefixes with digits outside ASCII, which int() accepts; such members count as malformed.
- ServerSentEvents.CursorOfId: does not model headers with underscores or digits outside ASCII, which int() accepts.
- AnswerVersions.AddedExtends: does not model the link from a new version to the answer it replaces, nor token counts, timings and quality fields of a message.
- TurnHistory.RetryStartsOver: does not model the answer mode, budget, policy code and libraries that a retry takes from the new request.
- AnswerVersions.AddedKeepsVersions: does not model two transactions that add to one group at the same time, because the row lock is on the Turn and not on the group.
- SessionMemory.MemoryTable.Update: does not model key facts and the length caps of a parsed reply; a reply is empty, unusable or a summary.
- SessionMemory.FoldsExactlyOnce: does not cover messages that become visible out of the order of their times or share a time; SessionMemory.FoldsAtMostOnce and SessionMemory.CommitPassesIff do.
- Similarity.TableIsBruteForce: does not model documents that move to another space, and takes updates of the pooled vector and the edges as one step.
- TitleRename.KnowledgeBase.PropagateTitleRename: does not model errors that end the loop and are only logged; the order of the documents is the same in both loops, and documents without a space are not modelled.
- TitleRename.RenameMovesNoLink: states a sufficient condition, and does not cover documents of other spaces that refer to the renamed one through a library, because their texts are not rewritten.
- Expiry of the two keys of the version-3 log: they are taken not to expire; a reader that lags behind the trim is covered by the `lagged` flag.
- BrokenLog.ReaderWaits: does not model a connection that ends because its iterator raised or authorization was lost; the client's next connection is a step of the runs.
- Heartbeats outside the text framing.
- enqueue_action_outbox and wake_action_outbox: one lookup by deduplication key and a digest comparison.
- Signing of pagination cursors, and the search filters: a table is the set of rows that match.
- Sorting of unresolved titles before they are stored: rows have no order in the table.
- JSON keys that must not appear in payloads.
- Review gates, archive and file name checks, taxonomy, favourites, freshness, feedback and circuit breakers: settled by reading one branch.
