# An event-sourcing kernel, verified

This project models the event-sourcing library and proves what it is for. It covers

- **versions and checks** (`Versions.dfy`): 32-bit stream versions with wrap-around written out, exact and absent checks;
- **the in-memory event store** (`EventStore.dfy`): append-only logs, optimistic concurrency, single-use lazy streams;
- **aggregate roots and their repository** (`Aggregates.dfy`): folding, recording, saving, and what a failed save does to a root;
- **the store as a concurrent object** (`Concurrency.dfy`): every step of readers, writers and handlers interleaved under the read-write lock;
- **what its clients get** (`ConcurrentClients.dfy`): that everything committed or read was asked for, what a client nobody disturbs gets, and that the store never gets stuck;
- **the TodoList** (`Todo.dfy` on values, `TodoList.dfy` as mutable objects with the handlers, `TodoCommands.dfy` as functions of the store, `TodoSystem.dfy` for concurrent handlers);
- **the PostgreSQL store** (`PgTables.dfy` for the tables and their constraints, `PgStore.dfy` for transactions run statement by statement, `PgSnapshots.dfy` for runs of a repository with snapshots, `PgReuse.dfy` for roots reused after a failed save, `PgRepository.dfy` for its methods);
- **derived views** (`Users.dfy` for the user and its serdes, `EmailIndex.dfy` for the projection by email, `Tracking.dfy` for the tracking store, `Scenario.dfy` for the query scenario).

Code that changes state is written as classes and methods with the source's loops; each method is proved equal to
a function of the old state, and the theorems are about those functions and about runs of them.

## How to read it

- `AppendTo` is the meaning of an in-memory append, `SerialAppend` and `SerialSave` that of PostgreSQL transactions
  that run alone. Methods and step machines are tied to them.
- `Fold` applies events in order and stops at the first error. An aggregate is a zero value and an `apply` function
  that returns a state and whether there was an error.
- A PostgreSQL transaction has a private overlay of writes. `faults` is the set of statement numbers that fail,
  `others` are the tables as other sessions leave them between the last statement and the commit (any tables that keep
  the table invariant, and the same tables when there are no other sessions), and a commit succeeds only if the rows
  that the transaction read are unchanged there. `begins` and `queries` say whether the connection is obtained.
- The metadata keys `Recorded-At` and `Recorded-With-New-Overall-Version` are the constructors `RecordedAt` and `OverallVersion`.
- The clock, the current time of each event and cancellation of a context are parameters.

## What the code does that one might not expect

- A save flushes the recorded events before it tries to append them (`aggregate/event_sourced_repository.go:104`).
  After a failed save the root's version still counts them: `SaveAfterAnyRun` says exactly when any save is accepted,
  `ReuseAfterFailure` when such a root is, and `StaleRootAccepted` is a run in which it is, on a stream it never read.
  A second save with nothing recorded even returns no error. With the PostgreSQL repository such a save can overwrite
  the snapshot of another client's stream (`ReusedRootOverwrites`, `SnapshotOverwritten`). All safety theorems about
  runs therefore drop a root when its save fails, as the handlers do.
- An empty append to a missing stream succeeds in memory and fails in PostgreSQL, where version 0 breaks a constraint.
  `AppendAnswers` shows that this, reaching 2^32 events and a message that does not serialize are the only differences.
- Comments say that version arithmetic should not overflow. Where it does, the in-memory check passes on any
  length congruent modulo 2^32 (`AppendMeaning`), while in PostgreSQL an append that crosses 2^32 always fails on a
  row with version 0, so the table invariant needs no bound on lengths.
- The comparison of versions after the append of a snapshotting save (`postgres/aggregate_repository.go:141`) never fails.
- `View.Version` is said to avoid processing events again (`internal/user/user_by_email.go:26`). The version of a view
  is never advanced, so an old update is processed again whenever it is delivered again; `RedeliveryIsIgnored` gives
  the exact condition and `OldUpdateIsReprocessed` a history.
- Commands are said to be idempotent (`examples/todolist/internal/todolist/connect_handler.go:24-26`). Repeating a
  create, an add or a delete returns an error and changes nothing; repeating a mark appends one more event, which
  leaves the replayed list as it was.
- `Metadata.With` is said to return a new reference (`message/message.go:20`). It updates the caller's map; an append to
  PostgreSQL changes the metadata of the caller's envelopes, in the two added keys only.

## Model

| member | source | states |
|---|---|---|
| Versions.MinusPlus | aggregate/event_sourced_repository.go:110 | Subtracting a length from a version undoes adding it, and adding undoes subtracting, whatever wrapped at 2^32. |
| Versions.PlusToVersion | event/store_inmemory.go:95-105 | Converting a sum of lengths once, or converting and then adding with wrap-around, gives the same version. |
| Versions.SameVersion | event/store_inmemory.go:95-97 | Two lengths have the same version exactly when they differ by a multiple of 2^32, and below 2^32 exactly when they are equal. |
| EventStore.AppendMeaning | event/store_inmemory.go:86-108 | An append is refused exactly when an exact check is not congruent to the stream's length, with a conflict of the expected version and the length as a version; else it adds the batch at the end of that stream, leaves all others, and returns the new length as a version. |
| EventStore.InMemoryStore.Append | event/store_inmemory.go:86-108 | The method returns what the append function says of the old logs and leaves those logs, or the old ones when refused. |
| EventStore.InMemoryStore.Stream | event/store_inmemory.go:36-41 | Opening a stream reads nothing and yields nothing before it is iterated. |
| EventStore.SelectedIsSuffix | event/store_inmemory.go:50-68 | On streams shorter than 2^32 the yielded events are the contiguous suffix from the selected version on, each with its position as version; selecting from 0 is selecting from 1. |
| EventStore.SelectedStable | event/store_inmemory.go:50-68 | What the first events of a log yield does not depend on what is appended after them. |
| EventStore.SelectedPrefix | event/store_inmemory.go:50-68 | At any point of an iteration what was yielded is a prefix of what the complete iteration yields. |
| EventStore.EventStream.Iter | message/stream.go:61-73 | Only the first call gives the sequence that runs the producer; a later one leaves the already-iterated error and does not disturb an iteration under way. |
| EventStore.EventStream.Range | message/stream.go:70-72 | Each time the producing sequence is ranged over, the producer starts again from the beginning of the stream and keeps the error it found. |
| EventStore.EventStream.Next | event/store_inmemory.go:41-71 | The producer's loop up to its next yield: the yielded sequence stays the selection among the events looked at, a selection from 0 skips none, and it ends by itself only at the end of the stream, without error, or where the context is done, with that error. |
| EventStore.EventStream.First | event/store_inmemory.go:41-71 | A loop over a new stream starts with the selection's first event, or ends as the producer does. |
| EventStore.EventStream.Break | message/stream.go:27-28 | Leaving the loop ends the iteration without an error. |
| Aggregates.FoldSplit | aggregate/aggregate.go:113-124 | Folding a concatenation is folding the second part from where the first got, unless the first failed. |
| Aggregates.FoldStops | aggregate/aggregate.go:114-117 | A fold ends at the first event that fails, whatever follows. |
| Aggregates.AcceptedCountMeaning | aggregate/aggregate.go:113-124 | The number of recorded events is that of the longest prefix that applies, and all are recorded exactly when the whole list applies. |
| Aggregates.RecordStops | aggregate/aggregate.go:113-124 | A recording that fails after i events has recorded exactly those, counted them in the version, and left the state that the failing event left. |
| Aggregates.PartialRecording | aggregate/aggregate.go:113-124 | With an Apply that changes nothing on an error, the state after a failed recording is the fold of exactly the recorded events. |
| Aggregates.BaseRoot.FlushRecordedEvents | aggregate/aggregate.go:100-105 | Returns the recorded events, empties the list, keeps the version. |
| Aggregates.BaseRoot.Track | aggregate/aggregate.go:119-120 | Adds one event at the end of the recorded ones and one to the version. |
| Aggregates.Save | aggregate/event_sourced_repository.go:103-117 | Whatever comes of a save the recorded events are gone and the version is kept; the store changes exactly as an append checked against the version less the recorded events says. |
| Aggregates.CoherentRecord | aggregate/aggregate.go:113-124 | Recording, even when it fails part way, keeps a root the fold of its stored prefix followed by its recorded events. |
| Aggregates.CoherentSave | aggregate/event_sourced_repository.go:103-117 | A save of a coherent root is accepted exactly when the log still has the length it was loaded at (modulo 2^32), and its unsigned subtraction then gives that length without wrapping. |
| Aggregates.CoherentAfterSave | aggregate/event_sourced_repository.go:103-117 | After an accepted save the root is the fold of the whole new log, which is the old one and the recorded events. |
| Aggregates.RootCoherence | aggregate/event_sourced_repository.go:18-117 | Over every run from a coherent root with recordings, appends by others and saves none of which failed, on logs shorter than 2^32: state is the fold of a stored prefix and the recorded events, and the log only grew; version is their number and the subtraction made by a save does not wrap, unless the unsaved events themselves reach 2^32. |
| Aggregates.StartsCoherent | aggregate/event_sourced_repository.go:81-97 | A root just loaded is coherent with its whole log, and a new root with any log. |
| Aggregates.SaveStepIsSave | aggregate/event_sourced_repository.go:103-117 | A save of a run has the outcome and the log of the repository's save, on any store whose stream holds the log. |
| Aggregates.SaveAfterAnyRun | aggregate/event_sourced_repository.go:103-117 | In every run, whatever failed before: a save is accepted exactly when nothing is recorded or the log is as long (modulo 2^32) as the root was at first plus all the events its saves flushed since, stored or lost. |
| Aggregates.ReuseAfterFailure | aggregate/event_sourced_repository.go:103-117 | After a failed save and any appends by others, a root that records any events that apply is accepted exactly when the others appended as many events as were lost (modulo 2^32); a second save with nothing recorded returns no error although the events are in no log. |
| Aggregates.StaleRootAccepted | aggregate/event_sourced_repository.go:103-117 | For any two creations of one stream, a run in which the loser's save is refused, and its second save, of the one event recorded since, is accepted behind the winner's event: the log folds to the winner's state with it, the root shows the loser's. |
| Concurrency.OnlyWritesChange | event/store_inmemory.go:86-108 | No step changes a stream or the history except the write of a client that holds the write lock. |
| Concurrency.DeliverKeeps | event/store_inmemory.go:50-68 | Delivering one event keeps the system invariant: a handler in the middle of reading holds the fold of exactly the events it saw. |
| Concurrency.DecideKeeps | examples/todolist/internal/todolist/add_item_command.go:33-56 | A waiting batch was decided on the fold of what its handler loaded, and its check expects that length. |
| Concurrency.WriteKeeps | event/store_inmemory.go:92-107 | A write keeps the invariant of every client and of the history. |
| Concurrency.StepKeepsInv | event/store_inmemory.go:36-108 | Every step of every client keeps the invariant: lock discipline, streams equal to the committed batches, every client's knowledge true of the store. |
| Concurrency.Serialisable | event/store_inmemory.go:86-108 | In every run, on streams shorter than 2^32, each batch that a handler committed to the stream it loaded was decided on the fold of exactly the log it was appended to and stays there; a handler that loads nothing commits only to an empty stream, and none commits an empty batch; streams are the concatenation of committed batches. |
| Concurrency.ConsistentReads | event/store_inmemory.go:36-72 | For every finished or abandoned iteration of every run there is a step of that run at which the client that had opened the stream got the read lock, with no writer about; the iteration saw a prefix of the selected suffix of the stream as it was at that step, a complete one all of it, with contiguous versions below 2^32. |
| Concurrency.EveryReadLocked | event/store_inmemory.go:41-44 | Every read of a run, under way or finished, began with such a step, and remembers the number of batches committed then. |
| Concurrency.NoWriteDuringRead | event/store_inmemory.go:42-43 | While any client reads, no step of any client changes a stream. |
| ConcurrentClients.EverythingWasAsked | event/store_inmemory.go:36-108 | In every run, each stream that a client has open, each batch it waits to append with the check it was given, and each committed batch goes back to an action of that client with the same stream, selector, check and batch. |
| ConcurrentClients.DirectAppendsAreChecked | event/store_inmemory.go:86-108 | For every committed direct append of a run there is an action that asked for that very batch on that stream, and the exact check it gave, if any, is the length (modulo 2^32) of the log the batch was appended to. |
| ConcurrentClients.ReadsWereAsked | event/store_inmemory.go:36-44 | Every finished read was asked for before it got the lock: by a query for that stream and selector, or by a command that loads that stream, from its beginning. |
| ConcurrentClients.LoneAppend | event/store_inmemory.go:86-108 | From a state in which nobody holds the lock, the steps of a direct append leave the streams of the sequential append, committed once or not at all, and the lock free. |
| ConcurrentClients.LoneQuery | event/store_inmemory.go:36-72 | A query that nobody interrupts yields the whole selection of the stream, whoever else reads, and gives the read lock back. |
| ConcurrentClients.ReadersCanLeave | event/store_inmemory.go:51-66 | A query may leave at any event, and any reader is stopped where its context is done; either gives the lock back with what was seen, marked incomplete. |
| ConcurrentClients.ReadersLeaveOnlySo | event/store_inmemory.go:50-71 | And in no other way does a reader give up the lock: as a query that leaves, where its context is done with events left, at the end of the stream, or as a load at an event that does not apply. |
| ConcurrentClients.LoadsEventByEvent | aggregate/event_sourced_repository.go:18-32 | One event more of a load in any reachable state: while the log replays the handler holds its fold so far, and at the first event that does not apply it gives the lock back having seen exactly the events up to that one. |
| ConcurrentClients.NeverStuck | event/store_inmemory.go:42-43 | No deadlock: in every reachable state with a busy client some action changes the state. |
| Todo.ApplyIsAtomic | examples/todolist/internal/todolist/todolist.go:60-114 | An event that does not apply leaves the list as it was. |
| Todo.ItemEffect | examples/todolist/internal/todolist/item.go:33-54 | What each event does to an item, field by field, and exactly which events are an error that leaves it alone. |
| Todo.ApplyFailsExactly | examples/todolist/internal/todolist/todolist.go:60-114 | An event does not apply exactly when it is unknown or marks an item that is not in the list. |
| Todo.ListRootCoherence | aggregate/event_sourced_repository.go:18-117 | Root coherence holds of lists in every run. |
| Todo.StaleListAccepted | aggregate/event_sourced_repository.go:103-117 | A run in which a list's first save is refused and its second is accepted and writes its item into another client's list of another title. |
| Todo.CommandEffect | examples/todolist/internal/todolist/todolist.go:131-253 | Without reference to events: exactly when each command succeeds and when each of its errors is returned, and the list that its success leaves, field by field. |
| Todo.WithoutMeaning | examples/todolist/internal/todolist/todolist.go:96-107 | Deleting leaves only items of the list with another identifier and keeps identifiers distinct. |
| Todo.WithoutKeepsTheRest | examples/todolist/internal/todolist/todolist.go:96-107 | Deleting keeps every item with another identifier, once, unchanged and in order, and no other. |
| Todo.LawfulKeepsWellFormed | examples/todolist/internal/todolist/todolist.go:74-114 | An event that may come next applies without error and keeps title, owner, and identified, titled, distinct items. |
| Todo.ProducedReplays | examples/todolist/internal/todolist/todolist.go:74-208 | Every log that commands can write replays without error, starts with its only creation, which names the stream, and folds to a well-formed list. |
| Todo.ProducedNext | examples/todolist/internal/todolist/todolist.go:168-253 | An event can follow a produced log if and only if some command on the replayed list records it. |
| Todo.ProducedFirst | examples/todolist/internal/todolist/todolist.go:131-160 | A first event is allowed if and only if some creation of that very list records it. |
| Todo.SurvivorsAfter | examples/todolist/internal/todolist/todolist.go:90-107 | What one more event does to the items that survive a log: a mark sets every survivor with that identifier, a deletion removes them. |
| Todo.MarkOnce | examples/todolist/internal/todolist/todolist.go:50-71 | With distinct identifiers, changing the first match is changing every match. |
| Todo.LogMeaning | examples/todolist/internal/todolist/todolist.go:74-114 | A replayed list has the title, owner and time of its first event, and its items are, in log order, the added items that no later event deletes, each completed exactly when the last mark after its addition says done. |
| TodoList.Item.Apply | examples/todolist/internal/todolist/item.go:33-54 | The item object becomes the value that applying the event to its old value gives, with the same error. |
| TodoList.TodoList.ItemByID | examples/todolist/internal/todolist/todolist.go:50-58 | Returns the very object of the first item with the identifier, or null exactly when there is none. |
| TodoList.TodoList.ApplyItemEvent | examples/todolist/internal/todolist/todolist.go:60-71 | Changes one item object in place; as a value only the first matching item of the list changes. |
| TodoList.TodoList.ItemsWithout | examples/todolist/internal/todolist/todolist.go:97-107 | The loop keeps the same objects, in order, without repetition, whose values are those with another identifier. |
| TodoList.TodoList.Apply | examples/todolist/internal/todolist/todolist.go:74-114 | The object graph becomes the value the event function gives for the old one, on an error the old one; items are the old objects or newly allocated ones, none twice. |
| TodoList.TodoList.RecordThat | aggregate/aggregate.go:113-124 | Stops at the first event that does not apply: exactly the k before it are recorded and counted, and the list is the fold of just those. |
| TodoList.TodoList.AddItem | examples/todolist/internal/todolist/todolist.go:168-196 | Records the addition, or returns the first failing check's error and changes nothing. |
| TodoList.TodoList.RecordItemEvent | examples/todolist/internal/todolist/todolist.go:198-208 | Records the given event for an existing item, or returns the error and changes nothing. |
| TodoList.TodoList.MarkItemAsDone | examples/todolist/internal/todolist/todolist.go:214-223 | Records the done mark of an existing item, or refuses and changes nothing. |
| TodoList.TodoList.MarkItemAsPending | examples/todolist/internal/todolist/todolist.go:229-238 | Records the pending mark of an existing item, or refuses and changes nothing. |
| TodoList.TodoList.DeleteItem | examples/todolist/internal/todolist/todolist.go:244-253 | Records the deletion of an existing item, or refuses and changes nothing. |
| TodoList.TodoList.ApplyAndAdvance | aggregate/event_sourced_repository.go:19-25 | One turn of the rehydration loop: the list, its version and the stream advance together, or the event does not apply and only the stream is left. |
| TodoList.TodoList.ApplyStream | aggregate/event_sourced_repository.go:19-31 | The loop goes through the states that the events give one after the other, with the version of the last event applied, and ends at the end of the stream, where the context is done, or at an event that does not apply, with that error. |
| TodoList.TodoList.RehydrateFromEvents | aggregate/event_sourced_repository.go:18-32 | Succeeds exactly when the whole stream was seen and every event applied; then the object is its fold and the version its length; otherwise the error tells an event that does not apply from a context that was done. |
| TodoList.Create | examples/todolist/internal/todolist/todolist.go:131-160 | Returns a new list with one recorded event and version 1, or the error of the first failing check. |
| TodoList.GetRoot | aggregate/event_sourced_repository.go:81-97 | For any stored stream and cancellation point, said over the log: the error is that of an event that does not apply exactly when what was seen does not replay, that of the context exactly when it is done before the end and what was seen replays, and not found exactly when the whole log replays and its length reads as 0; otherwise the root is the fold of the entire stream, with its length as version and nothing recorded, all objects new. |
| TodoList.GetTwice | aggregate/event_sourced_repository.go:81-97 | Roots from separate loads share no item object: no item of one is an item of the other. |
| TodoList.HandleCreate | examples/todolist/internal/todolist/create_command.go:31-44 | Creating starts from a list at version 0 without loading and equals the command function: the refusal, a conflict of 0 with the length, or the creation alone in the stream. |
| TodoList.HandleAddItem | examples/todolist/internal/todolist/add_item_command.go:33-56 | Load, decide, save on objects is the command function of the store. For every store and cancellation: the error of each failing load, the refusal on the replayed list, a conflict of both versions, or the one event more, said over the logs. |
| TodoList.HandleMarkItemAsDone | examples/todolist/internal/todolist/mark_item_as_done_command.go:30-48 | Load, decide, save on objects is the command function of the store. For every store and cancellation: the error of each failing load, the refusal on the replayed list, a conflict of both versions, or the one event more, said over the logs. |
| TodoList.HandleMarkItemAsPending | examples/todolist/internal/todolist/mark_item_as_pending_command.go:30-48 | Load, decide, save on objects is the command function of the store. For every store and cancellation: the error of each failing load, the refusal on the replayed list, a conflict of both versions, or the one event more, said over the logs. |
| TodoList.HandleDeleteItem | examples/todolist/internal/todolist/delete_item_command.go:29-47 | Load, decide, save on objects is the command function of the store. For every store and cancellation: the error of each failing load, the refusal on the replayed list, a conflict of both versions, or the one event more, said over the logs. |
| TodoCommands.LoadErrors | aggregate/event_sourced_repository.go:81-97 | Which error a load returns, said over the log and the cancellation point: one for each way it can fail, and a root exactly when none applies. |
| TodoCommands.HandleAnswers | examples/todolist/internal/todolist/add_item_command.go:33-56 | What every command handler answers and leaves in the store, said over the logs: the failing load, the refusal, the conflict with both versions, or one event at the end of one stream. |
| TodoCommands.HandleKeepsProduced | examples/todolist/internal/todolist/add_item_command.go:33-56 | One handler run over produced logs leaves produced logs; on an error it changes nothing, on success it adds to the stream it names the one event its command decides on that stream's fold. |
| TodoCommands.RetryCreate | examples/todolist/internal/todolist/create_command.go:31-44 | Creating a list again right after it was created, at whatever time the clock then shows, is a conflict of 0 with 1 and changes nothing. |
| TodoCommands.RetryAddOrDelete | examples/todolist/internal/todolist/todolist.go:168-208 | Adding or deleting an item again, at whatever time, is refused, as already there or not found, and changes nothing. |
| TodoCommands.RetryMark | examples/todolist/internal/todolist/todolist.go:198-238 | Marking again appends one event and leaves the replayed list equal. |
| TodoSystem.EveryListIsSound | examples/todolist/internal/todolist/todolist.go:50-208 | In every store reachable by concurrent handlers, with streams shorter than 2^32, each non-empty stream replays, starts with its only creation, which names it, and folds to a well-formed list with that creation's title and owner, whose items are those that its log declares. |
| TodoSystem.EveryCommandIsSerial | examples/todolist/internal/todolist/add_item_command.go:33-56 | Under concurrency, with streams shorter than 2^32, every committed batch is the one event its command decides on the fold of exactly the log it extends; creations and only they open a stream. |
| TodoSystem.LoadingIsGet | aggregate/event_sourced_repository.go:81-97 | The steps of a load that nobody interrupts find what Get finds, or end the handler when Get finds nothing. |
| TodoSystem.AloneIsHandle | examples/todolist/internal/todolist/add_item_command.go:33-56 | A concurrent handler whose steps nobody interrupts does to the store what the sequential command function does. |
| PgTables.AtoiItoa | postgres/append_domain_events.go:112 | The decimal text written as metadata reads back as the number. |
| PgTables.StatementsCheck | postgres/migrations/1_events.up.sql:1-15 | On tables that meet the declared constraints, each statement fails exactly when the tables with its row would break one, or an inserted event would repeat a primary key. |
| PgTables.EnrichMeaning | postgres/append_domain_events.go:110-112 | Enriching overrides whatever the two keys held, leaves every other key, and records the given time and, readably, the stream's new version. |
| PgTables.KeyedMeaning | postgres/append_domain_events.go:74-84 | The inserted rows have exactly the versions that follow the old one, in batch order. |
| PgTables.ExtendKeepsInv | postgres/migrations/1_events.up.sql:1-15 | After a committed append a stream's row still says v exactly when its events have versions 1 to v once each, old rows are unchanged and the new ones are the batch. |
| PgTables.RowsAreContiguous | postgres/event_store.go:45-51 | A query returns the rows from the selected version to the stream's version without gap or repetition, selecting 0 as 1. |
| PgTables.AppendAnswers | postgres/append_domain_events.go:43-87 | PostgreSQL and memory return the same versions and the same conflicts; PostgreSQL fails where memory accepts exactly on an empty append to a missing stream, at 2^32 events, and on a message that does not serialize. |
| PgTables.StepAnswers | postgres/append_domain_events.go:34-87 | An append answers a version exactly when its check passes, its range holds and its messages serialize, the conflict exactly when the check fails, and else an error; it changes the tables only in the first case. |
| PgTables.AppendKeepsRelated | postgres/append_domain_events.go:34-87 | A committed append leaves the database standing for the in-memory store after the same append. |
| PgTables.StreamRefines | postgres/event_store.go:39-96 | From any selector both stores yield the same versions and messages, and metadata equal but for the two added keys. |
| PgTables.StepRefines | postgres/event_store.go:99-130 | One append on related stores gives the same answer and leaves them related. |
| PgTables.HistoryRefines | postgres/event_store.go:39-130 | Over every history of comparable appends, any of which may abort as a whole, both stores give the same answers and stay related. |
| PgTables.HistoryKeepsInv | postgres/migrations/1_events.up.sql:1-15 | The table invariant and recoverable batch boundaries hold after every history of direct appends, comparable or not. |
| PgTables.RowsCarryVersion | postgres/append_domain_events.go:110-112 | Every row of a batch carries the version after the batch and the time of its own event, whatever metadata the callers supplied. |
| PgTables.ExtendKeepsBatches | postgres/append_domain_events.go:74-85 | The event at version v carries an n with v at most n, the events from v to n all carry n, n never decreases along a stream and never exceeds its version. |
| PgStore.With | message/message.go:22-30 | Sets the key in the caller's own map; only a missing map is replaced by a new one. |
| PgStore.Tx.ExecUpsertStream | postgres/append_domain_events.go:26-31 | The transaction's view becomes the tables after the upsert; a failed statement writes nothing, and without faults only version 0 fails. |
| PgStore.Tx.ExecInsertEvent | postgres/append_domain_events.go:89-92 | The transaction's view becomes the tables after the insert; it fails on version 0, on a repeated key and on a missing stream. |
| PgStore.Tx.ExecUpsertAggregate | postgres/aggregate_repository.go:152-157 | The transaction's view becomes the tables after the upsert of a snapshot, which keeps the type of an old row. |
| PgStore.Tx.CommitOrRollback | postgres/internal/transaction.go:32-50 | Either the writes appear on top of the tables as they are, with everything read unchanged, or the tables stay; failed work never commits. |
| PgStore.AppendDomainEvents | postgres/append_domain_events.go:34-87 | It succeeds only where a serial append commits and leaves exactly that append's writes; a conflict names the expected and the stream's version; without faults it succeeds exactly where the serial append does. |
| PgStore.InsertEvents | postgres/append_domain_events.go:74-84 | The insert loop never meets its own keys: without faults it fails only on serialization or at 2^32 events. Callers' metadata changes only in the two added keys. |
| PgStore.Append | postgres/event_store.go:99-130 | Wherever it fails, the tables are exactly as the other sessions left them, and as before when there are none; on success they are those tables after the append done alone. A conflict names both versions, a serialization error means a message that does not serialize, and without faults and interference it succeeds exactly when the serial append does. The table invariant survives. |
| PgStore.AppendRefinesMemory | postgres/event_store.go:99-130 | From an in-memory store related to the tables that the other sessions left, an append is its append with the same version, or nothing when it fails; a conflict is the one that memory answers when the transaction begins. |
| PgStore.AppendStep | postgres/event_store.go:99-130 | One call gives memory's answer and keeps the stores related; it gives no answer only when its transaction fails or memory would go out of range. |
| PgStore.AppendAll | postgres/event_store.go:99-130 | Any history of calls on a new database, each failing at any statement or at commit, answers as an in-memory store given the same appends without the calls that got no answer, and leaves the database standing for it. |
| PgStore.Stream | postgres/event_store.go:39-96 | Yields the rows in order, decoded, up to the first place where the iteration ends: the consumer leaves with its limit, the connection fails before that row or after the last, the row does not decode, or the rows end. Which of these it was decides the error, exactly. |
| PgSnapshots.SaveAfterAppend | postgres/aggregate_repository.go:129-149 | After the append of a save the version mismatch never happens and the snapshot row is always allowed; only serialization of the state can fail. |
| PgSnapshots.ReplayHomomorphism | aggregate/event_sourced_repository.go:37-52 | For sound serdes, encoding and decoding a fold is folding the events encoded and decoded one by one. |
| PgSnapshots.DecodingReplays | postgres/event_store.go:68-71 | A stored log that replays through its decoder has been decoded in full, and replays to the same state as the decoded events. |
| PgSnapshots.LogAfterExtend | postgres/append_domain_events.go:74-86 | A committed batch, of any messages, is appended to its stream's log as readers decode it, and other logs stay. |
| PgSnapshots.SaveChecksBase | postgres/aggregate_repository.go:124-139 | A save from a live root is refused exactly when the stream no longer ends where the root was loaded, so an outdated root never overwrites a snapshot. |
| PgSnapshots.SaveShape | postgres/aggregate_repository.go:118-179 | A successful save, of whatever root, appends the recorded events to one log and touches one snapshot row, which decodes to the root's state at the stream's version. |
| PgSnapshots.SaveKeeps | postgres/aggregate_repository.go:118-179 | A successful save leaves a snapshot of the whole log and a root that can go on. |
| PgSnapshots.RunKeepsInv | postgres/aggregate_repository.go:69-179 | In every run of loads, recordings, saves and direct appends of any messages every snapshot and every live root agrees with the log. |
| PgSnapshots.RunKeepsBatches | postgres/append_domain_events.go:74-85 | In every reachable database, whoever wrote the events, the event at version v carries an n of at least v, the events from v to n all carry n, and n never decreases along a stream. |
| PgSnapshots.SnapshotsAgree | postgres/aggregate_repository.go:118-179 | In every reachable database, after saves and direct appends of any messages, a snapshot decodes to the fold of its stream's first events, as many as its version says, all of which decode, and is not ahead of its stream. |
| PgSnapshots.SavedIsLoaded | postgres/aggregate_repository.go:77-179 | What a successful save wrote is what a load then finds: the state as stored, at the root's version; it is not found exactly over a row of another type. |
| PgSnapshots.RunKeepsTypes | postgres/aggregate_repository.go:152-157 | In every reachable database every snapshot row has the type of its aggregate. |
| PgSnapshots.EverySnapshotLoads | postgres/aggregate_repository.go:77-115 | In every reachable database a load finds every snapshot, as the fold of its stream's first events at the snapshot's version, and nothing else. |
| PgSnapshots.FailedSaveDrops | postgres/aggregate_repository.go:118-150 | In a run a save that fails or is aborted changes no table and drops its root only. |
| PgSnapshots.ActsAlone | postgres/aggregate_repository.go:69-179 | What a client does to its root changes no other client's, and nothing but a save or an append changes a table. |
| PgSnapshots.LoadRecordSave | postgres/aggregate_repository.go:77-179 | Where a stream ends with its snapshot, loading, recording one message and saving succeeds and adds exactly that message to the log. |
| PgSnapshots.SnapshotsAreCurrent | postgres/aggregate_repository.go:118-179 | When all writes go through the repository, every stream has a snapshot and its version is the stream's. |
| PgSnapshots.StaleSnapshotBlocksSaves | postgres/aggregate_repository.go:124-139 | On a stream that goes on after its snapshot every live root's save is refused, with both versions. |
| PgSnapshots.DirectAppendEndsSaves | postgres/aggregate_repository.go:118-150 | Over runs: once a direct append of an event has committed, no save of that stream ever succeeds again, whatever root a client holds. |
| PgReuse.ReusedRootOverwrites | postgres/aggregate_repository.go:118-179 | A root whose save was refused, with whatever it recorded since, is saved exactly when others appended as many events as were lost; it then overwrites the snapshot with its own state, which agrees with the log if and only if it is the log's fold. |
| PgReuse.SnapshotOverwritten | postgres/aggregate_repository.go:118-179 | For any two different creations of one stream, a run after which the loser's second save, with nothing recorded, is accepted and leaves a snapshot that disagrees with the log. |
| PgRepository.SaveInTransaction | postgres/aggregate_repository.go:124-149 | The closure flushes the root and leaves exactly the writes of a serial save, or an error that is never the version mismatch; each error says what went wrong: the conflict with both versions, what does not serialize, or without faults a version out of range. |
| PgRepository.Save | postgres/aggregate_repository.go:118-150 | Wherever it fails, the tables are exactly as the other sessions left them, and as before when there are none; on success they are those tables after the save done alone. Once the transaction began the recorded events are gone either way. |
| PgRepository.SaveIsDecidedByHeader | postgres/aggregate_repository.go:124-149 | A serial save conflicts exactly when the stream's version differs from the root's base, and completes exactly when its append and the serialization of its state do. |
| PgRepository.Get | postgres/aggregate_repository.go:83-115 | Not found exactly when there is no row of that id and type; a root is the decoded row with the row's version. |
| PgRepository.SaveThenGet | postgres/aggregate_repository.go:77-179 | Saving and then loading through the methods, whatever fails and whatever other sessions did: after a success the root comes back as stored at its version, unless its row had another type; after a failure the load finds what was there. |
| PgRepository.GetLive | postgres/aggregate_repository.go:83-115 | What the repository's method returns is the root that runs of the repository go on with. |
| PgRepository.SaveLive | postgres/aggregate_repository.go:118-150 | A save through the method, with all that may happen to it, is one save step of the runs of the repository on the tables that the other sessions left, aborted when it returned an error, and keeps their invariant. |
| Users.DateRoundTrip | internal/user/serde.go:16-30 | A time survives its date message, up to time of day and zone, if and only if its year fits 32 bits. |
| Users.ToInt32Wraps | internal/user/serde.go:16-23 | The conversion to 32 bits keeps a number modulo 2^32 and is the identity in range. |
| Users.NormalizeKeepsDay | internal/user/serde.go:25-30 | Normalizing a day however far outside its month keeps its place in the count of days of the calendar. |
| Users.DateToTimeIsThatDay | internal/user/serde.go:25-30 | A date message stands for midnight, UTC, of the day that its numbers name, with months counted over the years and days over the months. |
| Users.User.Apply | internal/user/aggregate.go:41-61 | The user object becomes the value that the event function gives, and is unchanged on an unknown event. |
| Users.User.UpdateEmail | internal/user/aggregate.go:119-136 | Refuses an empty email without a change; otherwise the email alone changes and exactly one update, with this user's identifier and the given time, is recorded. |
| Users.Create | internal/user/aggregate.go:77-116 | Returns each check that fails, a check being in the list exactly when it fails, or a new user with the given fields at version 1 with exactly its creation, at the given time, recorded. |
| Users.ErrorsInOrder | internal/user/aggregate.go:78-96 | The errors of a creation come in the order of its checks, each once. |
| Users.ZeroTimes | internal/user/aggregate.go:92-94 | Which birth dates are refused as zero, where zero is equality of UTC instants counted in days of the calendar: midnight of 1 January of year 1 in UTC, as clocks of any zone show it. |
| Users.UserApplyFailsExactly | internal/user/aggregate.go:41-61 | Exactly the known events apply, a creation setting every field and an update the email alone. |
| Users.UserProducedMeaning | internal/user/aggregate.go:77-136 | A log written by the domain methods replays to a complete user, names it in every event, and starts with its only creation. |
| Users.EventRoundTrip | internal/user/serde.go:73-139 | Events come back, up to time of day and zones, if and only if they are known and their birth year fits 32 bits. |
| Users.UserRoundTrip | internal/user/serde.go:39-64 | A user comes back, up to the birth date's time of day and zone, if and only if the birth year fits 32 bits. |
| Users.EncodableExactly | internal/user/serde.go:49-139 | Exactly the known events can be encoded, and exactly messages of the right kind decoded. |
| Users.FieldsAreKept | internal/user/serde.go:39-139 | Which fields of users and events the messages carry, and what each becomes when it is read. |
| Users.DateFields | internal/user/serde.go:16-23 | A date message carries month and day as they are and the year modulo 2^32 in the range of 32 bits. |
| Users.StoredTwice | internal/user/serde.go:16-30 | Encoding and decoding a time twice gives what doing it once gives, whatever its year. |
| Users.UserSerdesAreSound | internal/user/serde.go:39-139 | What the two serdes lose, years cut to 32 bits included, commutes with Apply and is lost only once, for every known event and every user. |
| Users.UserReplayHomomorphism | internal/user/serde.go:16-139 | For every list of events that can be encoded, whatever their years, decoding the encoded fold equals folding the decoded encoded events. |
| Users.UserSnapshotsAgree | postgres/aggregate_repository.go:83-179 | For users of any birth date, loading a snapshot equals replaying the stored events up to its version, all of which decode, in every reachable database. |
| Users.UserSnapshotOverwritten | postgres/aggregate_repository.go:118-179 | A run in which a user's snapshot comes to name another client's user. |
| Users.UserRootCoherence | aggregate/event_sourced_repository.go:18-117 | Root coherence holds of users in every run. |
| EmailIndex.GetByEmailHandler.Process | internal/user/user_by_email.go:77-122 | The two maps become what the projection function gives for the old ones, and are unchanged by a refused event. |
| EmailIndex.GetByEmailHandler.Handle | internal/user/user_by_email.go:64-74 | Answers with the entry of that email, or not found exactly when there is none. |
| EmailIndex.Refusals | internal/user/user_by_email.go:77-122 | After any history that was processed, in order or not, which events are refused with which error: those of another type or kind, and updates of users never created; a refused event changes nothing and the view of a known user is never missing. |
| EmailIndex.RefusedExactly | internal/user/user_by_email.go:77-122 | Which events an index refuses with which error, whatever it holds, and that a refusal leaves it alone. |
| EmailIndex.UpdatesAreCompared | internal/user/user_by_email.go:98-115 | An update to another email is ignored exactly when its version is not above that of the view; otherwise it moves the view and keeps its version and names. |
| EmailIndex.CreationsAreTaken | internal/user/user_by_email.go:87-97 | A creation, even of a known user, sets the user's email and the entry of that email. |
| EmailIndex.ProducedIsInOrder | internal/user/aggregate.go:77-136 | Interleavings of logs written by the user's domain methods are in-order histories. |
| EmailIndex.IndexAgreesWithReplay | internal/user/user_by_email.go:64-122 | After any in-order interleaving in which no two users hold an email at once, no event failed and every user's current email finds its replayed fields with the version of its creation. |
| EmailIndex.AgreesExactlyWhenDistinct | internal/user/user_by_email.go:77-122 | The index agrees with replay all along if and only if emails are distinct all along. |
| EmailIndex.EveryEntry | internal/user/user_by_email.go:87-115 | The index has an entry for every email ever used and no other; each is the view of the user that took it last, even after that user moved on. |
| EmailIndex.RedeliveryIsIgnored | internal/user/user_by_email.go:98-115 | Processing any event of the history again changes nothing if and only if it carries the email its user holds now. |
| EmailIndex.LatestTwice | internal/user/user_by_email.go:87-115 | Processing the latest event twice in a row changes nothing. |
| EmailIndex.OldUpdateIsReprocessed | internal/user/user_by_email.go:109-115 | A history in which an older update, delivered again, takes its user back to an email it no longer holds. |
| Tracking.TrackingStore.Append | event/store_tracking.go:52-77 | The wrapped store and the recorded list become what the tracking function gives; a refused append records nothing. |
| Tracking.RecordsExactly | event/store_tracking.go:52-77 | Exactly the accepted appends through the tracker are recorded, whole and after what was recorded before. |
| Tracking.EntriesArePositions | event/store_tracking.go:66-73 | The version reconstructed for each event of a batch is the position it was given. |
| Tracking.TrackingIsFaithful | event/store_tracking.go:52-77 | In every mix of appends through the tracker and behind its back each entry is the event its stream holds at its version, and versions recorded for a stream strictly increase. |
| Tracking.TrackingIsComplete | event/store_tracking.go:52-77 | When all appends go through the tracker its entries of a stream are what streaming the whole stream yields, even past 2^32. |
| Scenario.GivensAreAccepted | query/scenario.go:145-147 | Given events are accepted if and only if each has the version of its place in its own stream, and then the store holds exactly them. |
| Scenario.GivensOnShortStreams | query/scenario.go:145-147 | On streams shorter than 2^32 that is: one more than the number of earlier events of its stream; version 0 is always refused. |
| Scenario.AssertOn | query/scenario.go:134-153 | The loop stops at the first event that is not appended or not processed, and otherwise the query is answered from the index built. |
| Scenario.GoesThrough | query/scenario.go:145-151 | A scenario goes through if and only if the store alone accepts every event and the handler alone processes every one. |
| Scenario.StopsBecause | query/scenario.go:145-151 | Why a scenario stops: at the first failing event, not appended exactly when its version is not that of its place, and otherwise not processed, with the handler's error. |
| Scenario.QueryAgreesWithStore | query/scenario.go:134-153 | After in-order given events the store holds each user's events and the query for a user's current email answers with what replaying them gives. |

## Left out

- Identifiers are numbers: texts of UUIDs, their parsing and `String` methods are taken as one-to-one; the nil UUID is 0.
- Serialization of bytes: JSON, Protocol Buffers and metadata encodings are taken as round-tripping on what is encoded; encoded values stand for their bytes. The `type` column of events and message names are not kept.
- The `Root` interface: Dafny classes here have no dynamic dispatch, so the loops of `recordThat` and `RehydrateFromEvents` are written for the TodoList, and once more as functions of any aggregate. The base root embedded in items is not used by the source and is not modelled.
- In the concurrent model a blocked writer does not hold back new readers, which only adds interleavings; lock fairness, and liveness beyond the absence of deadlock, are not stated. Handlers read from version 0 and cancellation can happen before any event.
- EventStore.EventStream.Range: ranging over the producing sequence again while an earlier range over it is still under way is not modelled.
- `SliceToStream`, `Metadata.Merge`, fused stores and the chained serdes are the same loops and compositions over simpler data.
- The in-memory store keeps references to callers' metadata maps; that aliasing is not modelled, only the in-place enrichment of an append to PostgreSQL is.
- PgStore.Append: other sessions act once, just before the commit, and leave any tables that keep the table invariant; a connection lost during a commit, whose outcome is unknown, is left out, as are the texts of errors and of a failed rollback.
- PgSnapshots.RunKeepsInv: saves and appends of a run are single steps, which PgRepository.SaveLive and PgStore.AppendRefinesMemory show of the methods; what domain methods record on roots can be encoded.
- PgTables.HistoryRefines: histories in which memory accepts an empty append to a missing stream, or 2^32 events in one stream, are excluded; PgTables.AppendAnswers says what differs on them, and PgStore.AppendAll covers them as calls without an answer.
- PgRepository.Get: the root object is represented by its state and version.
- Custom table names, migrations as scripts, stored procedures that a later migration drops, indexes and pool handling are left out; the tables keep the constraints that the schema declares.
- Instants and clocks are opaque, except the calendar date, time of day and zone of birth dates. Days outside a month are normalized as the standard library does, since a date message may hold any numbers.
- OpenTelemetry wrappers, the Connect transport, the query handler of TodoLists, command and aggregate scenario builders, configuration and `main` hold no further state.
- Scenario.AssertOn: the comparison of the answer with the expected one is left to the caller, and the handler is the projection by email.
- Item and list invariants are not stated for TodoList logs that other programs append directly; Concurrency.Serialisable covers such appends.
