# say: delivery guarantees, modelled and proved

say is a messaging gateway. Workers hold a user's Signal or Telegram session; they spool provider
events on disk and replay them to the gateway over a WebSocket. The gateway files messages in
Postgres, announces changes to clients through an outbox, and sends commands back to the workers.
What it promises — nothing confirmed is lost, effects happen once, a send is dispatched at most once,
old messages go and recent ones stay, credentials are single-use — holds across files, processes,
crashes and concurrent requests. This project models that logic and proves those promises for every
input and every run.

| part | modules |
|---|---|
| worker spool on a directory that can lose power | `SpoolNames`, `NameOrder`, `TypescriptSpool`, `Utf8`, `Directory`, `EventSpool` |
| spool, connection and hub loop as one transition system | `Delivery`, `DeliveryProgress`, `SpoolRefinement`, `SpoolRuns`, `EndToEnd`, `Gateway` |
| message tables, transactions and their effects | `Tables`, `MessageOps`, `DbRuns`, `Transactions`, `ExactlyOnce`, `Activity`, `Echo`, `EchoRuns`, `Retention`, `MessageStore` |
| outbound sends | `Coupling`, `Sends`, `SendBodies`, `SendTimes`, `SendProgress` |
| realtime outbox | `Outbox`, `OutboxNotices` |
| login codes and refresh tokens | `Tokens`, `Logins` |
| worker enrollment in both account stores | `Accounts`, `Enrollment`, `AccountRefinement` |
| request/response correlation, hub and JSON-RPC, and what it means for a send | `Correlation`, `HubOutcomes` |
| TDLib framing and send race | `Tdlib`, `TdlibSends`, `TdlibRuns`, `TdlibCauses` |
| worker queues | `WorkerQueue`, `Commands` |
| shared | `Prelude`, `Protocol`, `Listing` |

Code that changes state step by step is a class or a method proved against a specification function;
protocols between processes are state machines whose steps are what one party does between two
observable points (a transaction, a lock, a channel operation, a frame). A run is any sequence of
enabled steps, so a theorem about `Leads(...)` or `Run(...)` covers all interleavings. The two account stores are classes
whose methods are the step functions compared in `AccountRefinement`.

## What the code does that its documents do not say

- A connection lost after a request was written is recorded as `failed`, not `unknown`: only a timeout
  or a worker's own code gives `unknown` (`HubOutcomes.RecordedIff`). PLAN.md asks for `unknown`.
- `last_message_at` is a running maximum only under ingest; `PrepareSend` overwrites it, and nothing else
  lowers it (`Activity.LoweredIff`).
- `CacheMessage` before `IngestMessage` suppresses both the unread mark and the announcement: a message is
  announced exactly as often as live delivery was the one to insert it
  (`ExactlyOnce.AnnouncementsAreLiveInsertions`), and unread marks count live first insertions.
- Repeating an append of a given id after its directory sync failed reports success although the event
  can still be lost (`EventSpool.RepeatedAppendCanBeLost`); `Append` generates ids, so its own events
  are not affected. The base-name test lets ids pass that make the spool unreadable: `/`, and every id
  that is not valid UTF-8, because the JSON encoding replaces its bad bytes (`EventSpool.CommitReadableIff`).
- Repeating an acknowledgement whose directory sync failed reports success although the event can still
  come back (`EventSpool.Spool.Ack` says exactly when).
- The TypeScript spool has no check at its last number: at 10^20 the file is written, never replayed, and the
  number issued again (`TypescriptSpool.ReplayedIff`).
- A failed append that got as far as its rename leaves a copy; the retry spools the event again under
  another id (`EventSpool.Spool.Collect`). The duplicate has no further effect (`ExactlyOnce.ReplayIsIdle`).
- A retry with another body while the command is pending sends the retry's body
  (`Sends.RetrySendsItsOwnBody`); bodies sent are the bodies stored exactly for senders with one body per
  key (`SendBodies.FaithfulIff`).
- The map of early TDLib completions forgets one after exactly a hundred others, not after more than a
  hundred (`TdlibSends.RememberedIff`), and an early failure update is dropped
  (`TdlibSends.FailureHeardIff`).
- `MessageQueue.next` drops a queued frame that JavaScript takes for false (`WorkerQueue.LawIff`).
- The Go worker's loop can block for ever on its own result channel, with seventeen commands unanswered
  and with no fewer (`Commands.LoopGoesOnIff`, `Commands.WedgedForEver`).
- The in-memory account store forgets an enrollment presented late; if the clock then runs back,
  Postgres accepts it and memory does not, and they differ in no other case
  (`AccountRefinement.AgreeUntilRegrant`).

## Model

| member | source | states |
|---|---|---|
| `SpoolNames.FormatWidth` | internal/worker/spool.go:49 | `%020d` has exactly twenty digits if and only if the number is below 10^20, so for every uint64 |
| `SpoolNames.NameSpelled` | internal/worker/spool.go:49 | the file of a number is spelled evt_, the number's digits filled up with zeros to twenty, an underscore, the suffix and .json |
| `SpoolNames.SequenceRoundTrip` | internal/worker/spool.go:94-100 | every number that can be issued is read back from the file name it was put in |
| `SpoolNames.ValueIsDecimal` | internal/worker/spool.go:98 | digits are read as a decimal number: one more at the end makes ten times the number plus the digit |
| `SpoolNames.SequenceIff` | internal/worker/spool.go:94-100 | a name has a number if and only if it starts with evt_ and the twenty digits of that number, which fits 64 bits |
| `SpoolNames.LessIsNumeric` | internal/worker/spool.go:124 | byte order of equally long digit strings is numeric order |
| `SpoolNames.SmallerSequenceSortsFirst` | internal/worker/spool.go:41-49 | a readable name with a smaller number sorts before a newly issued one |
| `SpoolNames.NextSequence` | internal/worker/spool.go:86-106 | the next number is one above the largest readable one; exhausted exactly when the largest uint64 is in use |
| `SpoolNames.NextBigSequence` | workers/telegram/src/event-spool.ts:84-95 | the TypeScript spool's next number is one above the largest its pattern captures |
| `SpoolNames.SpoolsAgree` | workers/telegram/src/event-spool.ts:84-95 | in a directory of names that fit the pattern, the TypeScript spool's next number is one above what the Go spool reads if and only if every number in use fits 64 bits |
| `SpoolNames.PatternIff` | workers/telegram/src/event-spool.ts:55-60 | the pattern takes exactly the names of twenty digits, 24 hexadecimal digits and .json |
| `SpoolNames.BigSequenceVisible` | workers/telegram/src/event-spool.ts:55-59 | a name issued by the TypeScript spool passes its own filter if and only if the number is below 10^20 |
| `SpoolNames.CaptureRoundTrip` | workers/telegram/src/event-spool.ts:84-95 | an issued number is captured again from its name if and only if it is below 10^20 |
| `SpoolNames.SmallerCaptureSortsFirst` | workers/telegram/src/event-spool.ts:57-59 | below 10^20 a name with a smaller captured number sorts first |
| `TypescriptSpool.PendingNames` | workers/telegram/src/event-spool.ts:55-60 | the matching names, sorted |
| `TypescriptSpool.ListingIsQueue` | workers/telegram/src/event-spool.ts:55-95 | in every run, with acknowledgements in any order, the sorted listing is the append order, without what was acknowledged, of exactly the events numbered below 10^20 |
| `TypescriptSpool.ReplayedIff` | workers/telegram/src/event-spool.ts:84-95 | an appended event is replayed, and last, if and only if its number is below 10^20; at 10^20 its file is invisible and its number is issued again |
| `NameOrder.SortStrings` | internal/worker/spool.go:124 | the names come out ascending, the same names |
| `Directory.SurvivesEveryCrash` | internal/worker/spool.go:162-173 | a name is there after every crash if and only if it is on disk and no unsynced change takes it away |
| `Directory.AbsentAfterEveryCrash` | internal/worker/spool.go:162-173 | a name is missing after every crash if and only if neither the disk nor an unsynced change holds a file under it |
| `Directory.ContentSurvivesIff` | internal/worker/spool.go:71-84 | the contents of a file whose entry is settled survive every crash if and only if the file was synced |
| `Directory.CrashEntry` | internal/worker/spool.go:162-173 | what a crash can do to one name: settled names are untouched, anything else present was on disk or put there by an outstanding change |
| `EventSpool.CrashSafety` | internal/worker/spool.go:58-84 | after a crash in any sound state the spool reads back, nothing is torn, every safe event is there, and differences concern only outstanding changes |
| `EventSpool.CrashInsideCall` | internal/worker/spool.go:58-84 | a crash at any point inside a call leaves every event confirmed before it in the queue |
| `EventSpool.CrashKeepsOrder` | internal/worker/spool.go:108-141 | events without outstanding changes keep their order across a crash |
| `EventSpool.QueueAppend` | internal/worker/spool.go:118-140 | a file under a name above all others is the new last element of the queue |
| `EventSpool.QueueRemove` | internal/worker/spool.go:143-160 | removing a file takes exactly its event out of the queue |
| `EventSpool.Spool.Append` | internal/worker/spool.go:34-84 | succeeds exactly when no step it needs fails, its id is a base name and its numbers are not exhausted, and then under the next number; every state passed through is harmless to earlier events; for an id that can be stored, success means the event survives every crash if and only if its entry was not found unsynced; an entry found is left alone; a new file leaves the spool readable if and only if its id can be stored; a generated id joins the queue last |
| `EventSpool.Spool.AppendNamed` | internal/worker/spool.go:51-84 | the same once the event has an id: nothing changed, or exactly this event was added |
| `EventSpool.Spool.Commit` | internal/worker/spool.go:64-84 | write aside, sync, rename, sync: wherever it stops it stands at one of the states of that path, and either nothing committed changed or exactly this event was added |
| `EventSpool.CommitAlong` | internal/worker/spool.go:64-84 | what holds at each state of that path |
| `EventSpool.Spool.Collect` | internal/worker/client.go:270-303 | retrying leaves one or more copies of the event at the end of the queue, the last one confirmed, or no confirmation at all; it succeeds exactly if an attempt works before one is cancelled, unless the numbers are exhausted |
| `EventSpool.OneWorksIff` | internal/worker/client.go:270-303 | what Collect succeeds by: an attempt without faults that no cancelled attempt precedes |
| `EventSpool.Spool.Pending` | internal/worker/spool.go:108-141 | succeeds exactly when every committed file reads back as the event it is named after, and then returns the queue |
| `EventSpool.Spool.Ack` | internal/worker/spool.go:143-160 | succeeds exactly for a base name whose file is absent or is removed and synced; the event and no other leaves the queue, along the states of a removal; a success means that no crash brings the event back if and only if the call removed it or it could not come back before |
| `EventSpool.CommitReadableIff` | internal/worker/spool.go:51-58 | a newly committed file leaves the spool readable if and only if its id is not `/` and is valid UTF-8, whatever the base-name test lets pass |
| `Utf8.RecodedIff` | internal/worker/spool.go:54-57 | an id comes back from its JSON file if and only if it is valid UTF-8 (section 3 of RFC 3629) |
| `Utf8.SurvivesIff` | internal/worker/spool.go:54-57 | it does if and only if it is the encoding of some code points, byte by byte (section 3 of RFC 3629) |
| `Utf8.RecodedTwice` | internal/worker/spool.go:131-137 | what came back once comes back from then on |
| `EventSpool.RepeatedAppendCanBeLost` | internal/worker/spool.go:59-60 | after an interrupted append of a given id, a repetition that reports success can be lost |
| `SpoolRefinement.PendingRefines` | internal/worker/spool.go:108-141 | in related states Pending returns the visible events of the delivery protocol |
| `SpoolRefinement.AppendRefines` | internal/worker/spool.go:34-84 | the directory after each stage of Append matches the protocol before, at an interrupted, and after a completed append |
| `SpoolRefinement.AckRefines` | internal/worker/spool.go:143-160 | Ack with and without its sync matches the protocol's acknowledgement |
| `SpoolRefinement.CrashRefines` | internal/worker/spool.go:162-173 | every crash image matches the protocol's recovery, with the events found on disk as the survivors |
| `SpoolRefinement.EmptyRelated` | internal/worker/spool.go:24-32 | the empty directory matches the empty list |
| `SpoolRuns.GeneratedNameIsNew` | internal/worker/spool.go:40-50 | a generated name is new, storable and above every numbered name |
| `SpoolRuns.StepKeeps` | internal/worker/spool.go:34-160 | every step over the real directory keeps it linked to the protocol state |
| `SpoolRuns.RunsProject` | internal/worker/client.go:119-329 | every run over the real directory is a run of the delivery protocol |
| `SpoolRuns.DirectoryLosesNothing` | internal/worker/spool.go:34-160 | in every run from an empty directory Pending returns what the protocol sees, and a confirmed event was handled and committed or its file survives whatever crash comes next and is found afterwards |
| `SpoolRuns.ConfirmedSurvives` | internal/worker/spool.go:34-160 | the file of a confirmed event not yet handled survives every crash and Pending finds it afterwards |
| `Delivery.StepKeeps` | internal/worker/client.go:119-329 | every step of worker, connection, hub, crash and restart keeps the protocol invariant |
| `Delivery.NoLoss` | internal/gateway/hub.go:152-215 | in every run an event whose append succeeded is durable in the spool or was handled, and a handled message was committed |
| `Delivery.HubTakesIff` | internal/gateway/hub.go:152-215 | exactly, in the fields of the next envelope: complete messages of either direction are filed and messages and statuses in order are logged and acknowledged; what is no event is skipped; everything else ends the connection |
| `DeliveryProgress.MessageComesThrough` | internal/worker/client.go:175-329 | from every reachable state with both ends up whose first outstanding event is a complete message, steps of the connection handle it, commit it and remove it from the spool |
| `Delivery.HandledIsPrefix` | internal/worker/client.go:305-329 | in every run the events handled are a prefix of the append order of the events that matter |
| `Delivery.NoOvertaking` | internal/gateway/hub.go:164-226 | no handled event overtook a confirmed one the hub does not skip |
| `EndToEnd.SpoolToTables` | cmd/say-api/main.go:81-107 | spool to tables: each confirmed message is durable or was committed by a transaction that left it a row, and each key is announced at most once more often than deleted |
| `Gateway.StepKeeps` | cmd/say-api/main.go:81-184 | every step of worker, directory, connection, hub, any transaction and the drainer keeps directory, protocol, tables and outbox in step |
| `Gateway.FileToPublication` | cmd/say-api/main.go:81-184 | from the file to the publication: in every run a confirmed message is in a file that survives any crash, or was filed by a transaction, and unless it had been filed before, its announcement with its contents waits or was published, and was published once j/100 + 1 further drains completed |
| `DbRuns.IngestSchema` | internal/postgres/messages.go:111-191 | ingest never violates a unique index or foreign key |
| `DbRuns.CompleteSchema` | internal/postgres/messages.go:475-490 | deleting the echo first keeps CompleteSend clear of the provider index |
| `DbRuns.ExecAllSchema` | internal/postgres/migrations/001_initial.sql:99-101 | after any transactions at most one row per conversation and provider id, and all other constraints |
| `ExactlyOnce.StepBalance` | internal/postgres/messages.go:85-191 | every transaction pays for an announcement with a new arrival or a deletion |
| `ExactlyOnce.AnnouncedAtMostOnce` | internal/postgres/messages.go:143-186 | over any run a message is announced at most once plus the times its row was deleted, and has at most one row |
| `ExactlyOnce.AnnouncementsAreLiveInsertions` | internal/postgres/messages.go:156-186 | over any run a message is announced exactly as often as live delivery was the one to insert it; a cached insertion never announces |
| `Activity.LoweredIff` | internal/postgres/messages.go:418-422 | a transaction lowers a conversation's last activity if and only if it is a send prepared there at an earlier time |
| `ExactlyOnce.ReplayIsIdle` | internal/postgres/messages.go:156-172 | another ingest of a filed message changes nothing but the conversation's last activity |
| `ExactlyOnce.IngestLeavesRow` | internal/postgres/messages.go:111-173 | a successful ingest leaves a row in the conversation of the account |
| `ExactlyOnce.DoubleIngest` | internal/postgres/messages.go:69-83 | replaying an ingest at once, live or cached, repeats the first result |
| `Transactions.IngestAccepts` | internal/postgres/messages.go:85-110 | a message is refused without change if it lacks an id, a time or a direction, and filed if it is complete, its account is known and the draws are free |
| `Transactions.IngestConversation` | internal/postgres/messages.go:111-128 | the message goes to the account's conversation of its id, found or added, whose last activity never moves back; no other conversation changes |
| `Transactions.IngestFirstSeen` | internal/postgres/messages.go:100-128 | a conversation first seen is named after the author, or after its platform if it is a group |
| `Transactions.IngestRow` | internal/postgres/messages.go:130-191 | a row is inserted if and only if the conversation had none with the provider's id, and has the wire's id, author, body, time and direction; live delivery announces it to the account's user and counts it unread if and only if it came in |
| `Transactions.PrepareMeans` | internal/postgres/messages.go:339-436 | which answer a preparation gives, exactly, and the rows of a new send: a pending message of the user and a command that expires 300 seconds later |
| `Transactions.ExistingMeans` | internal/postgres/messages.go:566-585 | a repeated send finds its command if and only if the command still has its message |
| `Transactions.MarkMeans` | internal/postgres/messages.go:438-448 | a mark takes effect if and only if the command is pending and unexpired |
| `Transactions.CompleteMeans` | internal/postgres/messages.go:450-510 | when a completion succeeds, and the confirmed row with the provider's id and time; exactly the echoes are gone |
| `Transactions.CompleteCommands` | internal/postgres/messages.go:475-502 | a completion settles its command and announces the confirmed row; other commands only lose a deleted echo |
| `Transactions.FailMeans` | internal/postgres/messages.go:512-564 | when a failure is recorded, with which status for which code, and that it is announced |
| `Transactions.PruneMeans` | internal/postgres/messages.go:623-646 | pruning takes exactly the settled rows older than the cutoff that enough newer settled ones of their conversation precede |
| `Transactions.PruneOutboxMeans` | internal/postgres/messages.go:650-654 | pruning the outbox takes exactly the rows delivered before the time given |
| `Transactions.DeliveredMeans` | internal/postgres/messages.go:613-621 | a delivery mark sets the time of an undelivered row and changes nothing else |
| `Transactions.DeleteAccountMeans` | internal/postgres/accounts.go:139-148 | only the owner deletes an account, and exactly its conversations, messages and commands go with it |
| `Transactions.SyncMeans` | internal/postgres/messages.go:193-234 | a sync adds the conversation or sets its title and kind, and touches nothing else |
| `ExactlyOnce.UnreadCountsArrivals` | internal/postgres/messages.go:175-181 | the unread count is the number of live incoming first insertions |
| `ExactlyOnce.UnreadCountsIncoming` | internal/postgres/messages.go:175-181 | the same by the wire: the count grows by the live first insertions whose direction is incoming |
| `Echo.EchoConfluence` | internal/postgres/messages.go:475-502 | any echoes of a send before and after its completion end in the message and command rows of the completion alone, with one row for the provider id: the prepared one, sent; if the early ingests succeed, the last activity is the running maximum over all echoes |
| `Echo.LatestUnordered` | internal/postgres/messages.go:117-122 | that maximum depends only on the set of times, not on order or repetition |
| `EchoRuns.CompletionTakesKey` | internal/postgres/messages.go:475-490 | whatever transactions came before, completion leaves the prepared row as the only one with the provider's id |
| `EchoRuns.EchoesAmongTransactions` | internal/postgres/messages.go:144-173 | among arbitrary other transactions, as long as it is not deleted nor its command settled again, that row stays the only one, sent and unchanged, and a further echo changes no message and announces nothing |
| `Retention.KeptByRank` | internal/postgres/messages.go:631-646 | rank test and age test together keep exactly the first max(K, number within retention) ranks |
| `Retention.PruneKeepsNewest` | internal/postgres/messages.go:623-646 | after pruning, a conversation's settled messages are the newest so many it had, in order |
| `Retention.PruneSparesPending` | internal/postgres/messages.go:638 | pending rows are never pruned |
| `Retention.PruneComposes` | internal/postgres/messages.go:631-646 | pruning at an earlier cutoff and then a later one equals pruning at the later one |
| `Retention.PruneIdempotent` | internal/postgres/messages.go:631-646 | pruning twice is pruning once |
| `Retention.PruneInvisible` | internal/postgres/messages.go:290-299 | with K of at least a hundred no listing changes, in ids or contents |
| `Retention.PruneInvisibleIff` | internal/postgres/messages.go:272-299 | no prune changes what ListMessages answers to any user, for all databases the schema admits and equally for all that transactions can reach, if and only if K is at least a hundred |
| `Retention.LadderReached` | internal/postgres/messages.go:85-191 | the databases that show K below a hundred to be visible are made by creating an account and caching messages, and keep the schema |
| `Retention.PageMeans` | internal/postgres/messages.go:272-313 | in every database ListMessages answers if and only if the conversation exists and its account's stored user is the caller, with its min(100, n) newest rows, by time and then id, none omitted before a listed one, with their contents |
| `MessageStore.UpsertConversationRow` | internal/postgres/messages.go:100-128 | the upsert finds the account's conversation or adds one, and advances its last activity only forward |
| `MessageStore.Store.IngestMessage` | internal/postgres/messages.go:85-191 | the transaction is the ingest specification, errors included, and keeps the constraints |
| `MessageStore.Store.PrepareSend` | internal/postgres/messages.go:339-436 | one pending row and command per key, or the key's account, or an error without change |
| `MessageStore.Store.ExistingSend` | internal/postgres/messages.go:566-585 | the key's command if its message is still there, dispatchable exactly while pending |
| `MessageStore.Store.MarkCommandDispatched` | internal/postgres/messages.go:438-448 | true exactly when the command was pending and unexpired, and then it is dispatched |
| `MessageStore.Store.CompleteSend` | internal/postgres/messages.go:450-510 | echo removed, row confirmed, command completed, update announced; or no change |
| `MessageStore.Store.FailSend` | internal/postgres/messages.go:512-564 | row and command failed or unknown together, update announced; or no change |
| `MessageStore.Store.Prune` | internal/postgres/messages.go:623-658 | counts and deletes exactly the stale rows, then the outbox rows delivered more than seven days ago; a failure in between leaves the first part |
| `MessageStore.Store.ListMessages` | internal/postgres/messages.go:272-313 | for the owner only, the hundred newest rows in order, with their contents |
| `MessageStore.NewestKeys` | internal/postgres/messages.go:297-298 | the first hundred of the ranking |
| `MessageStore.TakeNewest` | internal/postgres/messages.go:297 | the newest key heads the ranking |
| `Coupling.BackgroundCoupled` | internal/postgres/messages.go:631-646 | ingest, sync, pruning and account deletion keep commands and messages coupled |
| `Coupling.PrepareCoupled` | internal/postgres/messages.go:403-417 | preparing links a pending command to a pending row |
| `Coupling.CompleteCoupled` | internal/postgres/messages.go:475-502 | completing keeps every command coupled, also those whose row was the deleted echo |
| `Sends.UnknownOnlyOnTimeout` | internal/httpapi/router.go:515-524 | exactly which request errors leave a send unknown; row and command agree |
| `HubOutcomes.RecordedIff` | internal/httpapi/router.go:446-524 | in every run of the hub a send is recorded unknown if and only if its own context ended or the response it took says so itself, completed if and only if that response says what was sent and when, and failed if the connection was missing, closed or not writable, or the response says anything else |
| `HubOutcomes.SettledByReply` | internal/httpapi/router.go:456-505 | in every run of the handlers a command is recorded completed, failed or unknown only after a reply to its own request that says so; a send that found no worker counts as failed |
| `Sends.StepKeeps` | internal/httpapi/router.go:415-505 | every step of any handler, restart or other transaction keeps the send invariant |
| `Sends.AtMostOnceDispatch` | internal/httpapi/router.go:437-455 | in every run at most one request reaches a worker per account and idempotency key |
| `SendTimes.RequestsInTime` | internal/httpapi/router.go:437-455 | in every run each request belongs to a command that was marked dispatched less than 300 seconds after the send that created it |
| `SendTimes.MarkWinsIff` | internal/postgres/messages.go:438-448 | in every reachable state a mark wins the dispatch if and only if its command is pending and younger than 300 seconds, and otherwise changes no row |
| `SendTimes.RunIsTimed` | internal/httpapi/router.go:415-505 | every run of the handlers has these times, so both hold of every run |
| `SendProgress.FirstSendGoesOut` | internal/httpapi/router.go:415-455 | in every reachable state the first send of a key to an owned conversation can be prepared, marked and written: one request of the conversation's account with its own command and body |
| `SendProgress.RetryGoesOut` | internal/httpapi/router.go:415-455 | a retry whose command is pending and unexpired goes out too, for that command |
| `SendProgress.WinnerRecords` | internal/httpapi/router.go:456-505 | in every reachable state the reply is recorded while the account exists: the command gets the status the reply calls for, and its row the matching one |
| `Sends.StatusMonotone` | internal/postgres/messages.go:438-448 | a command moves from pending to dispatched to one final status and stays there |
| `Sends.CommandMessageCoupling` | internal/postgres/migrations/001_initial.sql:107-121 | in every reachable state an open command has its pending row and a settled one the matching row or none |
| `Sends.WinnerFindsMessage` | internal/postgres/messages.go:461-474 | the dispatch winner can record its outcome unless the account was deleted |
| `Sends.RequestCarriesBody` | internal/httpapi/router.go:451-455 | with one body per key, the request carries it |
| `Sends.RetrySendsItsOwnBody` | internal/httpapi/router.go:451-455 | a retry that finds its command pending sends its own body and leaves the stored one |
| `SendBodies.FaithfulIff` | internal/httpapi/router.go:451-455 | in all runs of senders using a set of key and body pairs every request carries the stored body, if and only if the set has one body for each key |
| `Outbox.Relay.PendingOutbox` | internal/postgres/messages.go:587-611 | the lowest undelivered ids, ascending, with the limit's default |
| `Outbox.Relay.MarkDelivered` | internal/postgres/messages.go:613-621 | marks an undelivered row and nothing else |
| `Outbox.Relay.Drain` | cmd/say-api/main.go:166-184 | publishes a prefix of the batch in order and marks it, at most one row published and unmarked when a call fails |
| `Outbox.BacklogAfter` | cmd/say-api/main.go:171-183 | undisturbed drains remove a hundred rows each, lowest first |
| `Outbox.BacklogClears` | cmd/say-api/main.go:171-183 | n pending rows clear in ceil(n/100) undisturbed drains and in no fewer |
| `Outbox.OutboxConservation` | internal/postgres/messages.go:650-654 | in every run only committed rows are published, unchanged; a row no longer pending was published; each further publication belongs to an interrupted drain |
| `Outbox.NeverSkipped` | cmd/say-api/main.go:146-184 | a pending row i is published after at most i/100 + 1 further completed drains, however many lower ids are committed late |
| `OutboxNotices.PublishedIsTheRow` | cmd/say-api/main.go:171-183 | what was published was committed with the same id, user, kind, message id and message |
| `OutboxNotices.CommittedGoesOut` | cmd/say-api/main.go:171-183 | a committed row that is no longer pending was published with its own fields |
| `OutboxNotices.RepeatsNeedAborts` | cmd/say-api/main.go:171-183 | a notice goes out at most once more than drains were aborted |
| `Tokens.Service.Start` | internal/auth/service.go:89-122 | a new login with no failures, or no change on a repeated id |
| `Tokens.Service.Verify` | internal/auth/service.go:124-194 | the transaction is the verification specification, failures and rollbacks included |
| `Tokens.Service.Refresh` | internal/auth/service.go:196-238 | the transaction is the rotation specification |
| `Tokens.Service.IssueTokenPairWithId` | internal/auth/service.go:259-300 | a new unrevoked token, or nothing when the id or the secret is taken |
| `Tokens.TokenChains` | internal/auth/service.go:218-237 | after any run the tokens are disjoint chains, one per verified login, linked by replaced_by, unrevoked exactly at the end |
| `Tokens.RedeemedOnce` | internal/auth/service.go:214-233 | no token is redeemed twice, and exactly the redeemed ones are revoked; unrevoked tokens, expired ones included, equal verified logins |
| `Tokens.LeadsToOneSession` | internal/auth/service.go:226-230 | from every token replaced_by leads without a cycle to exactly one unrevoked token of the same user |
| `Tokens.LoginBudget` | internal/auth/service.go:149-170 | a login is verified at most once, records at most five failures, and not both the fifth failure and a success |
| `Logins.StartedMeans` | internal/auth/service.go:101-110 | a start stores a fresh login with its address, code and end, and touches no other |
| `Logins.VerifiedIff` | internal/auth/service.go:124-194 | a login is granted if and only if it was started, is not used up, has missed fewer than five times, is not past its end, the code is the stored one and the drawn ids and secret are free; it is refused if and only if one of the first five fails |
| `Logins.GrantedMeans` | internal/auth/service.go:172-193 | a granted login is used up and opens a session of the address's user, added if new, for the given lifetime |
| `Logins.RefusedMeans` | internal/auth/service.go:149-170 | a refusal or failure changes nothing but the one miss a wrong code of an open login costs; the fifth uses it up |
| `Logins.RefreshedIff` | internal/auth/service.go:196-238 | a refresh is granted if and only if an unrevoked token no later than its end has the secret and the draws are free; that token is then revoked and replaced by a new one of the same user |
| `Logins.VerifiesOverRun` | internal/auth/service.go:124-194 | after any run a verification succeeds if and only if its code is the one the login's first start stored, by that start's end, with no success and fewer than five misses before and free draws; it counts as a miss if and only if, with the rest alike, the code is another |
| `Logins.OthersOverRun` | internal/auth/service.go:140-148 | no start, refresh or verification of a login never started adds a success or a miss |
| `Logins.WinsUseTheCode` | internal/auth/service.go:152-172 | every success of a run used the code of its first start, by that start's end |
| `Logins.MissesAreWrong` | internal/auth/service.go:152-170 | every miss of a run used another code |
| `Accounts.RemoveTokens` | internal/gateway/store.go:137-146 | the loop removes exactly the account's tokens |
| `AccountRefinement.AgreeUntilRegrant` | internal/gateway/store.go:150-201 | whatever the clock does, up to and including the first regrant both stores answer each call alike, but for forgotten enrollments and statuses only Postgres rejects, whose answers are given; one accepts what the other refuses if and only if a forgotten enrollment is presented by its end for the right platform |
| `AccountRefinement.StoresAgree` | internal/gateway/store.go:67-201 | with a clock that does not run back, after any run both stores answer the next call alike, with two exact exceptions: an enrollment already presented late, and a status only Postgres rejects |
| `AccountRefinement.OneCredentialPerAccount` | internal/postgres/accounts.go:175-259 | per account at most one live enrollment or credential in either store, and generation equals credentials issued |
| `AccountRefinement.NoCredential` | internal/postgres/accounts.go:230-235 | redeeming never meets the one-active-credential index |
| `AccountRefinement.ClockMustNotRunBack` | internal/gateway/store.go:171-174 | regrants happen: an enrollment presented late and then again is refused in memory and accepted by Postgres if and only if the second time is within its ten minutes |
| `Enrollment.MemoryAuthenticateIff` | internal/gateway/store.go:150-201 | a worker gets in if and only if it shows a credential of its platform or an enrollment of its platform by its end, and each refusal has its exact case |
| `Enrollment.MemoryAuthenticateMeans` | internal/gateway/store.go:155-201 | a credential changes nothing; an enrollment is used up for a new credential and makes the account the worker's, offline and one generation on; a refusal can only cost the enrollment |
| `Enrollment.TablesAuthenticateIff` | internal/postgres/accounts.go:150-259 | the same for the Postgres store, where the new credential must also collide with nothing |
| `Enrollment.TablesAuthenticateMeans` | internal/postgres/accounts.go:175-259 | the rows that change; a refusal changes none |
| `Enrollment.CreateMeans` | internal/postgres/accounts.go:36-91 | both stores take the two platforms only; a new account is unlinked and its enrollment ends 600 seconds later |
| `Enrollment.DeleteMeans` | internal/gateway/store.go:128-148 | only the owner deletes an account, and exactly its enrollments and credentials go with it, in both stores |
| `Enrollment.ReportMeans` | internal/postgres/accounts.go:261-322 | a report changes exactly the status, or status and external id, of the account, and only in the current generation; Postgres refuses exactly the statuses it does not know |
| `Correlation.OwnFirstResponse` | internal/gateway/hub.go:244-299 | a call returns only the first response with its own id on its own connection, so no response reaches two calls |
| `Correlation.WaitingCallIsServed` | internal/gateway/hub.go:324-335 | a response read for a waiting call is in its channel or about to be |
| `Correlation.EntriesMatchCalls` | internal/gateway/hub.go:263-271 | pending entries are exactly those of calls still running |
| `Correlation.ClosedOnce` | internal/gateway/hub.go:218-242 | one serving connection per account; closed fires exactly once, when serving ends, and frees every waiting call |
| `HubOutcomes.WhyEnded` | internal/gateway/hub.go:244-299 | in every run a call ends timed out if and only if its own context ended while it waited, with a response if and only if it took one, and offline if and only if it found no connection, its write failed or it saw its connection closed |
| `HubOutcomes.ServedIff` | internal/gateway/hub.go:218-254 | in every reachable state a connection is taken into service if and only if none serves its account, and a call finds a connection if and only if one serves the account it asks for |
| `HubOutcomes.ReachesItsAccount` | internal/gateway/hub.go:244-271 | a call stays on a connection of the account it asked for |
| `Correlation.ClientRefines` | internal/signalcli/rpc.go:63-110 | every run of the JSON-RPC client is a run of the protocol; its counter makes ids new |
| `Correlation.ClientResponse` | internal/signalcli/rpc.go:128-169 | a JSON-RPC call returns the first response carrying its id (section 5 of JSON-RPC 2.0) |
| `Tdlib.FramingRoundTrip` | workers/telegram/src/tdlib-client.ts:252-268 | lines and remainder rejoin to the text and hold no newline |
| `Tdlib.FramingUnique` | workers/telegram/src/tdlib-client.ts:252-268 | it is the only such reading |
| `TdlibRuns.OutputInOrder` | workers/telegram/src/tdlib-client.ts:252-268 | whatever continuations, timers, requests and exits come between the chunks, the values processed are exactly the lines of the whole output, parsed and in order, the buffer is what follows the last newline, and the session is that of the same run line by line |
| `TdlibRuns.ChunkedRunIsRun` | workers/telegram/src/tdlib-client.ts:252-324 | with new temporary ids a chunked run is the run of its lines |
| `TdlibRuns.ChunkedSendsEndOnce` | workers/telegram/src/tdlib-client.ts:170-198 | the same for whole chunked runs: each continued send waits or ended once |
| `TdlibRuns.ChunkedCompletionResolves` | workers/telegram/src/tdlib-client.ts:181-190 | the same for a completion ahead of its continuation |
| `Tdlib.ChunkIndependence` | workers/telegram/src/tdlib-client.ts:252-268 | with nothing in between, the session too depends only on the whole output |
| `Tdlib.Client.HandleOutput` | workers/telegram/src/tdlib-client.ts:252-324 | processes every complete line of buffer and chunk and keeps the rest |
| `Tdlib.Client.Handle` | workers/telegram/src/tdlib-client.ts:269-317 | what one value does to requests, waiters, completions and handlers |
| `Tdlib.Client.ResumeSend` | workers/telegram/src/tdlib-client.ts:181-197 | the continuation of a send: an early completion, or a waiter |
| `Tdlib.Client.GiveUpRequest` | workers/telegram/src/tdlib-client.ts:238-248 | a request's timeout or failed write removes that request only |
| `Tdlib.Client.GiveUpSend` | workers/telegram/src/tdlib-client.ts:192-195 | a send's timeout ends that send only, and only while it waits |
| `Tdlib.Client.OnExit` | workers/telegram/src/tdlib-client.ts:49-61 | the exit rejects every request and every waiting send once, in map order |
| `TdlibSends.SendsEndOnce` | workers/telegram/src/tdlib-client.ts:170-198 | in every run waiter and completed keys are disjoint, at most a hundred completions are kept, and each continued send waits or ended once, with a message an update brought |
| `TdlibSends.EarlyCompletionResolves` | workers/telegram/src/tdlib-client.ts:181-190 | a completion before the continuation resolves the send if fewer than a hundred unmatched ones intervene, whatever else happens, and is then forgotten, and no other |
| `TdlibSends.LateCompletionResolves` | workers/telegram/src/tdlib-client.ts:286-294 | a completion after the continuation resolves it at once |
| `TdlibSends.RememberOther` | workers/telegram/src/tdlib-client.ts:295-301 | an entry is lost exactly when it is the oldest of a full map and the key is new |
| `TdlibSends.RememberedIff` | workers/telegram/src/tdlib-client.ts:295-301 | with nothing continued meanwhile, an early completion is kept if and only if at most 99 others follow |
| `TdlibSends.StaysRememberedIff` | workers/telegram/src/tdlib-client.ts:295-301 | in any run, whatever is continued, a remembered completion is still there if and only if no new one arrived while 99 younger ones were stored |
| `TdlibSends.FailureHeardIff` | workers/telegram/src/tdlib-client.ts:305-317 | a failure update ends its send as refused if and only if the send is waiting when it comes; otherwise, along every run without more news of that send, its only possible end is to be given up by its timeout or the exit |
| `TdlibCauses.UpdatesInOrder` | workers/telegram/src/tdlib-client.ts:252-324 | however the output is cut up, the handlers see exactly its usable lines that are no replies, once each and in order |
| `TdlibCauses.FirstReplyAnswers` | workers/telegram/src/tdlib-client.ts:268-284 | a request is answered by the first reply with its id unless it was given up or the process exited before; a second reply changes nothing |
| `TdlibCauses.SettledIsIgnored` | workers/telegram/src/tdlib-client.ts:238-284 | a reply to a request that was given up, or made before the process exited, changes nothing |
| `TdlibCauses.EndingHasCause` | workers/telegram/src/tdlib-client.ts:192-197 | in every run a send is refused only by an update about it, timed out only by its own timer and ended by an exit only while it waited |
| `TdlibCauses.CauseEnds` | workers/telegram/src/tdlib-client.ts:49-61 | and each of these, or a completion, ends a waiting send at once, the exit every one |
| `WorkerQueue.MessageQueue.OnMessage` | workers/telegram/src/worker-client.ts:183-194 | a frame goes to the first waiter or to the queue |
| `WorkerQueue.MessageQueue.Next` | workers/telegram/src/worker-client.ts:199-233 | a queued frame, a rejection, or a place among the waiters |
| `WorkerQueue.MessageQueue.Remove` | workers/telegram/src/worker-client.ts:207-214 | the caller leaves the waiters and is rejected |
| `WorkerQueue.MessageQueue.Fail` | workers/telegram/src/worker-client.ts:234-237 | every waiter is rejected |
| `WorkerQueue.LawIff` | workers/telegram/src/worker-client.ts:183-202 | arrivals are handed out in order, once, and never wait beside waiters, for all runs over a set of frames if and only if the set has no frame taken for false |
| `WorkerQueue.FalsyIsDropped` | workers/telegram/src/worker-client.ts:200-201 | such a frame is dropped and its caller parked although a frame is queued |
| `WorkerQueue.CallersConserved` | workers/telegram/src/worker-client.ts:199-237 | every call of next is still waiting or got exactly one answer |
| `WorkerQueue.CallersInOrder` | workers/telegram/src/worker-client.ts:183-237 | while no frame is taken for false, frames go to the callers in the order of their calls, leaving out exactly those rejected |
| `WorkerQueue.FailedIff` | workers/telegram/src/worker-client.ts:183-237 | the queue has failed if and only if the socket closed or sent something that is not JSON; then nobody waits, and before that only those are rejected who gave up |
| `WorkerQueue.LeavesRejected` | workers/telegram/src/worker-client.ts:207-237 | who gives up while waiting leaves the line rejected, and a failure rejects everyone in it |
| `Commands.CommandsConserved` | internal/worker/client.go:200-252 | every received command is with a handler (at most four), under way, buffered (at most sixteen) or written, and none is answered twice |
| `Commands.StartedIff` | internal/worker/client.go:200-218 | a command is started if and only if fewer than four handlers hold their tokens, and refused otherwise |
| `Commands.AnswersInOrder` | internal/worker/client.go:206-252 | answers are written in the order they were given, none left out |
| `Commands.WedgedForEver` | internal/worker/client.go:206-217 | once the loop refuses a command with the buffer full, nothing is received or written again |
| `Commands.LoopGoesOnIff` | internal/worker/client.go:175-252 | the loop never gets stuck in the runs that leave at most n commands unanswered, if and only if n is at most sixteen |
| `Commands.WedgeReachable` | internal/worker/client.go:202-217 | it is reached with seventeen commands received and none answered |

## Left out

- HTTP routing, JSON and WebSocket encoding, deadlines, close frames and heartbeats: a connection is a pair of queues that may lose their tail.
- SHA-256, HMAC, JWT signing and random generation: a hash is modelled by the secret it is made from; random ids are parameters, new where a theorem needs it and colliding otherwise.
- Wall-clock time: operations take the time as a parameter; tickers, backoff and jitter are not modelled.
- Transaction isolation: each transaction is atomic and its unique and foreign-key constraints are invariants that are proved.
- Directory semantics: a rename is atomic, a synced file keeps its contents, the temporary of an interrupted append is never read; two workers sharing one spool directory are not modelled.
- Message ids are natural numbers whose order stands for the database's order of the id text.
- Clearing the unread count: no code in the repository does it.
- Liveness of an event the hub keeps rejecting: it holds back everything appended after it, as `Delivery.NoOvertaking` says.
- The TypeScript flush that is still running when its connection is replaced: batches belong to one connection.
- Postgres rows of users an account refers to: the user is taken to exist.
- `ListAccounts`, `GetAccount`, `TouchWorker`, `MarkWorkersOffline` and last-seen times: single queries without further properties.
- Outbox identities: an id is never issued twice, and the path from the file to the publication starts with an empty outbox.
- `Tdlib.Client.HandleOutput`: chunks are taken to end between characters; the source decodes each buffer of output by itself, so a character cut in two would be replaced in its line.
- `EventSpool.Spool.Append`: of the envelope's strings only the id is followed through the JSON encoding; the others are taken to be valid UTF-8.
- Trimming and JSON parsing of a TDLib line are one function parameter; TDLib is taken to give each message being sent its own temporary id.
- internal/realtime/hub.go is the publish sink of the outbox and may drop what it is given.
- Session end in the Go worker: results of handlers that finish after it are discarded; conservation is stated while the session lives.
- Provider mapping (internal/signalworker/service.go, workers/telegram/src/service.ts), the signal-cli daemon, the fake worker, the login webhook, migrations and deployment.
