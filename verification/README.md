# A model of the OPC-UA line gateway

The gateway sits between the machines of a production line and an archive. A machine asks it, over
OPC-UA, to create a part identifier, to save the part sheets of a part, or to load the general
sheet last saved for a part by any machine. Saves go to a cache on disk and to two queues, which a
periodic drain empties into two archive tables. This project models that logic in Dafny and proves
what it promises, over every input and every run.

## How it is built

| file | what it models |
|---|---|
| `Outbox.dfy` | one queue, its drainer and its archive table: the steps of a drain, and the invariant each of them keeps |
| `Gateway.dfy` | the whole gateway as runs of events: saves and creations from any number of machines, two drainers whose insertions fail, land, land unnoticed or land late, and crashes between any two steps |
| `Guarantees.dfy` | what holds in every run: no loss, order, duplicates, keys, cache, backlog, identifiers |
| `Handshake.dfy` | the request and response protocol of a machine across sessions lost at any point |
| `Plant.dfy` | a machine that follows the protocol, its server and the gateway together, with the runs of the operations behind its requests, step by step |
| `PlantInvariant.dfy` | what each of these steps keeps |
| `EndToEnd.dfy` | what the responses mean: what was saved, created and loaded for a request, how often, and what becomes of it |
| `SessionManager.dfy` | ticks, start attempts and the session registry, in time |
| `Handler.dfy`, `Requests.dfy`, `SaveRequest.dfy`, `ReadRequest.dfy`, `CreateRequest.dfy` | the handler, its responses and the three requests |
| `Drains.dfy` | drains as steps of a queue, and what each has done when it is over |
| `Cache.dfy`, `Database.dfy`, `Server.dfy` | the objects that change in place: the cache, the drain, the variables of a machine's server |
| `PartSheet.dfy`, `BinaryEncoding.dfy`, `Json.dfy` | the cached form of a sheet and the archive rows |
| `PartId.dfy`, `Calendar.dfy`, `AsciiText.dfy` | part references, identifiers, dates |
| `Variant.dfy`, `Bytes.dfy`, `Ordering.dfy`, `Wrappers.dfy` | OPC-UA values, byte strings and numerals, key order, options and results |

`dafny verify dfyconfig.toml` checks all of it.

The same functions serve twice. A transaction of the cache is a function on the content of its
tables: the methods of the class `TraceabilityCache` are proved to compute it, and the events of
`Gateway.Apply` are made of it. Each method of `TraceabilityDatabase` is proved to extend a run of
the gateway by the events it stands for: the steps of a drain, the two steps of a save, a creation,
the late landing of an insertion. So what `Guarantees.dfy` proves of runs holds of this object
between any two of these calls, and after a crash, with an object made for the same run and the
crash.

Some decisions a reader should know:

* A write transaction is one step: serialised, atomic and durable. Every point where the program
  waits is a step boundary. An admitted save may commit at any later point, whatever became of the
  session that asked for it; only a crash of the process forgets it.
* An insertion is all or nothing within its table, and the two tables are unrelated.
* `Attempt.lo`, `Attempt.hi`, `Lane.tags`, `Lane.removed`, `World.history`, `World.creations` and the
  fields of `Handshake.Record` are history variables: they record what happened, and no step of the
  gateway depends on them. `World.admitted` counts the saves that have passed the backlog check and
  are not committed yet.
* Sequence numbers wrap at 2^64 and serial numbers at 2^32, as they do in release builds, which do
  not check for overflow. Statements about runs therefore say `|history| <= MAX_SAVES`, which is
  2^63: `Guarantees.KeysAreDistinctIff` shows that this is exactly how long keys stay distinct.
* A run keeps one backlog threshold, one float format, one part identifier node and one reading of
  references that are not ASCII (`Gateway.Config`) across all its restarts. `BacklogStaysBounded`
  starts from any world, so it also covers a cache reopened with another threshold.
* `\d` in the regular expression for references knows the digits of all scripts. The scan that is
  proved equivalent to the expression is of ASCII texts; what the expression makes of any other text
  is the parameter `unicode`, about which nothing is assumed. Statements say where they need ASCII.
* In the handshake, upcoming notifications are counted whether or not the server has sampled them
  yet, an unpublished sample is replaced by the next one, and a response write takes effect before
  its session ends or never.
* The comment at line 29 of `src/traceability/part_id.rs` allows 2 to 4 digits for the size of a
  part; its regular expression allows 2 or 3, and so does the model.
* The comment at lines 139-140 of `clickhouse/tables/traceability.sql` asks the drain to bisect a
  refused batch; the program does not, and neither does the model.

## Model

| member | source | states |
|---|---|---|
| `Guarantees.NothingIsLostInAnyRun` | src/traceability/database.rs:138-195 | In every run, every row of every committed save is in its queue under its own key, or in its archive table. |
| `Guarantees.FirstDeliveriesAreInOrder` | src/traceability/database.rs:146-192 | In every run, even when a timed-out insertion lands after a later one, the first copies of the archived rows are the rows of the first saves, in commit order. |
| `Guarantees.DeliveryIsExact` | src/traceability/cache.rs:249-289 | When every insertion that landed had its removal committed, the archive table followed by the queue read in key order is the save history, row for row. |
| `Guarantees.DuplicatesAreBounded` | src/traceability/database.rs:160-192 | A row has as many archived copies as attempts landed with it: at most one more than those that landed with it without their removal committing. |
| `Guarantees.TagsNameRows` | src/traceability/database.rs:160-178 | In every run, each archived row is the row of the committed save its tag names, so that counting tags counts copies. |
| `Guarantees.BatchesAreFramed` | src/traceability/cache.rs:253-269 | The body of every attempt, split at newlines, is one row per key in key order, each the row of the save its key belongs to. |
| `Guarantees.RetriedBatchesExtend` | src/traceability/cache.rs:249-270 | Of two attempts with no removal committed between their snapshots, the later one reaches at least as far, and its body is the earlier one followed by the rows saved since; its keys extend the earlier keys. |
| `Guarantees.CounterFollowsHistory` | src/traceability/cache.rs:192-200 | After n saves, whatever was drained and restarted, the counter is absent if n = 0 and at the number of the last save otherwise; the next save takes number 2n modulo 2^64. |
| `Guarantees.KeysAreDistinctIff` | src/traceability/cache.rs:29-31 | Keys of distinct saves are distinct exactly as long as at most 2^63 saves commit. |
| `Guarantees.KeysBelongToTheirSaves` | src/traceability/cache.rs:202-211 | In every run a queued key is the key of one committed save and of that queue, and the row under it is the row of that save. |
| `Guarantees.RowsTellTheirSave` | src/traceability/cache.rs:179-189 | A row of a save, read back as JSON, gives its instant, machine and part, and every variable with its meaning: those of the general sheet in the general queue, those of the operation sheet in the other. |
| `Guarantees.RowsTellWhatWasRead` | src/traceability/cache.rs:171-212 | In every run, a save that commits queues, under an even key, a row that names the general nodes with the first values read and, under the next key, a row that names the operation nodes with the others; both are about the part that the part identifier node held. |
| `Guarantees.RemovalSparesLaterSaves` | src/traceability/cache.rs:274-289 | Removing the keys of a snapshot takes out every row the snapshot holds, and no row saved after it. |
| `Guarantees.CacheAgreesWithHistory` | src/traceability/cache.rs:150-164 | In every run, looking up a part gives the identifiers and values of its last committed save; nothing for a part never saved; an error when nothing was ever saved. |
| `Guarantees.LastSaveNamesPart` | src/traceability/handler/save_part_sheets.rs:100-108 | The general sheet last saved for a part holds that part at the part identifier node. |
| `Guarantees.BacklogStaysBounded` | src/traceability/cache.rs:220-245 | From any world, such as one left by a process with another threshold: when at most K saves are ever admitted together, rows queued plus twice the admitted saves never exceed threshold - 1 + 2K, or their number at the start when that is more; with threshold 0 nothing more is admitted. |
| `Guarantees.BacklogIsBounded` | src/traceability/handler/save_part_sheets.rs:44-47 | From a fresh cache: never more than threshold - 1 + 2K rows, although check and save are separate steps; with threshold 0 nothing at all. |
| `Guarantees.ReachedSerials` | src/traceability/cache.rs:129-145 | In every run, each creation takes for serial its rank among the creations of its day, modulo 2^32, whatever days the clock has been at in between. |
| `Guarantees.SerialsRepeatIff` | src/traceability/cache.rs:129-145 | Two creations of a day take the same serial exactly when a multiple of 2^32 creations of that day separates them. |
| `Guarantees.IdentifiersCollideIff` | src/traceability/handler/create_part_id.rs:75-87 | Over any run, two identifiers created on dates less than 100 years apart are equal exactly when reference text, batch, line and day are, and a multiple of 2^32 creations of that day separates them. |
| `Guarantees.IdentifiersAreUnique` | src/traceability/handler/create_part_id.rs:75-87 | Over any run, with clocks going backwards, restarts and burned serials, two successful creations on dates less than 100 years apart give different identifiers, as long as the day sees at most 2^32 creations. |
| `Guarantees.CenturiesCollide` | src/traceability/part_id.rs:86-88 | The 100 years matter: the first creations of the same day of 2026 and 2126, with the same inputs, succeed with the same identifier. |
| `Guarantees.CenturiesCollideInARun` | src/traceability/handler/create_part_id.rs:75-87 | A run from a fresh cache makes these two creations. |
| `Gateway.ReachedQueue` | src/traceability/database.rs:138-195 | Every world a run leads to keeps the outbox invariant of both queues. |
| `Gateway.ReachedHistory` | src/traceability/cache.rs:171-215 | Every world a run leads to has the counter and the cached sheets its history calls for. |
| `Gateway.StepKeepsQueue` | src/traceability/database.rs:138-195 | No event, on this queue or elsewhere, breaks the outbox invariant. |
| `Gateway.CommittedSaveOk` | src/traceability/handler/save_part_sheets.rs:86-114 | A save made of what a machine returned is storable and its general sheet names its part at the part identifier node. |
| `Gateway.BatchIsTheRest` | src/traceability/cache.rs:249-270 | A batch holds the keys and rows of exactly the saves not removed yet, in save order. |
| `Outbox.EnqueueKeeps` | src/traceability/cache.rs:205-210 | Saving at any point of a drain keeps the invariant, under a key no row has. |
| `Outbox.LandKeeps` | src/traceability/database.rs:171-178 | So does the landing of an insertion, now or after any number of later attempts. |
| `Outbox.RemovalKeeps` | src/traceability/database.rs:185-192 | So does removing the keys of an acknowledged insertion. |
| `Outbox.RemovalTakesTheSnapshot` | src/traceability/cache.rs:274-289 | Removing a stretch of keys leaves exactly the rows of the saves after it. |
| `Outbox.NothingIsLost` | src/traceability/database.rs:138-195 | Under the invariant, each row of the history is queued or archived. |
| `Outbox.FirstCopiesAreAPrefix` | src/traceability/database.rs:138-195 | Under the invariant, keeping the first copy of each archived row gives a prefix of the history that covers all that was removed. |
| `Outbox.CopiesAreLandings` | src/traceability/database.rs:160-192 | Under the invariant, copies are landings, and at most one of the landings with a row had its removal committed. |
| `Outbox.TableThenQueueIsHistory` | src/traceability/database.rs:160-192 | Under the invariant, when all landings were removed, the table is the history up to the queue. |
| `Outbox.RetriesExtend` | src/traceability/cache.rs:262-267 | Batches that start at the same save extend one another, row for row. |
| `Outbox.BodiesFrameTheirRows` | src/traceability/cache.rs:262-267 | Splitting a body at newlines gives the rows of its stretch of saves. |
| `Cache.TraceabilityCache.TakeSerial` | src/traceability/cache.rs:129-145 | Gives the next serial of a date, from 1, and counts it for that date only. |
| `Cache.TraceabilityCache.GetSheet` | src/traceability/cache.rs:150-164 | Decodes the sheet cached for a part; missing table and missing part are told apart. |
| `Cache.TraceabilityCache.Enqueue` | src/traceability/cache.rs:192-212 | One transaction bumps the counter, replaces the cached sheet and queues both rows under two new keys. |
| `Cache.TraceabilityCache.SavePartSheets` | src/traceability/cache.rs:171-215 | Either everything is encoded and written, or nothing is written and the first encoding error is given. |
| `Cache.TraceabilityCache.CheckEnqueuingAllowed` | src/traceability/cache.rs:220-245 | Refuses exactly when both queues together hold as many rows as the threshold; a missing queue is empty. |
| `Cache.TraceabilityCache.GetQueueBatch` | src/traceability/cache.rs:249-270 | Reads all keys in order, and a body of their rows each followed by a newline. |
| `Cache.TraceabilityCache.RemoveEntries` | src/traceability/cache.rs:274-289 | Removes the given keys from one queue; unknown keys and the other queue are left alone. |
| `Database.TraceabilityDatabase.GetQueueBatch` | src/traceability/database.rs:146-153 | The first step of a drain is a snapshot event of the run. |
| `Database.TraceabilityDatabase.InsertBatch` | src/traceability/database.rs:160-183 | The insertion adds exactly the rows of the body to its table, or nothing, whether or not it is acknowledged; it is so many events of the run. |
| `Database.TraceabilityDatabase.RemoveEntries` | src/traceability/database.rs:185-192 | Only an acknowledged insertion is followed by a removal, of the keys that were read with it. |
| `Database.TraceabilityDatabase.LandPending` | src/traceability/database.rs:171-178 | An insertion that its drain gave up on may land at any later point: its rows are added to its table, no drain under way is disturbed, and it is an event of the run. |
| `Database.TraceabilityDatabase.AdmitSave` | src/traceability/handler/save_part_sheets.rs:44-47 | The admission of a save is an event of the run, or a refusal that changes nothing. |
| `Database.TraceabilityDatabase.FinishSave` | src/traceability/handler/save_part_sheets.rs:49-137 | An admitted save finishes any time later, between the steps of drains included, and is a commit of the run, or an admission given up. |
| `Database.TraceabilityDatabase.DrainPartSheetQueue` | src/traceability/database.rs:138-195 | With handlers taking turns and earlier insertions landing whenever it waits, a drain succeeds exactly when it removes what it inserted, or finds nothing to drain and may skip; then exactly the saves committed since it began are left in its queue; otherwise all rows it found are. |
| `Database.TraceabilityDatabase.ResumeDrain` | src/traceability/database.rs:138-195 | From one point where it waits to the next, a drain does one of its three steps, in order: it skips exactly an empty queue, when it may; otherwise it sends what it read, and removes it exactly when it was told that it landed. |
| `Database.TraceabilityDatabase.DrainBothQueues` | src/traceability/database.rs:106-111 | The two drains of a tick, polled in any order with handlers taking turns and earlier insertions landing in between. Of each: when it succeeds, no row saved before the tick is left in its queue, and otherwise all of them are; when its insertion lands, they are all in the archive; it sends what it read, unless that is empty and it may skip it. |
| `Database.TraceabilityDatabase.DrainPartSheetsTask` | src/traceability/database.rs:81-133 | Over any number of ticks and for each queue: whenever a removal goes through, what was saved before its tick has left the queue for good, and a last tick during which nothing is saved leaves it empty; whenever an insertion lands, what was saved before its tick is in the archive. The first tick sends even an empty batch, the later ones never do. The status sent once is whether both insertions and removals of the first tick went through. |
| `Drains.RunGoesOn` | src/traceability/database.rs:138-195 | In every run, a batch keeps its keys, what was sent or has landed stays so, and a batch that its drain has left unsent is never sent. |
| `Handshake.NoStaleResponse` | src/traceability/handler/install.rs:152-168 | In every run, a response seen while a request is active is the one computed for that request by the last of its runs, and is 1 exactly when that run succeeded. |
| `Handshake.StartsAreBounded` | src/traceability/handler/handle_request.rs:117-164 | In every run, each request is started at most once more than sessions were lost before its response was written. |
| `Handshake.NeverStartedAgain` | src/traceability/handler/install.rs:147-158 | Once the response to a request is written, nothing that follows starts it again. |
| `Handshake.OncePerSession` | src/traceability/handler/install.rs:147-168 | While a session lasts, a request is started at most once more, and not at all if the session has started it. |
| `Handshake.RunsAreForTheActiveRequest` | src/traceability/handler/install.rs:152-162 | The handler works on the active request only, never on a stale one. |
| `Handshake.OnlyResetsClear` | src/traceability/handler/handle_request.rs:103-108 | In every run, a response is overwritten only after the machine has reset its request, and with 0. |
| `Handshake.BoundIsReached` | src/traceability/handler/handle_request.rs:124-164 | For any number of lost sessions, some run starts a request once more than that: the bound cannot be lowered. |
| `Handshake.StepKeeps` | src/traceability/handler/install.rs:142-170 | No step of the machine, its server, the network or the handler breaks the invariant of the protocol. |
| `Handshake.Reached` | src/traceability/handler/install.rs:142-170 | The invariant holds in every run. |
| `Handshake.StepStarts` | src/traceability/handler/install.rs:153-162 | A step starts a request at most once, only when it is unanswered and the session has not started it. |
| `Handshake.RestIsReachable` | src/traceability/handler/install.rs:142-170 | Never stuck: whatever has happened, a run can go on so that the machine is at rest, one that had reset its request while its session was down included. |
| `EndToEnd.SuccessMeansSaved` | src/traceability/handler/save_part_sheets.rs:116-137 | In every run of a machine and the gateway together, a machine that sees 1 in response to a save request has had a save committed for that request since it issued it. |
| `EndToEnd.SuccessMeansCreated` | src/traceability/handler/create_part_id.rs:65-104 | A machine that sees 1 in response to a creation request holds, at its part identifier node, the identifier of a creation that was made for that request since it issued it. |
| `EndToEnd.SuccessMeansLoaded` | src/traceability/handler/read_part_sheet.rs:35-89 | A machine that sees 1 in response to a load request holds, at all non-excluded nodes, the values of the general sheet that was last saved for the part it shows, by any machine, at some point since it issued the request. |
| `EndToEnd.SuccessIsKept` | src/traceability/handler/save_part_sheets.rs:116-137 | Both rows of the save that a success stands for are queued or archived, whatever happened since. |
| `EndToEnd.SuccessIsUnique` | src/traceability/handler/create_part_id.rs:65-104 | The identifier that a success stands for is that of no other creation within a century, whoever asked for it, as long as the days of the two see at most 2^32 creations. |
| `EndToEnd.SavesAreBounded` | src/traceability/handler/install.rs:147-168 | A request makes at most one save more than sessions were lost before its response was written, saves that commit after their session is lost included. |
| `EndToEnd.CreationsAreBounded` | src/traceability/handler/install.rs:147-168 | A request makes at most one creation more than sessions were lost before its response was written, and takes no more serial numbers. |
| `EndToEnd.EverySaveHasOneRequest` | src/traceability/handler/handle_request.rs:95-115 | Each save of a machine comes of exactly one of its requests, a save request, and was committed after that request was issued. |
| `EndToEnd.AdmittedSavesFinish` | src/traceability/handler/save_part_sheets.rs:43-137 | At any point of any run, an admitted save can finish, and it ends as the save request makes of the cache as it then is: with a commit exactly when what was read can be sliced and stored. |
| `EndToEnd.SaveHappens` | src/traceability/handler/save_part_sheets.rs:43-137 | Whatever can be saved in a fresh cache, some run saves it and tells the machine so. |
| `EndToEnd.CreationHappens` | src/traceability/handler/create_part_id.rs:42-104 | Whatever identifier can be created on a fresh day, some run gives it to the machine and tells it so. |
| `EndToEnd.LoadHappens` | src/traceability/handler/read_part_sheet.rs:35-89 | A machine that shows a part saved by others can be given its sheet, and told so. |
| `PlantInvariant.StepKeeps` | src/traceability/handler/install.rs:142-170 | No step of the machine, of its handler, of an operation or of anything else breaks the invariant that ties runs of operations to requests, saves, creations and variables. |
| `PlantInvariant.Reached` | src/traceability/handler/install.rs:142-170 | That invariant holds in every run. |
| `Plant.WorldIsReached` | src/traceability/handler/mod.rs:58-74 | What the gateway goes through with such a machine is one of its runs, so all that is stated of runs holds there. |
| `Plant.SaveStepsAreSaving` | src/traceability/handler/save_part_sheets.rs:43-137 | The steps of a save in a run of a machine and the gateway make what a save request makes of the cache and of its result. |
| `Plant.CreateStepsAreCreating` | src/traceability/handler/create_part_id.rs:65-104 | So do taking a serial number and, later, writing the identifier for a creation request. |
| `Plant.LoadStepsAreLoading` | src/traceability/handler/read_part_sheet.rs:35-89 | So do looking up a sheet and, later, writing it for a load request. |
| `Requests.ResponsesTellRequests` | src/traceability/handler/handle_request.rs:95-115 | 0 answers a reset and nothing else, 1 a success and nothing else; any other response tells which request it answers, an unknown one or an unreadable one. |
| `Requests.OneReplyEach` | src/traceability/handler/install.rs:151-168 | Every request value gets one response, in order, except the first one when it counts as answered. |
| `Requests.InitialRequestAnsweredIff` | src/traceability/handler/handle_request.rs:117-164 | The first value counts as answered exactly when it is not a reset and the server does not answer with a single response, good and 0. |
| `Handler.HandleRequest` | src/traceability/handler/handle_request.rs:95-115 | A good byte 1, 2 or 3 makes a creation, a load or a save of the cache and the variables, and gives 1 or its error; any other value changes nothing, and is answered 0 exactly when it is a good byte 0. |
| `Handler.HandleRequests` | src/traceability/handler/install.rs:142-170 | Whatever others do to the cache when it waits, the handler loop runs the operations of its values in turn, writes one response for each and goes on after a failed write; a first value that is a reset is answered 0 whatever the server answers; another one is handled exactly when the server answers with a single good 0, and otherwise nothing is run or written for it. |
| `Handler.FirstValueIsHandledIff` | src/traceability/handler/install.rs:147-158 | So it is whatever values follow; the first value leaves the cache as others made it, and the variables as they were, when it is not handled. |
| `Handler.CreationIsAnswered` | src/traceability/handler/handle_request.rs:60-70 | The response to a creation request tells the first thing that went wrong: 11 no line, 12 no answer of two values, 13 no reference, 14 no batch, 16 no identifier, 17 a write not applied or not answered; it is 1 when nothing did. |
| `Handler.LoadIsAnswered` | src/traceability/handler/handle_request.rs:72-78 | The response to a load request: 21 no answer, 22 no part, 23 a cache that cannot be read, 24 a part never saved, 25 a write not applied or not answered, 1 otherwise. |
| `Handler.SaveIsAnswered` | src/traceability/handler/handle_request.rs:80-90 | The response to a save request: 35 too many rows queued, 31 not as many values as nodes, 32 a bad value, 33 no valid part, 34 too many nodes or an unsupported value, 1 otherwise. |
| `Handler.LastResponseShows` | src/traceability/handler/install.rs:159-167 | After the last value, unless it is an initial one that counts as answered, the response variable shows the response to it, if the write was applied. |
| `SessionManager.AtMostOneSession` | src/opcua/session_manager.rs:50-88 | When start attempts end before the next tick, in every run a server has at most one session registered or being started, and no registration replaces another. |
| `SessionManager.GatewayHasAtMostOneSession` | src/opcua/session_manager.rs:21-25 | With the tick of 5 s and the timeout of 2 s that the gateway has, every run is safe. |
| `SessionManager.SafeIff` | src/opcua/session_manager.rs:21-25 | All runs are safe exactly when the timeout is shorter than the interval between ticks. |
| `SessionManager.SlowAttemptsCollide` | src/opcua/session_manager.rs:81-86 | Otherwise some run has two attempts under way for a server. |
| `SessionManager.SlowSessionsReplace` | src/opcua/session.rs:179-187 | Both can register, so that one session takes the place of another. |
| `SessionManager.TickServesEveryServer` | src/opcua/session_manager.rs:51-87 | Right after a tick, each server has either its live session and no attempt, or one attempt and no session; a session that was dead is gone, and being replaced. |
| `SessionManager.SessionsManager.HandleTick` | src/opcua/session_manager.rs:51-87 | A tick drops exactly the dead sessions, then starts one attempt for each server without a session. |
| `SessionManager.SessionsManager.RegisterSession` | src/opcua/session.rs:179-187 | The end of a start puts its session in the registry and tells whether it took the place of another. |
| `SaveRequest.SlicingIff` | src/traceability/handler/save_part_sheets.rs:77-114 | Slicing gives a part and two sheets exactly when there is one good value per node; the general sheet is the general nodes with the first values, the operation sheet the rest, and the part is the valid one named at the configured index. |
| `SaveRequest.RefusedSlicing` | src/traceability/handler/save_part_sheets.rs:77-114 | When slicing fails, the error tells the first thing that is wrong: the number of values, a bad value, or no valid part at the part identifier node. |
| `SaveRequest.BuildPartSheets` | src/traceability/handler/save_part_sheets.rs:84-114 | Building one list and cutting it in two slices that way, and stops at the same error. |
| `SaveRequest.ZipItemsIff` | src/traceability/handler/save_part_sheets.rs:86-98 | Nodes are paired with their values exactly when all values are good. |
| `SaveRequest.HandleSave` | src/traceability/handler/save_part_sheets.rs:43-137 | Checks the backlog, waits for what it reads while others use the cache, slices, saves, in this order. |
| `SaveRequest.SavedIffSuccessful` | src/traceability/handler/save_part_sheets.rs:43-137 | A request succeeds exactly when it finds the backlog below the threshold and what it reads slices into sheets that can be stored; then exactly these are added to what others have made of the cache meanwhile, and otherwise nothing is. |
| `SaveRequest.SavedIffSupported` | src/traceability/cache.rs:171-189 | Sheets can be stored exactly when the general one has at most 65535 nodes and all their values are supported. |
| `SaveRequest.Initialize` | src/traceability/handler/initialize.rs:86-90 | A handler keeps the node lists and gets the index of the first part identifier node, and is not initialised exactly when there is none. |
| `ReadRequest.LoadGivesTheLastSave` | src/traceability/handler/read_part_sheet.rs:35-89 | In every run, a load request for a part that succeeds leaves in each non-excluded node the value of the general sheet of the last committed save of the part, whichever machine saved it; whatever becomes of its write, no other variable changes; it succeeds when its write does; for a part never saved, no variable changes. |
| `ReadRequest.LoadNeedsAPart` | src/traceability/handler/read_part_sheet.rs:38-53 | An answer that is missing, bad, or no part identifier loads nothing, and is told apart. |
| `ReadRequest.LoadKeepsThePartId` | src/traceability/handler/read_part_sheet.rs:66-84 | In every run, a load request leaves the part identifier of the machine as it is, even when only part of its write is applied. |
| `ReadRequest.WritesCarryTheSheet` | src/traceability/handler/read_part_sheet.rs:67-80 | The last write to a node is the value the sheet has for it, and there is none for an excluded node. |
| `ReadRequest.HandleRead` | src/traceability/handler/read_part_sheet.rs:35-89 | Writes what it finds, or nothing when it finds nothing; succeeds exactly when all writes are applied and answered. |
| `CreateRequest.CreatePartId` | src/traceability/handler/create_part_id.rs:42-104 | Checks the configuration, reads, takes a serial, makes the identifier, writes it, in this order. |
| `CreateRequest.InputsIff` | src/traceability/handler/create_part_id.rs:42-74 | A request has its inputs exactly when the machine has a line and the answer is two good texts: the reference, then a batch of two digits or uppercase letters. |
| `CreateRequest.RefusedInputs` | src/traceability/handler/create_part_id.rs:42-74 | Otherwise the error tells the first thing that is missing. |
| `CreateRequest.SerialIsUsedIff` | src/traceability/handler/create_part_id.rs:65-82 | With its inputs in hand, whether or not an identifier comes of them, a request moves the serial of its day by one modulo 2^32, and nothing else in the cache; otherwise it changes nothing. |
| `CreateRequest.IdentifierIsWritten` | src/traceability/handler/create_part_id.rs:75-104 | A request writes the identifier of the next serial of the day to the part identifier node and nowhere else, or nothing when there is none, and succeeds exactly when its write is applied and answered. |
| `CreateRequest.SuccessHandsOver` | src/traceability/handler/create_part_id.rs:42-99 | A successful request leaves at the part identifier node the identifier made of the reference and batch it read, its line, the date and the serial taken, and changes no other variable. |
| `CreateRequest.RequestIsEvent` | src/traceability/handler/create_part_id.rs:65-74 | Of any run, a request whose inputs are in hand is one creation event, and any other request none, with the cache it leaves. |
| `CreateRequest.IdentifiersDiffer` | src/traceability/handler/create_part_id.rs:65-99 | In every run, two requests that succeed on dates less than 100 years apart, whatever happens in between, write different identifiers, as long as the day of the second sees at most 2^32 creations. |
| `CreateRequest.CreatedIdentifierIsSaved` | src/traceability/handler/create_part_id.rs:89-99 | A machine that was handed an identifier made of an ASCII reference can save with it: the save request reads it back and accepts it. |
| `Server.OpcUaServer.WriteChecked` | src/opcua/session_ext.rs:22-34 | Applies the writes that are not dropped, in order; succeeds exactly when the answer comes back and none is, and otherwise tells the first one. |
| `Server.LastAppliedShows` | src/opcua/session_ext.rs:22-34 | A write that is applied shows, when no later one to its node is. |
| `Server.NoneApplied` | src/opcua/session_ext.rs:22-34 | A node keeps its value when no write to it is applied. |
| `PartSheets.CacheRoundTrip` | src/traceability/part_sheet.rs:33-89 | Decoding an encoded sheet, whatever follows it, gives its identifiers and values in order; a sheet is encoded exactly when it has at most 65535 items. |
| `PartSheets.StrictPrefixIsRejected` | src/traceability/part_sheet.rs:70-89 | No strict prefix of an encoded sheet decodes. |
| `PartSheets.EncodedSize` | src/traceability/part_sheet.rs:39-44 | The size reserved, 2 plus the sizes of the items, is the size of the encoding. |
| `PartSheets.EncodePartSheetForCache` | src/traceability/part_sheet.rs:33-62 | The two loops compute the encoding and the size it was reserved. |
| `PartSheets.DecodeCachedPartSheet` | src/traceability/part_sheet.rs:70-89 | Advancing through the buffer decodes the sheet, or stops at the first error. |
| `PartSheets.DecodeItemLoop` | src/traceability/part_sheet.rs:79-86 | The loop over items does so whatever it has read before. |
| `PartSheets.ArchivedIffSupported` | src/traceability/part_sheet.rs:98-145 | A sheet has a row exactly when all its values are supported. |
| `PartSheets.RowRoundTrip` | src/traceability/part_sheet.rs:98-145 | A JSON reader of a row finds back its instant, machine and part, and the browse name and meaning of every variable, in order. |
| `PartSheets.TimestampReadsBack` | src/traceability/part_sheet.rs:125-131 | The instant of a row is date, space, time, and reads back as year, month, day, hour, minute, second and millisecond at their places. |
| `BinaryEncoding.VariantRoundTrip` | src/traceability/part_sheet.rs:55-58 | Decoding an encoded supported value, whatever follows it, gives it back. |
| `BinaryEncoding.VariantExtends` | src/traceability/part_sheet.rs:82-83 | A successful decoding does not depend on the bytes it leaves. |
| `BinaryEncoding.LittleEndianRoundTrip` | src/traceability/part_sheet.rs:46-54 | An integer is read back from its bytes (section 5.2.2.2 of OPC 10000-6). |
| `BinaryEncoding.LowestByteFirst` | src/traceability/part_sheet.rs:46-54 | Integers are written lowest byte first (section 5.2.2.2 of OPC 10000-6). |
| `Json.StringRoundTrip` | src/traceability/part_sheet.rs:141-143 | An escaped string is read back whatever it holds (section 7 of RFC 8259). |
| `Json.ValueRoundTrip` | src/opcua/variant.rs:13-43 | A JSON reader finds back the truth value, integer, text, null or array of these that a value stands for, and a floating-point number as it was written. |
| `Json.EscapeFitsOnALine` | src/traceability/cache.rs:262-267 | No escaped string holds a newline. |
| `Json.SerializesIffSupported` | src/opcua/variant.rs:13-43 | A value is written exactly when it and all its items are of the supported types, and it is not a multidimensional array. |
| `Json.WriteItems` | src/opcua/variant.rs:27-38 | The loop over the items of an array writes them in order, or fails as the first unsupported one does. |
| `PartIdentifier.ScanIff` | src/traceability/part_id.rs:33-50 | A single left-to-right scan finds a split exactly when the regular expression has it. |
| `PartIdentifier.ScanRefusesIff` | src/traceability/part_id.rs:39-42 | It refuses exactly the texts that do not match. |
| `PartIdentifier.SplitIsUnique` | src/traceability/part_id.rs:37-42 | A text matches in at most one way. |
| `PartIdentifier.NormalisedIffSameNumbers` | src/traceability/part_id.rs:52-60 | Two references normalise to the same nine digits exactly when family, increment and size are equal as numbers. |
| `PartIdentifier.CreationSucceedsIff` | src/traceability/part_id.rs:73-91 | A creation succeeds exactly when the reference matches and the serial has at most 5 digits. |
| `PartIdentifier.SameIdentifierIff` | src/traceability/part_id.rs:73-91 | Two identifiers are equal exactly when the text of the reference, batch, line, last two digits of the year, day of the year and serial are, for references in any script. |
| `PartIdentifier.SameReferenceTextIff` | src/traceability/part_id.rs:52-60 | Two ASCII references have the same text exactly when family, increment and size are equal as numbers. |
| `PartIdentifier.CreatedIsValidIff` | src/traceability/part_id.rs:80-114 | A created identifier is 23 digits or uppercase letters and passes validation exactly when the text of its reference is nine digits. |
| `PartIdentifier.CreatedIsValid` | src/traceability/part_id.rs:80-114 | Every identifier created from an ASCII reference does. |
| `PartIdentifier.IdentifierDecomposes` | clickhouse/tables/traceability.sql:117-144 | Taken apart at the places where the archive looks, an identifier made of an ASCII reference gives the three numbers of the reference, the batch, the line, the year, the day and the serial. |
| `PartIdentifier.ValidatedNamesArchiveDate` | clickhouse/tables/traceability.sql:143-144 | A validated identifier names a real date when the archive reads its year as 2000 + yy. |
| `PartIdentifier.ArchiveDateIsValidated` | src/traceability/part_id.rs:95-115 | Conversely, three numeric fields and such a date are all that validation asks for. |
| `Calendar.FoldingKeepsDays` | src/traceability/part_id.rs:105-106 | Folding a year into 1969 to 2068 never makes its last day illegal. |
| `Calendar.YearAndDay` | src/traceability/part_id.rs:86 | The date is written as two digits of year and three of day, which read back as such. |
| `Calendar.SameYearAndDayIff` | src/traceability/part_id.rs:86 | Two dates are written alike exactly when they agree on the year modulo 100 and the day of the year. |
| `Calendar.YearAndDayParses` | src/traceability/part_id.rs:86-106 | What is written for a date always parses. |
| `Calendar.DateKeyIsInjective` | src/traceability/cache.rs:130 | Distinct dates have distinct serial counters. |
| `Calendar.OrdinalDayIsInjective` | src/traceability/part_id.rs:86 | Within a year, the day of the year determines the date. |
| `Calendar.OrdinalDayClosedForm` | src/traceability/part_id.rs:86 | The day of the year is the one given by the closed form with a ninth of 275 days a month. |
| `Calendar.YearsClosedForm` | src/traceability/part_id.rs:86 | Leap years are those of the Gregorian calendar, as counted in closed form. |
| `AsciiText.TryFrom` | crates/config/src/ascii_text.rs:35-52 | Accepts exactly the texts of the expected length made of digits and uppercase letters; otherwise tells the length, or the first bad character and its position from 1. |

## Left out

- Guarantees.NothingIsLostInAnyRun: assumes at most 2^63 saves, like the other statements about runs, because keys repeat after that (`Guarantees.KeysAreDistinctIff`).
- Guarantees.IdentifiersAreUnique: dates are those of years 0 to 9999; the program can represent negative years too.
- PartIdentifier.ScanIff: scans ASCII texts; which texts in other scripts match, and what is captured there, is a parameter.
- ReadRequest.LoadKeepsThePartId: assumes that no two nodes of a general sheet have the same identifier, which the server ensures and the program does not check.
- EndToEnd.SuccessMeansSaved: the requests of one machine are followed; the other machines are arbitrary events, and have other names.
- EndToEnd.SuccessMeansCreated: the program of a machine writes its variables only when request and response are both 0, as for the other statements about what a machine holds; while a request is active, the gateway alone writes them.
- EndToEnd.SuccessMeansLoaded: what a machine shows at its part identifier node is stated for sheets whose nodes have distinct identifiers, as for `ReadRequest.LoadKeepsThePartId`.
- Handshake.NoStaleResponse: notifications carry a good byte value; one with a bad status or another type is answered 91, whatever request is active.
- Liveness of the handshake: an initial request is dropped when its response cannot be read, and a lost response write is not repeated.
- Response writes that take effect after their session has ended.
- Failures of storage: they change nothing, and give errors 15, 23 and 34. A blocking task that is lost gives the same errors; `Plant` lets it have committed or not.
- Sessions left over at shutdown: an attempt under way may register after the registry is emptied.
- The order of crashes within a transaction, and the internals of redb and ClickHouse.
- Values outside the supported types are opaque bytes, and never saved; multidimensional arrays likewise.
- The length limits of the OPC-UA decoder, and the validity of the JSON text of floating-point numbers: they are bits in the cache and any token in a row.
- Discovery: browsing, endpoints, certificates, namespaces of the operation sheet, and the heartbeat.
- Configuration and credentials, logging, signals, packaging, schemas and dashboards.
