# Verified model of the durable-delivery backend

A Dafny 4.11 model of the chat backend's delivery protocol and of the stateful algorithms around it, with proofs
about every run. `dafny verify dfyconfig.toml` checks the whole project.

## What is modelled

**The durable core.** `MessageStore` holds the three maps of the file-backed store (rows, client-id index, delivery
tracking) with the functions that persist, update, mark, list, delete, save and hydrate them; `FileStore` is the same
store as an object whose fields change in place. `Delivery` is the per-recipient record with its ACK timer, counter
and failure log; `DeliveryService` is that object. `Services` composes both with the in-memory intake into the
accept / persist / confirm / attempt / replay operations and the crash that wipes memory and hydrates; `Backend` is the
imperative form, each method proved equal to its function. These modules reason about runs:

- `ServiceRuns`: any sequence of complete operations, HTTP mark-read and crashes; the coupling between durable state,
  tracking set and delivery record, and the DB-first rule.
- `Protocol`: the same operations cut at every `await`, so that sends, confirmations and replays of different users
  interleave and a crash can fall between any two durable writes; at-most-once replay.
- `Accounts` and `Losses`: where every settled message of such a run is (returned, confirmed, carried by a replay or
  lost), and exactly which stored messages no replay ever returns.
- `ReplayDrain`: replay called again with the cursor it returned; termination, order and completeness.

`Answers` says what each call answers and leaves behind, up to a send and the replay that returns it; `Contents` says
what stored messages and replayed payloads hold while handlers interleave. `MongoPage` compares the Mongo undelivered
page with the file store's and says when draining it is complete. `FailingInputs` holds the inputs on which the exact
conditions below fail.

**Presence** (`Presence`, `PresenceEffects`, `ConnectionManager`): sockets opening, closing, being evicted and kicked,
close listeners that run late, the grace timer, and what each operation does to whom. **Fan-out dedupe** (`Dedupe`,
`DedupeMap`): the scan-and-evict map against a queue and against the log of accepted events. **History**
(`Pagination`, `History`, `HistoryPaging`, `HistoryService`): listings, cursors, and what a client gets that follows
them. **Refresh rotation** (`RefreshSessions`, `SessionStore`): read and compare-and-set steps among revocations.
**Tokens** (`Base64Url`, `Jwt`). **Update guard** (`UpdateGuard`, `LeafWrites`, `PathTrees`, `WrittenPaths`). **Read
cursors** (`ReadCursor`, and `ReadRaces` for confirmations that interleave). `Text`, `Sorting` and `ChatId` hold what
they share.

Each imperative source file is modelled twice: as functions on values, on which runs and invariants are stated, and as a
class or methods with loops whose `ensures` tie the new state to those functions.

## Reading the model

- A clock value, a fresh message id, a fresh session id, a fresh hash, the answer of the socket layer and the answer of
  the room manager are parameters. Fresh ids are ids not used before.
- Each durable write is one atomic step. The file that `persist` writes is a field of the store; a crash keeps it.
- The empty string stands for an absent optional string.
- Message ids have one total order, code units compared left to right, where the source mixes `<` with `localeCompare`
  (`backend/storage/message.store.js:182` and `:190`).
- A session id determines its user.

## Where the code falls short of its own text

Each point is proved, with the exact condition where there is one.

- `backend/services/replay.service.js:7` says "exactly once". What holds is at most once
  (`Protocol.ReplayedAtMostOnce`). A replay settles a message with its first durable write and returns it only at the
  end, so a crash after the state write, after the tracking write, or with the message put out and the call not yet
  answered loses it: `Losses.AcknowledgedAndLost` runs an acknowledged message into each of the three. Every settled
  message is in exactly one of four places (`Accounts.SettledInOnePlace`), and a stored message with no send in flight
  and not waiting in a fetched page is never returned if and only if it is settled and was lost that way or confirmed by
  its recipient first (`Losses.NeverReturnedIff`); right after a crash that decides every stored message
  (`Losses.AfterCrashNeverReturnedIff`). The reconnect handler may also drop a finished replay.
- The comment on `validateTransition` (`backend/services/delivery.service.js:43`) omits PERSISTED to DELIVERED, which the
  table allows; the model follows the table.
- A send that a client repeats after a restart is never acknowledged although its message is stored
  (`ServiceRuns.ResendAcknowledgedIff`); `FailingInputs.AcknowledgedThenRefused` is such a run, and
  `FailingInputs.RetryAfterCrashRefused` says it of every stored keyed message.
- A drain is complete exactly when memory is not ahead of the database for a waiting message
  (`ReplayDrain.DrainCompleteIff`). Only the HTTP mark-read route puts it ahead (`ReplayDrain.RunNotAhead`), and it does
  (`FailingInputs.MarkedReadStillAwaits`).
- The Mongo page may be empty while messages wait (`MongoPage.MongoStallsIff`); draining it is complete exactly when no
  unsettled message stands directly behind as many settled ones as a page holds (`MongoPage.MongoDrainCompleteIff`).
  `FailingInputs.SettledPageStalls` has two rows and a page of one.
- Hydration indexes client ids of white space only; such a row can take a keyed row's entry
  (`MessageStore.HydrateIndexExactIff`, with `FailingInputs.RestartLosesEntry`), though not when sender ids have no
  colon. Deleting that row then takes the keyed row's entry along, which nothing else can do
  (`MessageStore.OnlySpacedTakes`, `MessageStore.TakenAfterRestartIff`), and a repeat of the keyed message is stored a
  second time, exactly then (`MessageStore.SecondRowIff`, with `FailingInputs.DeletionStoresTwice`).
- A token whose expiry is zero seconds never expires (`Jwt.ZeroExpiryNeverExpires`).
- The update guard compares the trimmed leaves of the documents, the operators write their keys as given. Read as a
  tree, a document is accepted exactly when no field of the tree overlaps another (`WrittenPaths.AcceptedIff`), and it is
  accepted although it writes a path twice, or one above another, exactly when besides that some such pair is hidden
  (`WrittenPaths.MissedConflictIff`). `WrittenPaths.HidesIff` says when a pair is: the upper path is blank or ends in
  white space, a written object has no leaf, or the upper path is given an object and the walk of the rest of the lower
  path through it misses. The walk is structural (`PathTrees.Overlap`): it goes down key by key and sees a conflict when
  it reaches a leaf or ends inside an object that has one; with plain keys a key that is absent ends it
  (`WrittenPaths.WalkDecides`). Inputs: `WrittenPaths.AbsentKeyUnseen` (`{a: {b}}` beside `a.c`),
  `LeafWrites.EmptyObjectUnseen`, `LeafWrites.TrailingSpaceUnseen`. Without objects and edge white space the guard is
  exact (`WrittenPaths.PlainGuardExact`).
- The unread count of a direct chat includes newer room rows of the other user (`ReadCursor.UnreadExactIff`);
  `FailingInputs.RoomRowCounted` shows one unread in a chat without messages.
- Interleaved confirmations can move a cursor back: a write does so exactly when the last write of that cursor came
  after its look and carries more (`ReadRaces.MovesBackIff`), and the cursor ends at the largest timestamp exactly when
  the last write carries it (`ReadRaces.FinalIsMaxIff`). A confirmation with no other write of its cursor between its
  look and its write never moves it back (`ReadRaces.UndisturbedMovesForward`), and when all are so the cursor ends at the
  largest timestamp (`ReadRaces.OneAtATimeEndsAtMax`).
- The dedupe map may hold one entry more than its bound, because pruning comes before adding: an accepted event leaves
  it so exactly when as many entries as the bound were live at pruning time (`Dedupe.OverBoundIff`), and a burst of
  different ids does it for every bound (`Dedupe.BoundExceeded`).
- Rotation does not look at the expiry of the hash: it accepts what verification refuses exactly when the hash has no
  expiry or is past it (`RefreshSessions.ExpiredStillRotatesIff`); `RefreshSessions.ExpiredHashRotates` is a run.

## Model

| member | source | states |
|---|---|---|
| MessageStore.PersistKeepsWellFormed | backend/storage/message.store.js:95-151 | an accepted persist keeps index entries on live rows and at most one row for each sender and non-blank client id |
| MessageStore.PersistExtends | backend/storage/message.store.js:95-151 | persisting changes no row and no delivery mark that was there |
| MessageStore.PersistAnswers | backend/storage/message.store.js:95-151 | a persist refuses exactly incomplete rows, answers a known id or a taken key with the stored row, and otherwise stores the row as given, last and unmarked |
| MessageStore.UpdateKeepsWellFormed | backend/storage/message.store.js:153-160 | a state write keeps the store's invariants |
| MessageStore.MarkKeepsWellFormed | backend/storage/message.store.js:167-171 | a delivery mark keeps the store's invariants |
| MessageStore.AwaitingListing | backend/storage/message.store.js:178-192 | the undelivered listing is strictly ascending by id and holds exactly the rows addressed to the user, above the cursor, unmarked and not delivered or read |
| MessageStore.HydrateRestores | backend/storage/message.store.js:41-88 | hydrating a saved store restores map order, rows and the tracking sets of stored messages |
| MessageStore.HydrateIndexExactIff | backend/storage/message.store.js:62-88 | after hydration every row with a non-blank client id has its own index entry if and only if no white-space row with the same key text follows it |
| MessageStore.NoShadowWithoutColons | backend/storage/message.store.js:62-88 | with colon-free sender ids no such row exists |
| MessageStore.HydrateKeepsWellFormed | backend/storage/message.store.js:62-88 | a restart keeps every store invariant |
| MessageStore.HydrateSameIntake | backend/storage/message.store.js:62-151 | with colon-free sender ids every persist request gets the same answer and leaves the same rows before and after a restart |
| MessageStore.OneEntryPerRow | backend/storage/message.store.js:276-288 | no row has two index entries, which is why deletion may stop at the first |
| MessageStore.DeleteRemoves | backend/storage/message.store.js:276-288 | a deleted row is in no map afterwards and every other row is as before |
| MessageStore.DeleteLeavesLive | backend/storage/message.store.js:276-288 | in every store deletion leaves each remaining index entry on a stored row that has its key |
| MessageStore.DeleteKeepsWellFormedIff | backend/storage/message.store.js:276-288 | deletion keeps the store's invariants if and only if it takes no other keyed row's entry along |
| MessageStore.OnlySpacedTakes | backend/storage/message.store.js:276-288 | only the deletion of a row with a white-space client id and the same key text can take another keyed row's entry along |
| MessageStore.TakenAfterRestartIff | backend/storage/message.store.js:62-88 | after a restart deleting a row takes a keyed row's entry along if and only if it is the last indexed row with that key text |
| MessageStore.SecondRowIff | backend/storage/message.store.js:95-151 | after a deletion a repeat of a keyed message is stored as a second row, breaking the uniqueness rule, if and only if the deletion took its entry along |
| MessageStore.DeleteKeepsWellFormed | backend/storage/message.store.js:276-288 | where every keyed row has its own entry, deletion keeps it so |
| FileStore.MessageFile.Hydrate | backend/storage/message.store.js:62-88 | the loop over the file rebuilds the three maps from nothing, ending at the hydration function |
| FileStore.MessageFile.PersistMessage | backend/storage/message.store.js:95-151 | validates, answers repeats with the stored row, else stores and indexes; invariants kept and file saved |
| FileStore.MessageFile.UpdateMessageState | backend/storage/message.store.js:153-160 | replaces the state of a stored row or reports it missing with nothing changed |
| FileStore.MessageFile.MarkMessageDelivered | backend/storage/message.store.js:167-171 | adds the user to the message's tracking set only |
| FileStore.MessageFile.GetUndelivered | backend/storage/message.store.js:178-192 | the loop, sort and slice return the undelivered page |
| FileStore.MessageFile.DropIndexEntry | backend/storage/message.store.js:276-288 | stopping at the first match removes every index entry of the id |
| FileStore.MessageFile.DeleteMessage | backend/storage/message.store.js:276-288 | removes row, tracking set and index entry and saves the file; the invariants hold after it if and only if no other keyed row's entry went along |
| FileStore.HydrateSaved | backend/storage/message.store.js:41-88 | at any time the file on disk hydrates to what saving now and hydrating would give |
| FileStore.HydrateWritten | backend/storage/message.store.js:41-88 | starting over any file a well-formed store saved gives a well-formed store that the file holds |
| FileStore.EmptyFileWritten | backend/storage/message.store.js:41-60 | so does starting over nothing |
| Delivery.ApplyMovesForward | backend/services/delivery.service.js:74-175 | no operation removes a delivery record or moves its state back |
| Delivery.EveryRun | backend/services/delivery.service.js:74-293 | in every run timers are armed for SENT records only, delivered counter plus uncounted forced reads equals the records in DELIVERED or READ, and persistedAt, sentAt, deliveredAt, readAt are in order wherever set |
| Delivery.TimeoutAtMostOnce | backend/services/delivery.service.js:118-212 | a delivery records ACK_TIMEOUT at most once and never after SOCKET_CLOSED |
| Delivery.FiringTimerFindsSent | backend/services/delivery.service.js:118-175 | a timer that fires finds its record SENT and records the timeout |
| Delivery.TransitionEffect | backend/services/delivery.service.js:118-175 | which transitions succeed, and what each changes: state, its one stamp, the timer exactly for SENT, the counter exactly for DELIVERED |
| Delivery.ForceReadEffect | backend/services/delivery.service.js:274-293 | READ from any state, earlier stamps kept, missing ones filled, timer gone, counter untouched |
| Delivery.DisconnectEffect | backend/services/delivery.service.js:201-212 | exactly the user's SENT deliveries get one more SOCKET_CLOSED and lose their timers |
| Delivery.TimerEffect | backend/services/delivery.service.js:154-163 | a fired timer is gone and a delivery still SENT gets one more ACK_TIMEOUT |
| Delivery.SentIsWatched | backend/services/delivery.service.js:118-212 | in every run a SENT delivery has its timer armed or the end of its wait on its log |
| DeliveryService.DeliveryStore.CreateDelivery | backend/services/delivery.service.js:74-92 | creates a PERSISTED record once |
| DeliveryService.DeliveryStore.TransitionState | backend/services/delivery.service.js:118-175 | validated transition with its stamp, timer and counter, or the matching refusal with nothing changed |
| DeliveryService.DeliveryStore.OnAckTimeout | backend/services/delivery.service.js:118-175 | the timer callback |
| DeliveryService.DeliveryStore.RecordFailuresForDisconnectedUser | backend/services/delivery.service.js:201-212 | the loop over all records clears the timer and logs SOCKET_CLOSED for exactly the user's SENT deliveries |
| DeliveryService.DeliveryStore.ForceMarkAsRead | backend/services/delivery.service.js:274-293 | the record becomes READ from any state, created if missing, and its timer goes |
| ChatId.DirectChatIdSymmetric | backend/utils/chatId.js:65-69 | the chat id is the same whichever way round the users are given |
| ChatId.ParseRecoversPair | backend/services/history.service.js:24-43 | parsing a direct chat id recovers the two users if and only if neither id contains a colon |
| ServiceRuns.SendKeeps | backend/services/message.service.js:83-234 | every send, duplicate or not, keeps the coupling, and an acknowledgement names a stored row |
| ServiceRuns.PersistKeeps | backend/services/message.service.js:149-234 | persisting an intake message stores its row before acknowledging it, or stores nothing and answers an error |
| ServiceRuns.ResendAcknowledgedIff | backend/services/message.service.js:83-234 | a send whose client id is already stored is acknowledged if and only if this process remembers the stored message, and refusal repeats |
| ServiceRuns.ConfirmDeliveredKeeps | backend/services/message.service.js:366-445 | a delivery confirmation keeps the coupling and moves durable state forward only |
| ServiceRuns.ConfirmReadKeeps | backend/services/message.service.js:478-567 | a read confirmation, forced or not, keeps the coupling and moves durable state forward only |
| ServiceRuns.ReplayKeeps | backend/services/replay.service.js:79-300 | a replay keeps the coupling and moves durable state forward only |
| ServiceRuns.CrashKeeps | backend/storage/message.store.js:62-88 | wiping memory and hydrating keeps the coupling and loses no row or mark |
| ServiceRuns.EveryRunGrows | backend/services/message.service.js:83-567 | along every run with crashes rows and marks stay, durable rank never falls, acknowledged ids stay acknowledged |
| ServiceRuns.DurableStateCoupled | backend/services/message.service.js:366-567 | in every run a row is delivered or read if and only if its recipient is tracked, and an existing delivery record is never behind the row |
| ServiceRuns.AcknowledgedIsStored | backend/services/message.service.js:149-234 | an acknowledged id has a stored row from then on, and no two rows share sender and non-blank client id |
| Answers.SendStores | backend/services/message.service.js:83-234 | a send memory does not know is acknowledged if and only if its client id has no stored row; then exactly one row is new and holds sender, receiver, content, client id and the acknowledged time, state Sent, with its delivery record |
| Answers.SendRefusals | backend/services/message.service.js:83-131 | an invalid request is refused with its code and changes nothing |
| Answers.SendRemembers | backend/services/message.service.js:83-234 | an acknowledged send leaves the message as accepted in memory, under its client id |
| Answers.RepeatsAcknowledged | backend/services/message.service.js:105-131 | until a crash every repeat of that client id, whatever else ran meanwhile, is acknowledged with the first send's id and time and changes nothing |
| Answers.RepeatAnswers | backend/services/message.service.js:105-234 | in every run a remembered repeat is acknowledged with the id, time and client id of the stored row |
| Answers.RoomRowStored | backend/services/message.service.js:243-310 | a room row is stored as given, marked as a room row, with a record exactly when one is asked for |
| Answers.ConfirmDeliveredAnswers | backend/services/message.service.js:366-445 | accepted if and only if by the stored recipient; then the row has the state the answer names and is marked; the first time the row moves to delivered and nothing else changes; a refusal changes nothing |
| Answers.ConfirmDeliveredRefusals | backend/services/message.service.js:366-400 | the exact condition of each refusal code |
| Answers.ConfirmReadAnswers | backend/services/message.service.js:478-567 | accepted if and only if by the recipient of a direct message that is delivered or read; then the row is read and marked and its record is at READ, made if missing; a refusal changes nothing |
| Answers.ConfirmReadRefusals | backend/services/message.service.js:478-525 | the exact condition of each refusal code |
| Answers.ConfirmedInMemory | backend/services/message.service.js:400-567 | the accepted message in memory moves along |
| Answers.AttemptAnswers | backend/websocket/services/message.service.js:98-190 | a marked message is left alone, no socket means one logged failure, a taken message moves its PERSISTED record, and only that, to SENT with stamp and timer |
| Answers.ReplayAnswers | backend/services/replay.service.js:79-300 | refused exactly without a user or with an unknown cursor; else every returned message is a stored one of the user that awaited above the cursor, with that row's sender, content, time, room ids and the user as recipient of direct messages; ids ascend, the last is the new cursor, each is then delivered and marked |
| Answers.ReplayAnswersAll | backend/services/replay.service.js:116-243 | of the first `limit` awaiting rows (100 by default) exactly those are returned that memory does not know as received |
| Answers.EveryRunAgrees | backend/services/message.service.js:83-567 | in every run what memory holds of an accepted message is what its row holds |
| Answers.SentStaysSent | backend/services/message.service.js:83-234 | the row of an acknowledged send holds what was sent after any continuation with crashes |
| Answers.ReplayReturnsWhatWasSent | backend/services/replay.service.js:79-300 | end to end: whatever a later replay returns under that id is what was sent, and only to its receiver |
| ReplayDrain.ReplayLoopIs | backend/services/replay.service.js:175-243 | the loop emits exactly the messages passing both guards at the start, marks them and touches no other |
| ReplayDrain.ListingAfterCall | backend/services/replay.service.js:116-243 | what awaits above the returned cursor is exactly the rest of the old listing |
| ReplayDrain.DrainEmitsAll | backend/services/replay.service.js:116-243 | with nothing blocked, repeating replay terminates and emits the whole ascending listing once, marking all of it, for any limit |
| ReplayDrain.DrainCompleteIff | backend/services/replay.service.js:175-243 | a drain leaves nothing above its starting cursor if and only if memory blocked no awaiting message |
| ReplayDrain.RunNotAhead | backend/services/message.service.js:366-567 | without the HTTP mark-read route memory never takes for received what the database does not |
| ReplayDrain.EveryRunDrains | backend/services/replay.service.js:116-243 | after every such run, crashes included, draining delivers everything that awaits |
| Protocol.StepKeeps | backend/services/replay.service.js:175-243 | every segment of every handler, in any interleaving, and every crash keep the protocol invariant |
| Protocol.ReplayedAtMostOnce | backend/services/replay.service.js:175-243 | over every interleaving and crash a pair of user and message is returned at most once, durably marked when returned and ever after |
| Protocol.NeverFetchedAgain | backend/storage/message.store.js:178-192 | a returned pair is in no later undelivered page |
| Protocol.AcknowledgedStaysStored | backend/services/message.service.js:149-234 | an acknowledgement returned in any interleaving implies a stored row from then on |
| Protocol.CrashBetweenWritesStrands | backend/services/replay.service.js:216-217 | a crash between the two replay writes leaves a delivered, unmarked row that no page lists |
| Protocol.UninterruptedReplay | backend/services/replay.service.js:79-300 | run without interruption the segments compute the complete replay operation |
| Protocol.UninterruptedConfirm | backend/services/message.service.js:366-567 | run without interruption the segments of a delivery or read confirmation compute the complete one |
| Protocol.UninterruptedSend | backend/services/message.service.js:83-234 | so do the segments of a send, with the same acknowledgement |
| Contents.MessagesNeverChange | backend/storage/message.store.js:95-160 | over every interleaving and crash a stored message changes in its state only |
| Contents.PutOutShowsStored | backend/services/replay.service.js:225-243 | in every such run each payload a replay has put out shows a stored message of its user, field by field |
| Contents.SendBeginStores | backend/services/message.service.js:83-190 | the first segment of a send that meets no earlier one stores the message as sent |
| Contents.PutOutIsWhatWasSent | backend/services/replay.service.js:175-243 | from then on what any replay puts out under that id is what was sent, to its receiver |
| Accounts.OverStays | backend/services/replay.service.js:175-243 | once settled with no send in flight and in no replay, a message stays so through every segment and crash and is not returned |
| Accounts.CarriedNotReturned | backend/services/replay.service.js:175-243 | what a replay has settled and not answered yet is in no returned result |
| Accounts.BalancedStep | backend/services/replay.service.js:175-243 | every segment and crash keeps the books: what is settled for its recipient is returned, confirmed, carried or lost |
| Accounts.EveryRunKeepsBooks | backend/services/replay.service.js:175-243 | the books balance along every run |
| Accounts.SettledInOnePlace | backend/services/replay.service.js:175-243 | in every run a stored message settled for its recipient is in exactly one of the four places, and no pair is ever in two |
| Losses.CarriedIsReturned | backend/services/replay.service.js:175-300 | a carried message is returned when its replay goes on uninterrupted |
| Losses.UnsettledIsReturned | backend/services/replay.service.js:79-300 | a stored message that is not settled is returned by a complete replay after a restart |
| Losses.NeverReturnedIff | backend/services/replay.service.js:79-300 | a stored message at rest is never returned, now or in any continuation, if and only if it is settled and was lost in a crash or confirmed |
| Losses.AfterCrashNeverReturnedIff | backend/services/replay.service.js:79-300 | right after any crash this condition decides every stored message |
| Losses.LostForever | backend/services/replay.service.js:213-243 | a message a crash took out of a replay's hands is returned in no continuation |
| Losses.AcknowledgedAndLost | backend/services/replay.service.js:213-243 | runs from the start that acknowledge a message and lose it after the first write, after the second, and before the answer |
| Backend.MessageBackend.AcceptIncomingMessage | backend/services/message.service.js:83-131 | validation, duplicate answer or new intake entry |
| Backend.MessageBackend.PersistAndReturnAck | backend/services/message.service.js:149-234 | durable write, record, state write and acknowledgement in the source's order |
| Backend.MessageBackend.ConfirmDeliveredAndReturnAck | backend/services/message.service.js:366-445 | checks in order, state write, mark, record, memory |
| Backend.MessageBackend.ConfirmReadAndReturnAck | backend/services/message.service.js:478-567 | checks in order, state write, mark, record or forced read, memory |
| Backend.MessageBackend.ReplayMessage | backend/services/replay.service.js:175-243 | one loop iteration: guards, writes, output |
| Backend.MessageBackend.AlignWithDb | backend/services/replay.service.js:158-170 | the loop keeps the stored messages with their durable states |
| Backend.MessageBackend.ReplayMessages | backend/services/replay.service.js:79-300 | the whole call: cursor check, page, loop, returned cursor |
| Backend.MessageBackend.AttemptDelivery | backend/websocket/services/message.service.js:98-190 | loads the message, skips what is delivered, and marks SENT or records the failure |
| Backend.MessageBackend.Restart | backend/storage/message.store.js:62-88 | blank memory over the maps rebuilt from the file |
| MongoPage.MongoPageIsPrefix | backend/storage/message.mongo.js:193-206 | for the same data and cursor and any limit from one up the Mongo page is a prefix of the file-store page |
| MongoPage.MongoStallsIff | backend/storage/message.mongo.js:193-206 | it is empty while messages await if and only if there is a limit, the first candidates up to it are all settled and a later one is not |
| MongoPage.MongoDrainCompleteIff | backend/storage/message.mongo.js:193-206 | asking again from the last id until a page is empty gives everything that awaits if and only if no unsettled candidate stands directly behind `limit` settled ones |
| FailingInputs.RetryAfterCrashRefused | backend/services/message.service.js:83-234 | after a restart the retry of any stored keyed message is refused |
| FailingInputs.AcknowledgedThenRefused | backend/services/message.service.js:83-234 | a run: sent, acknowledged, crashed, the retry refused |
| FailingInputs.MarkedReadStillAwaits | backend/services/replay.service.js:175-243 | a run: stored, marked read over HTTP, drained, still awaiting |
| FailingInputs.RestartLosesEntry | backend/storage/message.store.js:62-88 | two persisted rows whose index is exact before a restart and not after it |
| FailingInputs.DeletionStoresTwice | backend/storage/message.store.js:276-288 | two persisted rows, a restart, one deletion: the repeat of the other message is stored a second time |
| FailingInputs.SettledPageStalls | backend/storage/message.mongo.js:193-206 | a stored row awaits while the Mongo page and the whole Mongo drain are empty |
| FailingInputs.RoomRowCounted | backend/http/controllers/chat.controller.js:202-227 | one unread in a direct chat that has no message |
| Presence.StepKeeps | backend/websocket/connection/connectionManager.js:85-353 | every open, close, late close event, eviction, kick, removal, lazy cleanup and timer keeps the presence invariant |
| Presence.PresenceTracksSockets | backend/websocket/connection/lifecycle.js:28-101 | in every run a user with an open registered socket is online without a timer, and an online user without one has a timer or a waiting close listener |
| Presence.OfflineOnceUntilOnline | backend/websocket/connection/lifecycle.js:76-101 | between two OFFLINE notices of a user there is an ONLINE one, and the first is not OFFLINE |
| Presence.EvictKeeps | backend/websocket/connection/connectionManager.js:122-152 | eviction never takes the socket just attached, so the user keeps an open socket |
| Presence.CloseEventKeeps | backend/websocket/connection/connectionManager.js:188-238 | all close listeners of a socket together keep the invariant |
| Presence.RemoveKeeps | backend/websocket/connection/connectionManager.js:306-324 | kicking every socket of a user keeps the invariant |
| PresenceEffects.TimerEndsGrace | backend/websocket/connection/lifecycle.js:57-101 | a timer that fires is gone; without an open socket its user is offline, announced once if that is news; with one nothing else happens |
| PresenceEffects.FiringTimerEndsPresence | backend/websocket/connection/lifecycle.js:57-101 | in every run a pending timer finds no open socket and ends the presence |
| PresenceEffects.GraceEnds | backend/websocket/connection/connectionManager.js:188-282 | in every run an online user without open sockets goes offline, with one notice, by the timer, or by a waiting close event and then the timer |
| PresenceEffects.CloseEventEffect | backend/websocket/connection/connectionManager.js:188-282 | the socket is CLOSED, in no session and without listeners, timers are armed for exactly the users it leaves without an open socket, nobody is announced |
| PresenceEffects.RegisterEffect | backend/websocket/connection/connectionManager.js:85-173 | the socket is the newest of its session, over three the oldest is out and no longer open, the user is online, without timer, announced once, all else as before |
| PresenceEffects.RegisterRefused | backend/websocket/connection/connectionManager.js:85-120 | any other register call changes nothing |
| PresenceEffects.SessionsStayCapped | backend/websocket/state/sessionStore.js:94-135 | in every run a session has at most three sockets, all different |
| PresenceEffects.RemoveEffect | backend/websocket/connection/connectionManager.js:306-324 | no kicked socket is open, the user's emptied sessions are gone, the user is offline with one notice, other users are as before |
| PresenceEffects.RemoveSessionEffect | backend/websocket/connection/connectionManager.js:329-344 | the session is gone, its sockets are not open, and its user is offline exactly if nothing else is open |
| PresenceEffects.RemoveConnectionEffect | backend/websocket/connection/connectionManager.js:346-353 | one socket leaves its session and the user is offline at once exactly if it was the last open one |
| PresenceEffects.LazyCleanupEffect | backend/websocket/connection/connectionManager.js:287-304 | only a CLOSED socket is dropped and presence does not move |
| ConnectionManagers.ConnectionManager.GetSockets | backend/websocket/connection/connectionManager.js:372-379 | returns exactly the user's open registered sockets |
| ConnectionManagers.ConnectionManager.AttachSocket | backend/websocket/state/sessionStore.js:94-135 | over the cap the scan for the smallest attach time removes the longest-attached socket |
| ConnectionManagers.ConnectionManager.Register | backend/websocket/connection/connectionManager.js:85-173 | rejections in order, else attach, evict and announce |
| ConnectionManagers.ConnectionManager.CleanupSocket | backend/websocket/connection/connectionManager.js:240-282 | detaches the socket and ends presence now or after the grace when it was the last |
| ConnectionManagers.ConnectionManager.HandleClose | backend/websocket/connection/connectionManager.js:188-238 | runs every close listener once, in order |
| ConnectionManagers.ConnectionManager.Remove | backend/websocket/connection/connectionManager.js:306-324 | both loops: kick every listed socket, then drop the emptied sessions |
| ConnectionManagers.ConnectionManager.RemoveSession | backend/websocket/connection/connectionManager.js:329-344 | kicks the session's sockets and deletes it |
| ConnectionManagers.ConnectionManager.RemoveConnection | backend/websocket/connection/connectionManager.js:346-353 | forced cleanup of one socket, answering its user |
| ConnectionManagers.ConnectionManager.ConnectUser | backend/websocket/connection/lifecycle.js:28-49 | cancels the timer and announces online |
| ConnectionManagers.ConnectionManager.RequestDisconnectUser | backend/websocket/connection/lifecycle.js:57-69 | arms one timer at most |
| ConnectionManagers.ConnectionManager.DisconnectUser | backend/websocket/connection/lifecycle.js:76-101 | announces offline unless that is already so |
| ConnectionManagers.ConnectionManager.OfflineTimerFires | backend/websocket/connection/lifecycle.js:61-67 | goes offline only if no socket is open by then |
| Dedupe.PruneIsQueue | backend/services/redisBusHandlers.js:39-57 | on a map in expiry order the two scans drop the expired prefix and then the head down to the bound |
| Dedupe.RefusedIff | backend/services/redisBusHandlers.js:61-71 | an event is refused if and only if its id was accepted less than a TTL ago among the last max + 1 accepted |
| Dedupe.MapInExpiryOrder | backend/services/redisBusHandlers.js:39-71 | in every run with a non-decreasing clock the map is in expiry order and holds at most max + 1 entries |
| Dedupe.OverBoundIff | backend/services/redisBusHandlers.js:39-71 | in every run an accepted event leaves more than max entries if and only if at least max were live at pruning time; a refused one changes nothing |
| Dedupe.BoundExceeded | backend/services/redisBusHandlers.js:39-71 | for every bound and positive TTL a run that reaches max + 1 entries |
| Dedupe.AcceptedApart | backend/services/redisBusHandlers.js:160-168 | two accepted events with one id are a TTL apart or have more than max accepted ids, all different, between them |
| DedupeMaps.DedupeMap.DropExpiredEntries | backend/services/redisBusHandlers.js:39-43 | deleting while iterating keeps exactly the live entries in order |
| DedupeMaps.DedupeMap.OldestEntry | backend/services/redisBusHandlers.js:44-52 | the scan finds the first entry with the smallest expiry |
| DedupeMaps.DedupeMap.PruneDedupeMap | backend/services/redisBusHandlers.js:39-57 | both loops together prune the map |
| DedupeMaps.DedupeMap.IsDuplicate | backend/services/redisBusHandlers.js:61-66 | true exactly when the id has a live entry |
| DedupeMaps.DedupeMap.OnChatMessage | backend/services/redisBusHandlers.js:151-168 | self-origin events change nothing; others are checked and added in one piece |
| Pagination.Limit | backend/services/history.service.js:138-141 | a page size between 1 and 100, the requested one when it is in range, 50 without one, 100 above |
| Pagination.SoundIff | backend/services/history.service.js:176-191 | every row's cursor leads to the place below it if and only if the trimmed cursor matches that row and none above it |
| Pagination.CleanIdsSound | backend/services/history.service.js:176-191 | ids without edge white space, with an id equal to some room message id only on that row, make cursors work |
| Pagination.WalkRebuilds | backend/services/history.service.js:176-191 | following nextCursor terminates and yields exactly the rows below the starting cursor, no gap, no repeat |
| Pagination.PageDependsOnlyBelow | backend/services/history.service.js:176-191 | the page for a cursor is the same in any two lists with the same rows below the cursor row |
| Pagination.InsertsChangeNothing | backend/services/history.service.js:166-191 | lists that change above a held cursor between fetches neither skip nor repeat a row, page by page |
| History.DirectListingIs | backend/services/history.service.js:79-173 | a direct listing is newest first and holds each row between the two users once and no room row |
| History.BothSeeTheSame | backend/services/history.service.js:122-214 | both participants get identical pages for every cursor and limit |
| History.RoomListingIs | backend/storage/message.store.js:240-251 | a room listing is newest first with exactly one row per room message |
| History.DirectWalk | backend/services/history.service.js:122-214 | paging through a direct chat yields its whole listing |
| History.RoomWalk | backend/services/history.service.js:122-214 | paging through a room yields its whole listing when ids have no edge white space and an id that is a room message id belongs to that room message |
| History.RoomMessageKeepsOwned | backend/websocket/services/group.service.js:100-131 | storing a room message, canonical row and member rows or only part of them, keeps that condition |
| History.StoredWalks | backend/services/history.service.js:122-214 | for the rows of a well-formed store both participants have one direct listing and paging yields it, and the room's |
| History.RecipientWalk | backend/storage/message.store.js:253-274 | paging one recipient's log yields exactly what that recipient received, newest first |
| History.NewRowsAbove | backend/services/history.service.js:166-191 | newer rows of a direct chat stored between fetches change no page fetched with an older cursor |
| History.NewRoomRowsAbove | backend/services/history.service.js:166-191 | the same for a room: new room messages above the cursor row, and further rows of room messages already listed |
| History.NewReceivedAbove | backend/storage/message.store.js:253-274 | the same for a recipient's log |
| HistoryPaging.RoomHistory | backend/services/history.service.js:122-214 | a member who follows nextCursor through `getHistory` for a room, under its prefixed, raw or misspelt name, gets in full pages, newest first, exactly one row for each message of the room |
| HistoryPaging.DirectHistory | backend/services/history.service.js:122-214 | each user of a direct chat who does so gets all messages between the two and nothing else |
| HistoryPaging.ReceivedHistory | backend/storage/message.store.js:253-274 | paging a recipient's log gives everything received |
| HistoryPaging.RoomOutsiders | backend/services/history.service.js:51-71 | without membership, user or room name the page is empty |
| HistoryPaging.DirectOutsiders | backend/services/history.service.js:51-71 | who is not one of the two users gets the empty page |
| HistoryPaging.NamedRoom | backend/utils/chatId.js:20-60 | which chat ids stand for a room |
| HistoryPaging.NextCursorNames | backend/services/history.service.js:193-199 | a page has a cursor if and only if there is more, naming its last row, by room message id under the room prefix |
| HistoryService.GetMessagesForRecipientSync | backend/storage/message.store.js:217-226 | the loop collects the recipient's rows, then sorts them by time |
| HistoryService.GetMessagesByRoomIdSync | backend/storage/message.store.js:240-251 | the loop keeps the first row for each room message id |
| HistoryService.FindStart | backend/services/history.service.js:176-183 | the position below the first row matching the trimmed cursor, or the top |
| HistoryService.GetHistoryPage | backend/services/history.service.js:122-214 | ownership, queries, filter, sort, cursor and cut give the specified page |
| HistoryService.GetHistoryPaginatedSync | backend/storage/message.store.js:253-274 | the same for one recipient's log |
| RefreshSessions.SameHashIff | backend/auth/sessionStore.mongo.js:154-164 | between lower-case hexadecimal digests the byte comparison is equality |
| RefreshSessions.StepKeeps | backend/auth/sessionStore.mongo.js:115-201 | every read, write, store and revocation, in any order, keeps the chain invariant |
| RefreshSessions.RotationsChain | backend/auth/sessionStore.mongo.js:154-172 | each successful rotation consumed the hash introduced last for its session, with nothing between |
| RefreshSessions.ConsumedOnce | backend/auth/sessionStore.mongo.js:154-172 | no hash is consumed by two rotations |
| RefreshSessions.ConsumedIsGone | backend/auth/sessionStore.mongo.js:154-225 | a consumed hash is never held by a session again |
| RefreshSessions.FirstFinishWins | backend/auth/sessionStore.mongo.js:154-172 | of rotations that read the same hash the first to write succeeds and no other ever does |
| RefreshSessions.RevokedInFlightNeverSucceeds | backend/auth/sessionStore.mongo.js:179-201 | a rotation in flight when its session, or all its user's sessions, are revoked never succeeds |
| RefreshSessions.HashFindsOne | backend/auth/sessionStore.mongo.js:208-225 | at most one session holds a hash |
| RefreshSessions.ExpiredStillRotatesIff | backend/auth/sessionStore.mongo.js:130-172 | for all arguments: what verification accepts a rotation accepts, and of what a rotation accepts verification refuses exactly what has no expiry or is past it |
| RefreshSessions.ExpiredHashRotates | backend/auth/sessionStore.mongo.js:154-172 | a run from the start in which a hash past its expiry is refused by verification and rotated |
| RefreshSessions.IssuedHashVerifies | backend/auth/sessionStore.mongo.js:115-144 | a stored hash of an unrevoked session is the only digest that verifies, up to its expiry, and the only one that finds the session, before it |
| RefreshSessions.RotationSwitches | backend/auth/sessionStore.mongo.js:154-172 | a rotation goes through if and only if the unrevoked session holds the presented hash, and then only the new one verifies |
| RefreshSessions.RevokingEnds | backend/auth/sessionStore.mongo.js:179-201 | revoking ends exactly the one session, or exactly the user's unrevoked ones, and clears their hashes |
| RefreshSessions.EndedIsUseless | backend/auth/sessionStore.mongo.js:130-225 | a revoked session verifies nothing, rotates nothing and is not found |
| RefreshSessions.EndedForever | backend/auth/sessionStore.mongo.js:115-201 | once revoked a session stays so in every run |
| SessionStores.SessionStore.VerifyHash | backend/auth/sessionStore.mongo.js:130-144 | true exactly for the unrevoked session holding that hash before its expiry |
| SessionStores.SessionStore.BeginRotation | backend/auth/sessionStore.mongo.js:154-164 | the read half: what the rotation carries to its write, or none |
| SessionStores.SessionStore.FinishRotation | backend/auth/sessionStore.mongo.js:165-172 | the compare-and-set: writes only while the read hash is still held, and reports whether it did |
| SessionStores.SessionStore.RotateRefreshHash | backend/auth/sessionStore.mongo.js:154-172 | the read half and the write at once, for any strings; between lower-case digests it succeeds if and only if the unrevoked session holds the presented one, and then only that hash is replaced |
| SessionStores.SessionStore.RevokeSession | backend/auth/sessionStore.mongo.js:179-186 | ends the session and clears its hash |
| SessionStores.SessionStore.RevokeAllSessions | backend/auth/sessionStore.mongo.js:193-201 | ends exactly the user's unrevoked sessions and counts them |
| SessionStores.SessionStore.GetSessionIdByRefreshHash | backend/auth/sessionStore.mongo.js:208-225 | an unrevoked, unexpired session holding the hash, or none exists |
| Base64Url.RoundTrip | backend/utils/jwt.js:22-46 | decoding undoes encoding for byte strings of every length |
| Base64Url.EncodedText | backend/utils/jwt.js:22-28 | the text is URL-safe, unpadded and ceil(4n/3) characters long |
| Base64Url.EncodeInjective | backend/utils/jwt.js:22-28 | different bytes give different text |
| Jwt.VerifyUndoesSign | backend/utils/jwt.js:58-171 | verifying a signed token returns the payload with iat, exp and nbf exactly inside the window of validity, zero stamps counting as absent |
| Jwt.ValidUntilExpiry | backend/utils/jwt.js:58-171 | a token with a positive lifetime is accepted from signing on, up to exp * 1000 plus the tolerance |
| Jwt.ZeroExpiryNeverExpires | backend/utils/jwt.js:96-98 | an expiry of zero seconds never expires |
| Jwt.SignedParts | backend/utils/jwt.js:133-171 | a signed token splits into exactly three parts, the middle one decoding to the stamped payload |
| Jwt.AcceptedIsSigned | backend/utils/jwt.js:58-108 | an accepted token carries the digest of its own first two parts and an unexpired payload |
| Jwt.GoodTokenAccepted | backend/utils/jwt.js:58-108 | every token with a valid signature, a readable payload and a window around now is accepted |
| Jwt.NoUserNoToken | backend/utils/jwt.js:133-171 | signing fails if and only if the payload names no user |
| Jwt.SharedSignatureCollides | backend/utils/jwt.js:69-89 | two different accepted tokens with one signature exhibit two different inputs with equal digest |
| UpdateGuard.StringTestIsSegmentTest | backend/storage/user.mongo.js:463-476 | `startsWith(b + '.')` holds if and only if b's segments are a strict prefix of a's |
| UpdateGuard.WalkYieldsLeaves | backend/storage/user.mongo.js:405-423 | the tree walk yields exactly the root-to-leaf paths |
| UpdateGuard.CollectUpdatePathsByOperator | backend/storage/user.mongo.js:430-455 | collects every path with its operator, or names a path given twice and its two operators |
| UpdateGuard.AssertNoPrefixConflicts | backend/storage/user.mongo.js:463-476 | the pair loops accept only lists without ancestors and otherwise name a real pair |
| UpdateGuard.AssertNoConflictingUpdatePaths | backend/storage/user.mongo.js:484-489 | accepts if and only if all collected paths differ and none is an ancestor of another; a refusal names a real conflict |
| LeafWrites.WritesCommute | backend/storage/user.mongo.js:457-476 | writes at paths neither of which is a prefix of the other commute |
| LeafWrites.AcceptedWritesCommute | backend/storage/user.mongo.js:478-489 | the leaf writes of an accepted document give one result in every order, whatever the operators leave at the leaves or remove from them |
| LeafWrites.CleanIsRaw | backend/storage/user.mongo.js:443-452 | without white space at the ends of paths the guard compares what is written |
| LeafWrites.TrailingSpaceUnseen | backend/storage/user.mongo.js:443-452 | a document the guard accepts although one raw path is an ancestor of another |
| LeafWrites.EmptyObjectUnseen | backend/storage/user.mongo.js:405-423 | an empty object beside a write below it is accepted |
| WrittenPaths.CollectedIsFlatten | backend/storage/user.mongo.js:430-455 | what the guard collects is, operator by operator, the trimmed non-empty leaves of the written paths |
| WrittenPaths.AncestorSeenIff | backend/storage/user.mongo.js:443-476 | between two given paths the guard sees an ancestor if and only if that path does not end in white space |
| PathTrees.OverlapIff | backend/storage/user.mongo.js:405-423 | the structural comparison of two field trees finds an overlap if and only if a leaf name of one equals, or lies above or below, one of the other |
| PathTrees.NoneTwiceIff | backend/storage/user.mongo.js:405-476 | no field of a tree overlaps another if and only if all its leaf names differ and none is above another |
| PathTrees.PartsAtTop | backend/storage/user.mongo.js:405-455 | the trimmed, non-empty paths of the walk are the leaf names of the tree, edge white space and empty keys included |
| WrittenPaths.SeenIff | backend/storage/user.mongo.js:430-476 | the guard finds a conflict between two written paths if and only if their trees overlap |
| WrittenPaths.AcceptedIff | backend/storage/user.mongo.js:484-489 | a document is accepted if and only if no field of its tree overlaps another |
| WrittenPaths.HidesIff | backend/storage/user.mongo.js:405-476 | of two written paths, equal or one above the other, the guard sees nothing if and only if the upper is blank or ends in white space, an object has no leaf, or the walk through the upper path's object misses |
| WrittenPaths.MissedConflictIff | backend/storage/user.mongo.js:484-489 | any document is accepted with conflicting written paths if and only if no field of its tree overlaps another and some such pair is hidden |
| WrittenPaths.AcceptedFreeIff | backend/storage/user.mongo.js:484-489 | in an accepted document every conflicting pair shows one of the causes, so it is free of conflicts if and only if no pair shows one |
| WrittenPaths.WalkDecides | backend/storage/user.mongo.js:405-423 | with plain keys and a scalar below, the walk goes by single keys and ends where one is absent |
| WrittenPaths.AbsentKeyUnseen | backend/storage/user.mongo.js:405-423 | an accepted document that writes an object at `a` and a value at `a.c` |
| WrittenPaths.PlainGuardExact | backend/storage/user.mongo.js:484-489 | with trimmed non-empty paths and no object values the guard accepts if and only if the written paths differ and none is above another |
| ReadCursor.CursorIsMax | backend/services/message.service.js:456-476 | after any serial run of read confirmations each cursor stands at the largest timestamp confirmed for it |
| ReadCursor.MaxIsMax | backend/services/message.service.js:456-476 | no confirmation for the key exceeds that timestamp |
| ReadCursor.MaxIsConfirmed | backend/services/message.service.js:456-476 | and some confirmation reaches it |
| ReadCursor.CursorAtNewest | backend/services/message.service.js:456-476 | for users with plain ids the cursor of a direct chat exists if and only if the reader confirmed a direct message between the two, and is at the newest one |
| ReadCursor.CountsUnseen | backend/http/controllers/chat.controller.js:185-227 | the unread count is the number of received rows from the other user newer than all that was confirmed in the chat |
| ReadCursor.InterleavedWritesMoveBack | backend/services/message.service.js:464-468 | an older confirmation that looked before a newer one wrote moves the cursor back |
| ReadRaces.MovesBackIff | backend/services/message.service.js:456-476 | in any interleaving of looks and writes a write moves the cursor back if and only if the last write of that cursor came after its look and carries a larger timestamp |
| ReadRaces.FinalIsMaxIff | backend/services/message.service.js:456-476 | when no confirmation is under way the largest confirmed timestamp has been written, and the cursor stands at it if and only if the last write carries it |
| ReadRaces.UndisturbedMovesForward | backend/services/message.service.js:456-476 | a confirmation whose cursor nobody else wrote between its look and its write never moves it back |
| ReadRaces.OneAtATimeEndsAtMax | backend/services/message.service.js:456-476 | a run in which all confirmations of a cursor are like that ends at the largest confirmed timestamp |
| ReadRaces.UninterruptedConfirmation | backend/services/message.service.js:456-476 | a look and its write with nothing between are the serial confirmation |
| ReadRaces.OlderWriteMovesBack | backend/services/message.service.js:464-468 | two looks, the newer write, the older write: a run that moves the cursor back |
| ReadRaces.LargerWriteBetweenNotEnough | backend/services/message.service.js:464-468 | a run with a larger write between look and write that does not move the cursor back, because a smaller one followed it |
| ReadCursor.CountsFromMax | backend/http/controllers/chat.controller.js:185-215 | the count starts from the largest confirmed timestamp, or from zero |
| ReadCursor.GetUnreadCountWithCursor | backend/http/controllers/chat.controller.js:202-227 | the loop counts the other participant's rows newer than the cursor |
| ReadCursor.UnreadExactIff | backend/http/controllers/chat.controller.js:202-227 | the count equals the newer direct messages of the other user if and only if no newer room row of that user was received |
| ReadCursor.ReadCursorStore.Upsert | backend/chat/readCursorStore.mongo.js:53-69 | overwrites one cursor and no other |
| ReadCursor.ReadCursorStore.PersistReadCursorForDm | backend/services/message.service.js:456-476 | moves one cursor forward or nothing, never back |

## Left out

- Express, Mongo, Redis, ws, file system and environment code: I/O; each durable write is one step.
- JSON and HMAC: function parameters; JSON only has to read back what it wrote.
- UTF-8 in tokens: the JSON text is taken as bytes.
- Storage failures in the middle of an operation, except the crash points of `Protocol`.
- Two replays for the same user at once: a user has at most one replay in flight, as both could pass the guards.
- The reconnect handler's timeout, which can drop a finished replay.
- createDelivery runs as one segment with the await before it in `Protocol`.
- ServiceRuns.EveryRunGrows: the rank claim is for complete operations; a state write that raced another is not ranked in `Protocol`.
- Room fan-out, rollback and room delivery aggregation: room rows only pass through replay and pagination.
- Message edit and soft delete: soft delete overwrites the state.
- Sender notifications, metrics, diagnostics and admin buffers: they do not feed back.
- The index key of a delivery record is a pair of ids, where the source joins them with a colon.
- The constant `state` and `isReplay` fields of a replay payload; its `type` is `isRoom`.
- `localeCompare` collation: one order on ids throughout.
- `Trim` knows the ASCII white space characters only.
- Invalid and room-shaped fan-out events, which the handler drops before the dedupe check.
- ConnectionManagers.ConnectionManager.Register: does not model an existing session that belongs to another user.
- Heartbeats and the primary socket of a session: they do not touch presence; of `getSocket` only its lazy cleanup is a step.
- HTTP routes that write read cursors (`markChatRead`): they may move a cursor back.
- ReadCursor.UnreadExactIff: takes the received rows as given, as the caller fetches them.
- UpdateGuard.CollectUpdatePathsByOperator: arrays and dates count as scalars, so an array under `$unset` or `$rename` contributes no index keys.
- LeafWrites.AcceptedWritesCommute: a write computes what it leaves at a leaf, a value or nothing, from what was there; an object value is split into its leaf writes, and `$rename` is a removal and a write of a fixed value.
- Protocol.StepKeeps: the align loop, and attemptDelivery, run as one segment each although the source awaits in them.
- HistoryService.GetHistoryPage: delivery summaries and the API shape of the rows.
- `getSession` projections, user agents, IP addresses and `touchSession`.
- Dashboards, rate limits, validators, reports, OTP and origin checks: one-branch facts.
