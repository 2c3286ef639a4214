# Verified model of the chat platform's core

Dafny models of the parts of the platform whose correctness spans many functions and unbounded runs, with proofs
about every input, every run and every reachable state. `dafny verify dfyconfig.toml` checks the whole project.

- **Conversations, messages, event log.** `ChatModel` holds the tables and plans each operation's writes; a call is
  refused, rolled back as a whole, or committed as a whole. `ChatServices.ChatService` is the service as it runs,
  updating the tables in place; each method is proved to end in exactly the planned tables and answer. `CallEffects`
  says what each call does to the rows and the log without the plans, `MessageAuthors` and `ConversationCreation` who may
  post and that a visitor has one open conversation. `EventLog`, `PastViews`, `TornViews` and `ChatHistory` prove what
  every sequence of calls keeps, `UnlockedCreate` what is left of it when creating a message is not atomic.
- **Outbox dispatch.** `OutboxProtocol` is a step relation for any number of workers that claim, publish, mark, crash
  and have stale claims taken away. `OutboxSafety`, `PublishedRows` and `OutboxOrder` prove safety and order over its runs,
  `OutboxEffects` what each action does to the rows and that a retry waits its time out,
  `OutboxDispatchers.OutboxTable` is the dispatcher's round and the row updates as loops, `RetryDelays` the back-off in
  64-bit arithmetic.
- **Create lock and auto-close timers.** `CreateLock` interleaves clients of the Redis lease; `AutoClose` interleaves
  calls, post-commit hooks, timers and due callbacks, and `AutoCloseSchedulers` is the timer map and its start-up scan.
- **Reconnect and the widget.** `Replay` and `Reconnect` cover the paged replay and its race with broadcasts, `Hubs` the
  broadcasting; `Widget`, `WidgetList`, `WidgetEffects`, `WidgetLog`, `PaddedIds` and `WidgetClient` the visitor's message
  list, from single handlers up to "the screen shows the table".
- **Rate limiter and chunker.** `RateLimit` and `Limiters`; `NormalText`, `Words`, `Keywords`, `ChunkIds`, `Chunker`,
  `ChunkOutput`, `ChunkMerging` and `CollidingChunks`.

## Modelling decisions

- One committed transaction is one atomic step of `ChatModel`. `CreateMessage` reads the conversation without a row lock
  (services/chat-service/internal/service/chat_service.go:318), so other calls can commit between its read and its
  insert. `UnlockedCreate` therefore splits it in two steps, with the duplicate-key branch
  (services/chat-service/internal/service/chat_service.go:373-385), and proves which results survive and which does not.
- The outbox is enabled. Ids follow commit order in the log; the reconnect model lets messages commit in any id order.
- Times are natural numbers on one clock. Roles, actor types and sender types arrive parsed, with a value for "not
  recognised"; an agent sender's id arrives parsed or missing. A transfer notice's rendered text and its time-based
  client id are inputs. Validation errors share one error value.
- `fault` inputs say where storage fails; transport answers, socket states and counter replies are inputs too.
- A chunk's id is a SHA-1 based hash of its joined fields; the model keeps the joined text as the id, so hash collisions
  of different texts are outside it and collisions of the joined text are in it.
- Clock zero for the rate limiter's buckets is the instant Go's time truncation aligns to.

## Properties the code does not have

Each has a witness and an exact condition.

- "A subscriber's view is always an earlier server state" fails between the two rows that one visitor receipt writes
  for agent and assistant messages (`SplitReceiptTears`); `LogTellsPastStates` says it fails nowhere else.
- "The retry delay never overflows when base <= max <= 2^62" fails for base = max = 2^62 (`SafeDelays`);
  `DelayIsCappedExponential` gives the condition.
- "Published is final" fails when a worker that outlived its lease writes a failure (`StalledWorkerUnpublishes`). A step
  undoes a published row if and only if it writes a failure on it (`PublishedLeavesByFailure`); in every run that comes
  only after a sweep took that row from a worker still holding it (`UnpublishingFollowsARobbery`), and a row never so
  taken stays published (`PublishedIsFinal`). The worker that undoes it need not be the robbed one
  (`BystanderUnpublishes`).
- "One open conversation per visitor" fails when an insert comes after its lease (`LateInsertDuplicates`);
  `OnlyExpiredInsertsDuplicate` says exactly which step first breaks it.
- "No message is added after closing" fails when a close commits between a create call's read and its insert
  (`MessageAfterClose`); `OnlyLateInsertsAdd` says exactly when, and `QuietClosesAreFinal` that a close with no such call
  waiting is final.
- "The widget shows the table" fails when two stored client ids differ only in surrounding white space as JavaScript
  trims it, which the server keeps (`PaddedIdsCollide`); `WidgetShowsTheTable` is an equivalence.
- "Every paragraph appears in some chunk" fails because keywords and lines of text are joined by the same separator before
  they are hashed: a fact whose first line is another fact's last keyword gets that fact's id and is dropped
  (`SizeTablesCollide`, and for all such words `CollidingFactIsLost`). `DraftedIdsMeet` says exactly which chunks share an
  id and `NoTextIsLost` exactly when no text is lost: when no chunk is longer than the first one with its id.

## Model

| member | source | states |
|---|---|---|
| EventLog.LogRebuildsTables | services/chat-service/internal/service/chat_service.go:302-473 | after any sequence of calls, including refused and rolled-back ones, folding a conversation's outbox rows in id order gives exactly the stored messages with their statuses and the open/closed state, however large the reported last-read id is |
| EventLog.CommitRebuilds | services/chat-service/internal/service/chat_service.go:191-209 | a committed transaction of legal writes keeps the log and the tables in agreement for every conversation |
| EventLog.WriteRebuilds | services/chat-service/internal/service/chat_service.go:907-994 | each single write and the event emitted with it move the folded view and the tables to the same new state |
| EventLog.PlansAreLegal | services/chat-service/internal/service/chat_service.go:302-905 | every operation writes only to conversations that are open (read receipts excepted), never twice for one client id, and emits a receipt only when it marks at least one row |
| EventLog.MarkRowsFiltered | services/chat-service/internal/repository/repository.go:354-366 | the UPDATE over the whole message table is, seen from one conversation, the fold's marking there and nothing elsewhere |
| EventLog.MarkingKeepsOthers | services/chat-service/internal/repository/repository.go:354-366 | marking one sender's rows changes no unread count of another sender or another conversation |
| PastViews.EveryEventAdvances | services/chat-service/internal/service/chat_service.go:907-994 | every event of a conversation strictly increases the number of messages, reads and closes in the folded view, so no two prefixes of the log look alike |
| PastViews.CallAppends | services/chat-service/internal/service/chat_service.go:302-905 | one call appends to a conversation's log nothing, one event, or the agent and assistant halves of one visitor receipt |
| PastViews.LogGrows | services/chat-service/internal/service/chat_service.go:996-1023 | later logs extend earlier ones |
| PastViews.PrefixShowsPastState | services/chat-service/internal/service/chat_service.go:191-209 | a prefix of the log folds to a state the server was in if and only if it ends where some call's commit ended |
| PastViews.OnlySplitReceiptsTear | services/chat-service/internal/service/chat_service.go:411-473 | a prefix that ends inside a commit stops between the two halves of a visitor receipt |
| PastViews.SplitReceiptTears | services/chat-service/internal/service/chat_service.go:432-462 | a concrete run whose log has a prefix that shows a state the server was never in |
| TornViews.ReceiptIsComplete | services/chat-service/internal/service/chat_service.go:432-462 | whenever a conversation's log ends with an agent receipt, no assistant message at or below its bound is unread |
| TornViews.TornIsInside | services/chat-service/internal/service/chat_service.go:432-462 | an agent receipt directly followed by the assistant receipt with the same bound always comes from one single call |
| TornViews.LogTellsPastStates | services/chat-service/internal/service/chat_service.go:411-473 | the exact condition, readable off the log: the view after k events is a past server state if and only if events k-1 and k are not the two halves of a split receipt |
| ChatHistory.CloseIsAnnouncedOnce | services/chat-service/internal/service/chat_service.go:843-905 | in every reachable state the log holds one conversation.closed row if the conversation is closed and none otherwise, and closed_at is set exactly when it is closed |
| ChatHistory.ClosedIsFinal | services/chat-service/internal/service/chat_service.go:491-590 | from the moment a conversation is closed its row never changes again and its messages gain no row, only read marks |
| ChatHistory.EachMessageStoredAndAnnouncedOnce | services/chat-service/internal/service/chat_service.go:317-395 | at most one row per (conversation, client id), ids ascend, and the message.new rows of the log are the message table, row for row, each announced once as first stored |
| ChatHistory.RetriesGetTheSameId | services/chat-service/internal/service/chat_service.go:353-395 | two successful create calls with the same conversation and client id, anywhere in a run, answer with the same message id |
| ChatHistory.HistoryExtends | services/chat-service/internal/repository/repository.go:267-366 | the message table only grows, and a stored row changes in its status alone |
| ChatHistory.RowChanges | services/chat-service/internal/repository/repository.go:199-253 | a conversation row changes only by the mutation of a call on that conversation, and to exactly the row that mutation returns |
| ChatHistory.HandoffIsConsistent | services/chat-service/internal/service/chat_service.go:592-905 | in every reachable state the three pending-transfer fields are all set or all empty; when set, the conversation has an owner, pending-from is that owner and pending-to is somebody else (a timeout close keeps them set) |
| ChatHistory.OwnedStaysOwned | services/chat-service/internal/service/chat_service.go:592-625 | a conversation that has an owner never becomes ownerless |
| ChatHistory.RequestIsOnRecord | services/chat-service/internal/service/chat_service.go:627-703 | an open request from a to b goes back to one transfer call by which it was opened, and has been open after every call since |
| ChatHistory.OwnerChangesByConfirmedRequest | services/chat-service/internal/service/chat_service.go:705-767 | the owner changes from a to b only by a confirmation, by b or an admin, of a request from a to b that was never rejected, replaced or closed in between |
| CallEffects.FailuresChangeNothing | services/chat-service/internal/service/chat_service.go:191-209 | a call that answers an error leaves all three tables as they were |
| CallEffects.FaultsFail | services/chat-service/internal/service/chat_service.go:191-209 | a call whose transaction storage fails answers an error and leaves the tables as they were |
| CallEffects.TransferCallsAreValidated | services/chat-service/internal/service/chat_service.go:627-841 | transfer, confirm and reject refuse a missing conversation id, actor or target, and an unknown role as invalid, and an unknown conversation as not found |
| CallEffects.ConfirmHandsOver | services/chat-service/internal/service/chat_service.go:705-767 | a confirmation by the requested agent or a supervisor makes the requested agent the owner, empties the three pending fields, keeps every other field and row and adds exactly one system message; without a request or for anybody else it is refused |
| CallEffects.RejectKeepsOwner | services/chat-service/internal/service/chat_service.go:769-841 | a rejection by the same agents empties the pending fields, keeps the owner and every other field and row and adds exactly one system message; otherwise it is refused |
| CallEffects.TransferOpensRequest | services/chat-service/internal/service/chat_service.go:627-703 | a transfer by the owner or a supervisor records a request from the owner to the target at that time, keeps the owner and every other row and adds exactly one system message; repeating the standing request or asking for the owner changes nothing; everything else is refused |
| CallEffects.ClaimTakesUnowned | services/chat-service/internal/service/chat_service.go:592-625 | a claim makes the caller the owner of an unowned open conversation and empties the pending fields; the owner's second claim changes nothing and another agent's is refused |
| CallEffects.CloseNamesActor | services/chat-service/internal/service/chat_service.go:843-905 | a close by the owner or a supervisor closes the row at that time in the actor's name, clears a request, keeps everything else and is announced by one event; closing again changes nothing and others are refused |
| CallEffects.TimeoutNamesOwner | services/chat-service/internal/service/auto_close_scheduler.go:188-249 | a timeout closes exactly an open conversation whose newest non-system message is an agent's from no later than the cutoff, in the owner's name, keeps a pending request and adds one event |
| CallEffects.MessagesArePosted | services/chat-service/internal/service/chat_service.go:302-409 | a message is refused with the first reason that applies, answered with the stored row of its client id, or stored as it was sent under a fresh id together with its event |
| CallEffects.ReportMarksOtherSide | services/chat-service/internal/service/chat_service.go:411-473 | after a successful report a row is read if and only if it was read before or is in the conversation, at or below the bound and from the other side; nothing else changes, and the answered number is the number of rows whose status changed |
| CallEffects.ReportIsAnnounced | services/chat-service/internal/service/chat_service.go:432-462 | a report adds one receipt per sender of the other side that had an unread row at or below the bound, the agent's before the assistant's |
| CallEffects.CreateAnswersOpenRow | services/chat-service/internal/service/chat_service.go:212-260 | creating a conversation answers the trimmed visitor's open row with the greatest id, and adds a row, unowned and without a request, if and only if the visitor had none open |
| MessageAuthors.CallPosts | services/chat-service/internal/service/chat_service.go:302-395 | a call adds at most one message, and that message is the one it was asked to post or its transfer notice |
| MessageAuthors.EveryMessageWasPosted | services/chat-service/internal/service/chat_service.go:302-395 | in every run each stored message goes back to one call that posted it, and only its status has changed since |
| MessageAuthors.PostersAreEntitled | services/chat-service/internal/service/chat_service.go:317-352 | in every run a message was posted into a conversation open then, with non-blank content of at most 2000 characters unless it is a notice; a visitor's came with the conversation's own token and an agent's from the owner of that moment |
| ConversationCreation.CallsKeepOneOpen | services/chat-service/internal/service/chat_service.go:212-260 | over every sequence of calls a visitor has at most one open conversation |
| ConversationCreation.OnlyCreatingAddsRows | services/chat-service/internal/repository/repository.go:134-138 | no other call adds a conversation |
| ConversationCreation.CallKeepsVisitor | services/chat-service/internal/repository/repository.go:199-253 | a conversation keeps its site and visitor for good and is never opened again |
| ConversationCreation.LookThenInsertIsCall | services/chat-service/internal/service/chat_service.go:238-259 | a lock holder's look followed by its insert, or by leaving, with nothing in between changes the conversations as the call does |
| UnlockedCreate.RacesKeepTheLog | services/chat-service/internal/service/chat_service.go:317-395 | under any interleaving of unlocked reads, inserts and other calls the log still rebuilds the tables, a client id has at most one row and one message.new event, ids ascend and a close is announced exactly once |
| UnlockedCreate.RacingRetriesGetTheSameId | services/chat-service/internal/service/chat_service.go:353-395 | under any interleaving, and through the duplicate-key branch, all successful create calls with one conversation and client id answer the same message id |
| UnlockedCreate.AnswersAreStored | services/chat-service/internal/service/chat_service.go:373-390 | whatever a create call answers is a row of the table with its conversation and client id |
| UnlockedCreate.CheckThenInsertIsCall | services/chat-service/internal/service/chat_service.go:317-395 | a read and an insert with nothing in between change the tables and answer as the atomic call does |
| UnlockedCreate.OnlyLateInsertsAdd | services/chat-service/internal/service/chat_service.go:326-328 | a closed conversation gains a message if and only if a call that read it while open inserts now, without a duplicate or a fault |
| UnlockedCreate.QuietClosesAreFinal | services/chat-service/internal/service/chat_service.go:326-328 | once closed with no call waiting to insert, a conversation gains no message in the rest of the run |
| UnlockedCreate.MessageAfterClose | services/chat-service/internal/service/chat_service.go:317-395 | a concrete run that stores and announces a message after the close |
| UnlockedCreate.InsertKeeps | services/chat-service/internal/service/chat_service.go:373-390 | an insert, whether it succeeds, hits the unique index or fails, keeps log and tables in agreement |
| ChatModel.FindByClientId | services/chat-service/internal/repository/repository.go:288-301 | finds a row of the conversation with that client id, and answers nothing only if there is none |
| ChatModel.LatestOpen | services/chat-service/internal/repository/repository.go:153-167 | the visitor's open conversation with the greatest id, or nothing only if all are closed |
| ChatServices.ChatService.CreateConversation | services/chat-service/internal/service/chat_service.go:212-260 | trims and validates, answers the latest open conversation or inserts one; new tables and answer are those of the planned transaction |
| ChatServices.ChatService.CreateMessage | services/chat-service/internal/service/chat_service.go:302-409 | every validation, permission and duplicate branch; on success message row and event are stored together, on a storage fault neither is |
| ChatServices.ChatService.MarkMessagesRead | services/chat-service/internal/service/chat_service.go:411-473 | marks the other side's rows sender by sender, emits a receipt per sender that had rows to mark, answers the number of rows, rolls everything back on a fault |
| ChatServices.ChatService.MarkReadBySender | services/chat-service/internal/repository/repository.go:354-366 | the row loop equals the set-oriented UPDATE and counts the rows it changed |
| ChatServices.ChatService.GetByClientMsgId | services/chat-service/internal/repository/repository.go:288-301 | the scan finds what the query specifies |
| ChatServices.ChatService.GetLatestExcludingSystem | services/chat-service/internal/repository/repository.go:319-333 | the backwards scan finds the newest message that is not a system notice |
| ChatServices.ChatService.ClaimConversation | services/chat-service/internal/service/chat_service.go:592-625 | claims an unowned open conversation, is idempotent for its owner, refuses otherwise |
| ChatServices.ChatService.TransferConversation | services/chat-service/internal/service/chat_service.go:627-703 | opens a transfer request with its system message in one commit, with every refusal in the source's order |
| ChatServices.ChatService.ConfirmTransferConversation | services/chat-service/internal/service/chat_service.go:705-767 | hands the conversation to the requested agent and clears the request in one commit with its notice |
| ChatServices.ChatService.RejectTransferConversation | services/chat-service/internal/service/chat_service.go:769-841 | clears the request and keeps the owner in one commit with its notice |
| ChatServices.ChatService.SaveAndNotify | services/chat-service/internal/service/chat_service.go:1025-1048 | row and system message are committed together or not at all; a taken client id fails the transaction |
| ChatServices.ChatService.CloseConversation | services/chat-service/internal/service/chat_service.go:843-905 | closes once with its event, idempotent on a closed conversation, refused to agents who do not own it |
| ChatServices.ChatService.AutoCloseConversation | services/chat-service/internal/service/auto_close_scheduler.go:188-249 | closes exactly an open conversation whose newest non-system message is an agent's from no later than the cutoff, leaving pending-transfer fields alone |
| ChatServices.ChatService.AutoCloseInactiveConversations | services/chat-service/internal/service/chat_service.go:491-590 | checks each conversation open at the start, newest first, and runs one closing transaction for exactly the idle ones in that order, stopping at the first failing check or transaction; the count is the number of conversations closed, each with its event |
| IdleBatch.BatchLeavesNoneIdle | services/chat-service/internal/service/chat_service.go:491-590 | after a batch that went through, a conversation that was open is still open if and only if it is not idle |
| ChatServices.ChatService.Abort | services/chat-service/internal/repository/repository.go:102-109 | a rolled-back transaction restores all three tables and only uses up auto-increment values |
| OutboxSafety.NoRowIsLost | services/chat-service/internal/repository/repository.go:386-529 | in every run, with crashes, failed writes, sweeps and dead replays at any point and no timing assumption: a row is processing exactly when processing_at is set, published only if the transport accepted it, attempts equals its number of claims, dead implies attempts >= MaxAttempts |
| OutboxSafety.StaleClaimsComeBack | services/chat-service/internal/repository/repository.go:512-529 | every processing row is found and made pending by the next sweep after its timeout |
| OutboxSafety.OnlyRobbingBreaksClaims | services/chat-service/internal/repository/repository.go:439-485 | from a state where every held item is its row's current claim and no row is held twice, an action keeps this if and only if it is not a sweep that takes a row from a worker still holding it |
| OutboxSafety.FairRunsAreExclusive | services/chat-service/internal/repository/repository.go:386-437 | in a run without such sweeps no row is ever held by two workers and every Mark hits a row still in processing under that worker's own claim |
| OutboxSafety.OnlyRobbingBreaksRow | services/chat-service/internal/repository/repository.go:439-485 | the same for a single row, whatever happens to the others: an action keeps its claims exclusive if and only if it is not a sweep that takes that row from a holder |
| PublishedRows.PublishedLeavesByFailure | services/chat-service/internal/repository/repository.go:439-485 | a published row stops being published by an action if and only if that action writes a failed publish on it; no claim, sweep, replay or success does it |
| PublishedRows.UnpublishingFollowsARobbery | services/chat-service/internal/repository/repository.go:512-529 | in every run, with no timing assumption, a row stops being published only by a written failure and only after an earlier sweep took that row from a worker still holding it |
| PublishedRows.UnrobbedRowIsExclusive | services/chat-service/internal/repository/repository.go:386-437 | a row that no sweep took from a holder is held at most once, by its current claim, whatever happened to other rows |
| PublishedRows.PublishedIsFinal | services/chat-service/internal/repository/repository.go:439-453 | such a row never changes again once it is published |
| PublishedRows.FairRunsRobNoRow | services/chat-service/internal/service/outbox_dispatcher.go:194-198 | in a run without robbing sweeps this holds of every row |
| PublishedRows.BystanderUnpublishes | services/chat-service/internal/repository/repository.go:455-469 | a concrete run in which the worker that undoes a published row was itself never robbed: a robbed worker put the row back under it |
| OutboxSafety.DeliveryEffortIsBounded | services/chat-service/internal/service/outbox_dispatcher.go:208-256 | in such a run a row's claims equal its attempts and never exceed MaxAttempts plus its requeues and dead replays, and a row still pending has a claim left |
| OutboxSafety.LeasedRunsAreFair | services/chat-service/internal/service/outbox_dispatcher.go:194-198 | workers that finish with each item or die within ProcessingTimeout of its claim are never robbed |
| OutboxSafety.SoloRunsAreFair | services/chat-service/internal/service/outbox_dispatcher.go:119-135 | a single dispatcher, which sweeps only between batches, never robs itself |
| PublishedRows.StalledWorkerUnpublishes | services/chat-service/internal/repository/repository.go:455-469 | a concrete run in which a worker that outlives its lease turns a published row back into a pending or dead one |
| OutboxOrder.CallsFollowTheLog | services/chat-service/internal/service/outbox_dispatcher.go:188-257 | with one dispatcher and no failure the transport calls are always a prefix of the log in id order |
| OutboxOrder.SubscriberSeesThePast | services/chat-service/internal/service/outbox_dispatcher.go:119-135 | in such a run a subscriber that folds what was delivered for a conversation has the view of an earlier server state if and only if delivery does not currently stand between the halves of a split receipt |
| OutboxDispatchers.OutboxTable.FetchPendingForUpdate | services/chat-service/internal/repository/repository.go:386-437 | claims exactly the eligible rows with the lowest ids up to the limit (default 100), stamps them and bumps their attempts, and hands over items that say the same |
| OutboxDispatchers.OutboxTable.RequeueStaleProcessing | services/chat-service/internal/repository/repository.go:512-529 | makes pending exactly the processing rows claimed at or before the bound |
| OutboxDispatchers.OutboxTable.ReplayDead | services/chat-service/internal/repository/repository.go:487-510 | revives exactly the dead rows with the lowest ids up to the limit (default 100) and answers how many |
| OutboxDispatchers.OutboxTable.WriteOutcome | services/chat-service/internal/repository/repository.go:439-485 | published, retried with back-off, or dead, decided on the item's verdict and attempts and written by row id alone |
| OutboxDispatchers.OutboxTable.DispatchOnce | services/chat-service/internal/service/outbox_dispatcher.go:188-257 | a round is, action for action and with time passing in between, a sweep, the claim of the first eligible rows and a publish and a mark per item in order, whatever transport and database answer; a failed sweep is skipped and a failed fetch ends the round |
| RetryDelays.ComputeRetryDelay | services/chat-service/internal/service/outbox_dispatcher.go:259-274 | the doubling loop in wrapping 64-bit arithmetic equals its recursive form |
| RetryDelays.DelayIsCappedExponential | services/chat-service/internal/service/outbox_dispatcher.go:259-274 | the delay is min(base * 2^(n-1), max) for every n if and only if every doubling the loop can reach fits in 64 bits |
| RetryDelays.SafeDelays | services/chat-service/internal/service/outbox_dispatcher.go:259-274 | with max <= 2^62 every base below 2^62 is safe, and base = 2^62 makes the second delay negative |
| RetryDelays.OverflowGoesNegative | services/chat-service/internal/service/outbox_dispatcher.go:263-269 | a doubling that does not fit yields a negative delay |
| RetryDelays.DelaysGrow | services/chat-service/internal/service/outbox_dispatcher.go:259-274 | the computed 64-bit delays are never negative, never exceed the maximum and never shrink with the attempt number if and only if every doubling the loop can reach fits |
| OutboxEffects.MarkDecides | services/chat-service/internal/service/outbox_dispatcher.go:208-257 | a written mark publishes an accepted row at that time, gives up one that failed at its last allowed attempt and lets any other wait exactly min(base * 2^(attempts-1), max); an unwritten mark changes no row and no mark changes another row |
| OutboxEffects.BackOffHolds | services/chat-service/internal/service/outbox_dispatcher.go:220-233 | in every run a row whose attempt k failed is not claimed again before min(base * 2^(k-1), max) has passed, unless a sweep takes it from a holder |
| OutboxEffects.NoEarlyClaim | services/chat-service/internal/repository/repository.go:386-437 | in every run in which no sweep took the row from a holder, nobody claims a waiting row before its time |
| OutboxEffects.WaitEnds | services/chat-service/internal/repository/repository.go:386-529 | a waiting row stops waiting only by a claim that is not early or by a mark of a worker still holding it |
| OutboxEffects.ClaimTakes | services/chat-service/internal/repository/repository.go:386-437 | a claim takes pending rows whose time has come, stamps them, counts the attempt and hands over items that know the counted attempts; no other row changes |
| OutboxEffects.DueRowsAreTaken | services/chat-service/internal/repository/repository.go:386-437 | a claim leaves out a pending row whose time has come only if the batch is full of rows with lower ids |
| OutboxEffects.SweepReturns | services/chat-service/internal/repository/repository.go:512-529 | a sweep makes exactly the rows claimed at or before its bound pending again, to be tried at once, keeping their attempts |
| OutboxEffects.ReplayRevivesLowest | services/chat-service/internal/repository/repository.go:487-510 | a replay revives dead rows only, never one before a dead row with a lower id, and exactly min(dead rows, limit) of them |
| CreateLock.LeasesExclude | services/chat-service/internal/locker/redis_conversation_locker.go:41-90 | over all interleavings with crashes and expiry, two clients never hold unexpired leases on one key |
| CreateLock.CompareAndDelete | services/chat-service/internal/locker/redis_conversation_locker.go:14-19 | deletes the key exactly when it carries the caller's token and touches nothing else |
| CreateLock.ReleaseSparesOthers | services/chat-service/internal/locker/redis_conversation_locker.go:80-89 | a release, however late, never removes a lease another client holds |
| CreateLock.ReleaseFrees | services/chat-service/internal/locker/redis_conversation_locker.go:80-89 | releasing an unexpired lease frees its key |
| CreateLock.LeasesRunOut | services/chat-service/internal/locker/redis_conversation_locker.go:41-90 | in every reachable state any key is free again one TTL later, even if every holder has died |
| CreateLock.OneOpenPerVisitor | services/chat-service/internal/service/chat_service.go:212-260 | if no insert comes after its client's lease has run out, no reachable state has two open conversations for one (site, visitor) |
| CreateLock.OnlyExpiredInsertsDuplicate | services/chat-service/internal/service/chat_service.go:212-260 | in a run whose inserts were all in time so far, the next step gives a visitor two open conversations if and only if it is an insert after its lease has run out for a visitor who has an open conversation |
| CreateLock.OnlyStaleInsertsDuplicate | services/chat-service/internal/service/chat_service.go:240-259 | from any state that obeys the rule, a step breaks it if and only if it inserts for a visitor who by then has an open conversation |
| CreateLock.LateInsertDuplicates | services/chat-service/internal/service/chat_service.go:240-259 | a concrete run in which a client that sleeps through its lease creates a second open conversation |
| CreateLock.Lock | services/chat-service/internal/locker/redis_conversation_locker.go:41-78 | a blank key is refused; otherwise the lock is taken at the first visit that finds the key free, with the default TTL filled in; a failing store ends it with an error, and a caller whose patience ends found the key taken at every visit |
| AutoClose.TimersAgree | services/chat-service/internal/service/auto_close_scheduler.go:37-107 | over all interleavings of calls, hooks, firing timers and due callbacks, a conversation whose newest non-system message is an agent's and whose hooks have run has a timer due no later than created_at + autoCloseAfter or a due callback at work |
| AutoClose.StepKeepsReady | services/chat-service/internal/service/auto_close_scheduler.go:174-265 | every single step keeps that agreement for all conversations |
| AutoClose.TimeoutClosesOnlyIdle | services/chat-service/internal/service/auto_close_scheduler.go:196-230 | a conversation closed by timeout had an agent's message as its newest, with created_at + autoCloseAfter <= now |
| AutoClose.HookSettlesTimer | services/chat-service/internal/service/auto_close_scheduler.go:174-186 | once a call's hook has run, a new agent message has restarted its conversation's timer, a visitor's or a close has stopped it, and every other call and timer is untouched |
| AutoClose.TransactDecides | services/chat-service/internal/service/auto_close_scheduler.go:188-249 | the due transaction closes a conversation whose deadline has passed and changes nothing otherwise |
| AutoClose.CallMovesDeadline | services/chat-service/internal/service/auto_close_scheduler.go:174-185 | a call keeps a conversation's deadline, drops it, or sets it to now + autoCloseAfter together with the matching hook |
| AutoCloseSchedulers.AutoCloseScheduler.Schedule | services/chat-service/internal/service/auto_close_scheduler.go:37-65 | the map then holds exactly the given deadline for the conversation; id 0 is ignored |
| AutoCloseSchedulers.AutoCloseScheduler.Cancel | services/chat-service/internal/service/auto_close_scheduler.go:68-79 | removes the conversation's timer and no other |
| AutoCloseSchedulers.AutoCloseScheduler.Stop | services/chat-service/internal/service/auto_close_scheduler.go:81-92 | removes every timer |
| AutoCloseSchedulers.AutoCloseScheduler.Fire | services/chat-service/internal/service/auto_close_scheduler.go:94-107 | a timer takes effect exactly when it is still on record with that due time, and removes itself then |
| OpenConversations.CollectOpen | services/chat-service/internal/service/auto_close_scheduler.go:115-134 | paging by offset in batches of 200 yields exactly the open conversations, newest first |
| AutoCloseSchedulers.AutoCloseScheduler.StartAutoCloseScheduler | services/chat-service/internal/service/auto_close_scheduler.go:110-166 | from any stored tables the scan establishes the timer agreement: overdue conversations are closed, every other one with a deadline has a timer for exactly that deadline |
| AutoCloseSchedulers.AutoCloseScheduler.Resume | services/chat-service/internal/service/auto_close_scheduler.go:138-161 | one scanned conversation is left alone, scheduled or closed according to its deadline |
| Replay.ReplayMessages | services/realtime-service/internal/ws/handler.go:353-438 | for every table, page size and cap: sends the ascending list of the min(cap, K) newest of the K missed ids; truncated if and only if K >= cap; then exactly the ids strictly between last_message_id and next_before_id were left out; a failing page request or a full queue ends it with an error |
| Replay.CollectMissed | services/realtime-service/internal/ws/handler.go:361-408 | paging with a strictly decreasing cursor collects the same ids as one query |
| Replay.AbsorbPage | services/realtime-service/internal/ws/handler.go:379-396 | the loop over a page's items equals its recursive form |
| Replay.AbsorbTakes | services/realtime-service/internal/ws/handler.go:379-396 | on a descending page it takes the items above last_message_id up to the cap and says whether it stopped and whether it filled the cap |
| Replay.Missed | services/chat-service/internal/repository/repository.go:335-352 | the one-shot query: exactly the ids above the last one seen and below the bound, descending |
| Replay.SortingReverses | services/realtime-service/internal/ws/handler.go:410-412 | sorting what was collected reverses it |
| Reconnect.NoGap | services/realtime-service/internal/ws/handler.go:167-182 | registered before paging, under any interleaving of commits (in any id order), repeated publishes and page reads: once the replay has finished without overflow and every row is published, every message above last_message_id and not below the reported cut was enqueued to the client |
| Reconnect.RunsMissNothing | services/realtime-service/internal/ws/handler.go:353-438 | at every moment each such message is delivered, unpublished, collected, queued, or still ahead of the cursor |
| Reconnect.FloorIsHonest | services/realtime-service/internal/ws/handler.go:353-438 | in every run the reported floor is just above the client's last message, unless the replay is full: then it is the lowest of cap committed ids above that message |
| Reconnect.LateRegistrationLeavesAGap | services/realtime-service/internal/ws/handler.go:167-182 | a concrete run showing that registering after the replay would lose a message |
| Hubs.Hub.Register | services/realtime-service/internal/ws/hub.go:15-23 | adds the client to its conversation and to no other |
| Hubs.Hub.Unregister | services/realtime-service/internal/ws/hub.go:25-37 | removes the client and forgets a conversation without clients |
| Hubs.Hub.Broadcast | services/realtime-service/internal/ws/hub.go:39-55 | every registered client with room gets the frame exactly once, every other one is closed |
| Hubs.Client.TrySend | services/realtime-service/internal/ws/client.go:88-102 | never blocks: appends exactly when the queue is open and not full |
| WidgetList.ListStaysGood | apps/widget-chat/app.js:1686-1743 | for any sequence of pages, pushes, echoes with new client ids, acks, failures and read events from a server where ids and client ids are one-to-one, no two entries share a positive id or a client id and the list is sorted, confirmed messages by id before unconfirmed ones by time |
| WidgetList.NothingDisappears | apps/widget-chat/app.js:1686-1743 | an entry once shown is still shown later, possibly confirmed or with another status |
| WidgetList.ReactKeepsGood | apps/widget-chat/app.js:1986-2131 | every single handler keeps the list good and loses no entry |
| WidgetList.MergeKeepsGood | apps/widget-chat/app.js:1686-1743 | a merge keeps every shown entry, adds every incoming one and stays duplicate-free and sorted |
| WidgetList.SortKeepsDistinct | apps/widget-chat/app.js:1836-1854 | sorting by the source's comparison keeps the entries, their distinctness, and yields an ordered list |
| WidgetLog.WidgetShowsTheTable | apps/widget-chat/app.js:2084-2131 | in every reachable server state, a widget that handled the conversation's whole log in order shows exactly the stored messages with their stored statuses in id order, if and only if JavaScript's trimming keeps the stored client ids apart |
| PaddedIds.PaddedIdsCollide | apps/widget-chat/app.js:1787-1805 | a reachable run that stores two messages, with client ids m and blank-m, which the widget does not both show |
| WidgetLog.HandlersFollowFold | apps/widget-chat/app.js:1686-1743 | on a log without such collisions the handlers compute the folded view |
| WidgetLog.HandlersStayTidy | apps/widget-chat/app.js:1787-1805 | even with collisions no two shown entries clash and every shown entry is a stored message |
| WidgetClient.MessageList.MergeIncoming | apps/widget-chat/app.js:1686-1743 | the two map-building loops and the sort compute the specified merge |
| WidgetClient.MessageList.MergeOne | apps/widget-chat/app.js:1702-1732 | one incoming record: looked up by client id, then by key, merged, re-keyed and re-indexed |
| WidgetClient.MessageList.SortList | apps/widget-chat/app.js:1836-1854 | the stable sort by the source's comparison |
| WidgetClient.MessageList.UpdateMessageByClientMsgId | apps/widget-chat/app.js:1986-2019 | patches exactly the entries with that client id, re-sorts, and answers whether there were any |
| WidgetClient.MessageList.UpdateMessageById | apps/widget-chat/app.js:2021-2047 | sets the status of exactly the entries with that id |
| WidgetClient.MessageList.HandleMessageAck | apps/widget-chat/app.js:2056-2068 | an ack sets the id and the status, sent by default |
| WidgetClient.MessageList.HandleMessageStatusEvent | apps/widget-chat/app.js:2084-2131 | a status event for one message or for a sender's range, with every ignored case |
| WidgetClient.Outgoing.constructor | apps/widget-chat/app.js:1213-1225 | a dispatch sends one frame, or makes one request if the socket is closed or writing fails |
| WidgetClient.Outgoing.HandlePendingTimeout | apps/widget-chat/app.js:1910-1952 | a timeout retries on the socket, else falls back to a request once, else gives up |
| WidgetClient.DispatchIsBounded | apps/widget-chat/app.js:1877-1952 | whatever happens, one dispatch sends at most three frames and makes at most one request |
| WidgetClient.TimeoutsEnd | apps/widget-chat/app.js:1910-1952 | each timeout of a waiting message strictly lowers a budget of at most four |
| WidgetClient.RequestBeforeGivingUp | apps/widget-chat/app.js:1910-1952 | no message is given up before its request was made, unless an answer ended the wait, and no dispatch makes two |
| WidgetClient.OpenSocketRetries | apps/widget-chat/app.js:1910-1952 | on a socket that stays open, after n timeouts 1 + min(n, 2) frames were sent, the request was made exactly if n > 2 and the message was given up exactly if n > 3 |
| WidgetClient.ClosedSocketFallsBack | apps/widget-chat/app.js:1910-1952 | on a socket that closed after the first frame the first timeout makes the request and the second gives up |
| WidgetEffects.AckConfirms | apps/widget-chat/app.js:2056-2068 | an honest acknowledgement gives the one shown entry with its client id the message id, if there is one, and the given status, sent by default; its other fields and every other entry stay |
| WidgetEffects.FailMarksFailed | apps/widget-chat/app.js:2049-2054 | a failure marks the one shown entry with its client id as failed and changes nothing else |
| WidgetEffects.UnknownChangesNothing | apps/widget-chat/app.js:1986-2019 | acknowledgements and failures of messages that are not shown change nothing |
| WidgetEffects.ReadMarksSender | apps/widget-chat/app.js:2100-2131 | a read event marks exactly the sender's confirmed entries up to its bound, position by position |
| WidgetEffects.StatusMarksMessage | apps/widget-chat/app.js:2021-2047 | a status event sets the status of exactly the entries with its id; without an id or a status it changes nothing |
| WidgetEffects.AbsorbSays | apps/widget-chat/app.js:1825-1834 | a merged record has the incoming content and the incoming status where one is given, else the shown entry's; it takes that entry's place and touches no other |
| WidgetEffects.PageIsShown | apps/widget-chat/app.js:1686-1743 | after a page or a push the list says about each message what the last record about it says; entries no record is about are unchanged, and there is nothing else |
| WidgetEffects.EchoIsAdded | apps/widget-chat/app.js:1772-1785 | a local echo is added as it is and changes no other entry |
| WidgetEffects.ListIsOrdered | apps/widget-chat/app.js:1836-1854 | however inputs come, confirmed entries come first by strictly ascending id, then the unconfirmed ones, older before younger |
| RateLimit.BreakerBoundsFailures | services/gateway-service/internal/ratelimit/limiter.go:126-151 | in any half-open interval of circuitOpenWindow without a successful counter call at most circuitFailCount calls fail, and between calls the failure count is below the threshold |
| RateLimit.FailuresOpen | services/gateway-service/internal/ratelimit/limiter.go:202-222 | from a closed circuit without failures, circuitFailCount failed calls in a row open it for one window from the last of them, and fewer do not |
| RateLimit.OpenBreakerWaits | services/gateway-service/internal/ratelimit/limiter.go:189-200 | an open circuit lets no request through to the counter and stays as it is until its window is over |
| RateLimit.OutageEnds | services/gateway-service/internal/ratelimit/limiter.go:126-151 | after circuitFailCount failures in a row the counter is asked again by a request if and only if the window is over when it comes |
| RateLimit.SuccessCloses | services/gateway-service/internal/ratelimit/limiter.go:224-229 | a call that succeeds closes the circuit and forgets all failures before it |
| RateLimit.CounterCounts | services/gateway-service/internal/ratelimit/limiter.go:135-145 | a bucket's counter equals the number of requests of that bucket, because its TTL outlives it |
| RateLimit.BucketAdmitsExactly | services/gateway-service/internal/ratelimit/limiter.go:135-150 | of n counted requests in an aligned bucket exactly min(n, perMinute + burst) are admitted |
| RateLimit.IntervalAdmitsAtMostTwice | services/gateway-service/internal/ratelimit/limiter.go:126-151 | any half-open interval of one window's length admits at most 2 * (perMinute + burst) |
| RateLimit.TwoBuckets | services/gateway-service/internal/ratelimit/limiter.go:135-139 | an interval of one window's length touches at most two buckets |
| Limiters.Limiter.Allow | services/gateway-service/internal/ratelimit/limiter.go:113-124 | a key that is blank after lower-casing and trimming is let through; the counter decides exactly when it is configured, the circuit is closed and it answers; every other request is decided by the local limiter, whose entry count stays bounded |
| Limiters.Limiter.AllowDistributed | services/gateway-service/internal/ratelimit/limiter.go:126-151 | the circuit moves as the breaker specification says and an open circuit never asks the counter |
| Limiters.Limiter.AllowLocal | services/gateway-service/internal/ratelimit/limiter.go:153-174 | known keys, and new ones while there is room, are stamped and ask their bucket; once the map is full unknown keys are let through |
| Limiters.Limiter.CleanupIfNeeded | services/gateway-service/internal/ratelimit/limiter.go:176-187 | at most once a minute, forgets exactly the keys not seen within the TTL |
| Limiters.Limiter.IsCircuitOpen | services/gateway-service/internal/ratelimit/limiter.go:189-200 | answers whether the window still runs and forgets one that has passed |
| Limiters.Limiter.OnDistributedFailure | services/gateway-service/internal/ratelimit/limiter.go:202-222 | counts a failure, or opens the circuit and starts over at the threshold |
| Limiters.SeenKeysStay | services/gateway-service/internal/ratelimit/limiter.go:153-187 | over every sequence of visits in time order, a key that has a token bucket keeps it for as long as the TTL after a visit, however full the map is |
| Limiters.CleanupForgets | services/gateway-service/internal/ratelimit/limiter.go:176-187 | a cleanup leaves no key whose last visit is longer ago than the TTL |
| Limiters.EntriesAreVisits | services/gateway-service/internal/ratelimit/limiter.go:153-174 | the map never holds more than maxEntries keys, and what it remembers of a key is the time of one of its visits |
| ChunkOutput.NoTextIsLost | services/ai-service/internal/knowledgebase/document_loader.go:118-186 | every drafted chunk's text is in the output, in the chunk that has its id, if and only if no drafted chunk is longer than the first one with its id |
| ChunkOutput.NoChunkIsLost | services/ai-service/internal/knowledgebase/document_loader.go:350-367 | every drafted chunk itself is in the output if and only if equal ids mean equal chunks |
| ChunkOutput.DraftedIdsMeet | services/ai-service/internal/knowledgebase/document_loader.go:328-348 | with single-line sections, two drafted chunks share an id if and only if they agree in section and kind and their keywords followed by their lines of text are the same list |
| ChunkOutput.EveryParagraphAppears | services/ai-service/internal/knowledgebase/document_loader.go:118-186 | under that condition every paragraph with text appears whole, normalized, in an output chunk, of its own section and kind when sections are single lines |
| ChunkOutput.SingleAppearsIff | services/ai-service/internal/knowledgebase/document_loader.go:154-161 | a fact or an answered question appears in the chunk that has its id if and only if it is not longer than that chunk's text |
| CollidingChunks.CollidingFactIsLost | services/ai-service/internal/knowledgebase/document_loader.go:328-367 | for all words, sizes and overlaps: a two-line fact after a fact that has its first line as last keyword and its last line as text appears in no chunk of the output |
| CollidingChunks.SizeTablesCollide | services/ai-service/internal/knowledgebase/document_loader.go:486-524 | the instance that two tables under one heading yield: the second table's row is nowhere in the output |
| CollidingChunks.LineOrKeyword | services/ai-service/internal/knowledgebase/document_loader.go:339-339 | whatever the fields, making the first line of a text a keyword instead keeps the id |
| ChunkIds.IdsMeet | services/ai-service/internal/knowledgebase/document_loader.go:328-348 | the exact condition under which two chunks of one document share an id |
| ChunkIds.TextsNest | services/ai-service/internal/knowledgebase/document_loader.go:339-339 | of two chunks with one id the shorter text ends the longer one, so one contains the other if and only if it is not shorter |
| Keywords.CollectKeywords | services/ai-service/internal/knowledgebase/document_loader.go:663-690 | the loop with its set of seen keywords computes the specified list |
| Keywords.KeywordsAreKeywords | services/ai-service/internal/knowledgebase/document_loader.go:663-690 | whatever the items, keywords are on one line each, at least two characters long, and no two are equal |
| Keywords.NormalizeHolds | services/ai-service/internal/knowledgebase/document_loader.go:663-690 | the list holds the keyword of every item that has one of at least two characters, and no other |
| Keywords.KeywordIsCut | services/ai-service/internal/knowledgebase/document_loader.go:641-690 | a keyword is the item's words with single blanks between them or, past 36 characters, the first 36 of that less a blank at the end |
| Keywords.KeywordIsStable | services/ai-service/internal/knowledgebase/document_loader.go:663-690 | a keyword is at most 36 characters long and stays the same when normalized again |
| Keywords.MergeHolds | services/ai-service/internal/knowledgebase/document_loader.go:692-703 | merging adds exactly the right list's keywords to the left one's |
| Chunker.DraftsLoseNothing | services/ai-service/internal/knowledgebase/document_loader.go:142-185 | before duplicates are removed, the chunks' paragraphs in order are exactly the document's paragraphs with text, each once |
| Chunker.DraftsAreSectionPure | services/ai-service/internal/knowledgebase/document_loader.go:160-181 | every chunk's paragraphs are of one section, and its overlap tail is part of the chunk just before it, a narrative of the same section, and no longer than the overlap |
| Chunker.ChunksAreBounded | services/ai-service/internal/knowledgebase/document_loader.go:163-181 | a narrative chunk is at most chunkSize runes long, or it is one new paragraph with at most overlap + 2 more |
| Chunker.PiecesFollowParagraphs | services/ai-service/internal/knowledgebase/document_loader.go:145-161 | the paragraphs with text are taken in order, trimmed, with their kind and keywords, each under its own section or else the last one a paragraph with text had before it, or the document's path |
| ChunkMerging.TrimToLastIsOverlap | services/ai-service/internal/knowledgebase/document_loader.go:386-395 | the overlap of a trimmed text is its end within the limit, less only the white space in front |
| ChunkMerging.DraftsAreMerged | services/ai-service/internal/knowledgebase/document_loader.go:160-186 | two narrative chunks of one section follow each other only where the next paragraph no longer fits, and then the second starts with the overlap of the first; no other chunk repeats anything |
| ChunkMerging.ChunkHasKeywords | services/ai-service/internal/knowledgebase/document_loader.go:692-703 | a drafted chunk has exactly the keywords of its paragraphs |
| ChunkIds.DedupeHolds | services/ai-service/internal/knowledgebase/document_loader.go:350-367 | a chunk is in the output if and only if it is the first with text that has its id |
| ChunkIds.DedupeKeepsOrder | services/ai-service/internal/knowledgebase/document_loader.go:350-367 | the output lists chunks by the first occurrence of their ids, hence no id twice |
| ChunkIds.DedupeChunks | services/ai-service/internal/knowledgebase/document_loader.go:350-367 | the loop with its set of seen ids computes the specified removal of repeats |
| Chunker.FlushBuilder | services/ai-service/internal/knowledgebase/document_loader.go:134-144 | ends the open chunk and resets the builder and its keywords |
| Chunker.ChunkDocument | services/ai-service/internal/knowledgebase/document_loader.go:118-186 | the builder loop, with the default sizes filled in, outputs the chunks of the specification |
| Words.NormalizeKeepsWords | services/ai-service/internal/knowledgebase/document_loader.go:373-384 | normalizing keeps every word of a text, in order, and adds none |
| Words.NormalizeIsStable | services/ai-service/internal/knowledgebase/document_loader.go:373-384 | a normalized text is empty or made of trimmed non-blank lines with single blanks, and normalizing it again changes nothing |
| NormalText.NormalizeShrinks | services/ai-service/internal/knowledgebase/document_loader.go:373-384 | normalizing never lengthens a text |
| NormalText.NormalizeIsJoin | services/ai-service/internal/knowledgebase/document_loader.go:373-384 | a normalized text is its cleaned lines joined; the final trim has nothing to do |
| NormalText.CleanLinesConcat | services/ai-service/internal/knowledgebase/document_loader.go:174-181 | joining two texts with a blank line joins their cleaned lines and adds none |

## Left out

- gRPC and HTTP servers, gin handlers, proxies, configuration, mains and generated code: no state worth proving.
- MySQL, Redis, etcd, WebSocket, Qdrant and model clients: tables, a key store with expiry and channels stand for them.
- JSON encoding, authentication, tokens and signatures: event payloads are datatypes.
- Knowledge scoring, reply rules and prompts; extraction of paragraphs, tables and questions from a document.
- Widget and console rendering, scrolling, local storage, wall-clock jitter; the console's simpler copy of the list.
- Delivery order under publish failures and client status under arbitrary redelivery, which the code does not promise: a late message.new overwrites "read" with "sent" (apps/widget-chat/app.js:1825-1834).
- UnlockedCreate.RacesKeepTheLog: only message creation is split; every other call, and the results on hand-off, timers and torn views, keep one transaction as one step.
- The service with the outbox disabled, where events are published directly and failures only logged.
- Message and conversation timestamps other than created_at, closed_at and the request time; last_error texts.
- OutboxOrder.SubscriberSeesThePast: one dispatcher, every publish accepted and every write done; with failures only the safety results apply.
- OutboxDispatchers.OutboxTable.DispatchOnce: one worker's round alone; its interleaving with other workers is the step relation's.
- The dispatcher's wake-up channel, its subscription and its shutdown: they decide when a round runs, not what it does.
- AutoClose.TimersAgree: no storage errors in due callbacks (one drops the timer, services/chat-service/internal/service/auto_close_scheduler.go:271-277) and post-commit hooks in commit order.
- AutoCloseSchedulers.AutoCloseScheduler.StartAutoCloseScheduler: one reading of the clock, no calls during the scan, stored creation times not in the future, no storage errors.
- ChatServices.ChatService.AutoCloseInactiveConversations: no other calls between its listing, its checks and its transactions.
- Replay.ReplayMessages: page size positive (100 in the source); nil items, which no query yields, are not modelled.
- Reconnect.NoGap: page size and cap positive (100 and 500 in the source); "enqueued" is the client's queue, not the browser.
- Limiters.Limiter.Allow: calls come one at a time; lower-casing and a key's token bucket are given functions and answers.
- WidgetClient.MessageList.MergeIncoming: records arrive with client id and status normalized; unparsable dates and the merge's other object fields are not modelled.
- WidgetClient.MessageList.UpdateMessageByClientMsgId: patches always carry a new update time, as both callers' do, so an entry that is found counts as changed.
- WidgetList.ListStaysGood: echoes carry client ids not yet shown; resending an already shown message is not an input.
- Chunker.ChunkDocument: takes the paragraphs as given; invalid UTF-8 is not modelled.
- ChunkOutput.EveryParagraphAppears: document order is stated before repeats are removed (`DraftsLoseNothing`), because a repeat is shown at its first occurrence only; for narratives the condition is exact per chunk and not per paragraph, since a lost chunk's paragraphs may occur in another one.
