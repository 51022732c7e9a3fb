# Globex agent: verified model

Globex is a shopping agent whose work arrives as tasks on Redis Streams.  This project models the parts of
it that are hard to get right and proves what they promise, for every input, every run and every
interleaving.

**The task pipeline.**  `Submissions` and `EnqueueIntent` are the submission of a request: the two-round
claim of an idempotency key, its release and its expiry, and the atomic enqueue; `CallEndings` says how a
submission can end and what each ending leaves behind.  `QueueProtocol` is the queue: two streams with a
consumer group, pending lists with delivery counts, dead letters, statuses, and any number of workers,
each of whose Redis calls is one step that may fail before or after it took effect, and between which a
worker may vanish.  `StatusHistory`, `FinalHistories`, `BreakingMessages`, `HandOuts` and `DeadLetters`
look at all such runs: the visible status of a task, when it is final, messages that nobody can settle,
and what delivery counts and dead letters say.  `OrderlyRuns` and `Draining` look at the runs in which
calls succeed, no worker crashes, handlers finish within the idle window and every payload can be decoded
or refused.  `RedisStream` has XADD, XACK, XREADGROUP and XAUTOCLAIM and the coverage of the claim
cursor.  `Workers` and `Consume` are the worker's objects and loops, shown to be runs of the protocol
while everybody else acts in between.  `Pipeline` joins submission and delivery; `Overlaps` has two runs
that show what does not hold.

**Orders.**  `Orders` interleaves placements and cancellations at their awaits, `OrderConservation` accounts
for every piece of every stock-keeping unit, `PlacedOrders` and `OrderOwners` say which orders there can be
and who can cancel them, `UndisturbedRuns` when a placement or a cancellation goes through, `StockMadeUp` has
the run in which a piece is made up, and `OrderDesk` has the objects that change in place.

**Fast forms and what they stand for.**  `SemanticBuckets` and `SemanticLookup` (the reply cache),
`EmbeddingCache`, `VectorIndex` (the incremental bootstrap), `Conversations`, `SessionOwners` and
`ConversationStores` (the database and the file store), `Ranking` and `Preferences`, `EventFanout` and
`EventBus`, `Reranker` and `CatalogSearch`.  `Common`, `Rounding` and `IntentTasks` are shared.

A step function such as `QueueProtocol.Apply`, `Submissions.ApplyDesk`, `Orders.ApplyShop` or
`EventFanout.ApplyNetwork` is total: a step that is not possible changes nothing, so that every list of
steps is a run.  Where the original awaits, a method of a class either ends or lets others act, by a method
named `Interfere`.

What the code does not promise is stated as such, each with an input for which it fails and the exact
condition under which it holds.

* Stock is conserved if and only if no save raises after it stored its order (`StockIsConserved`,
  `SoldAndInStock`).
* Normalising a query twice is normalising it once if and only if no white space stands before its closing
  marks (`NormalizeIsIdempotent`, `NormalizingAgainChanges`).
* The file store reads its file with `splitlines` and so loses records containing U+0085, U+2028 or U+2029,
  while the database refuses turns with unreadable times and turns of sessions never touched
  (`StoresListTheSameTurns`).  With a touch it can lose a session's owner: the file shows the first buyer for
  ever if and only if the first touch that can be read back is by that buyer (`FileKeepsOwnerWhen`,
  `OwnerCanBeLostFromTheFile`).
* As many likes are kept as were asked for if and only if no two equal ones lie on both sides of the cut
  (`SelectedCount`, `EqualLikesAreBothKept`).
* The status history of a task submitted once is final if and only if its message is acknowledged
  and none of its jobs has a status left to write.  A handler that outlives the idle window, a worker that
  vanishes before the acknowledgement and an acknowledgement that fails are ways to get RUNNING after DONE
  (`HistoryIsFinalExactlyWhenSettled`, `DoneIsNotFinal`).
* A duplicate submission may be answered with an id that is never enqueued: it is enqueued if and only if the
  call that bound it heard its SET NX succeed, refreshed its session, and ran its enqueue (`BoundIdIsEnqueued`,
  `DuplicateNamesEnqueuedTask`, `DuplicateMayNameNothing`).  A call whose SET NX reply is lost, or that
  is cancelled, leaves its key bound until it expires (`BindingIsInPlace`).  That the task is built outside
  the code that releases the key does no harm by itself: the request was checked before
  (`BuildingIsNeverRefused`).
* `_handle_one` does not dead-letter everything it cannot decode.  A payload that is no UTF-8 raises outside
  its try statement, an infinite priority raises an OverflowError and too deep nesting a RecursionError,
  none of which it catches; such a message is claimed again and again and never settled
  (`BreakingMessageIsNeverSettled`).  Every other undecodable message is dead-lettered (`HandleOne`).
* Every event of another process that the channel brings is delivered, unless the subscription is lost before
  it is received (`EverythingHeardIsDelivered`).  JSON that is no object loses it: `_forward` does not
  catch the AttributeError, and the subscription starts anew (`ReceivingDeliversAll`, `NoObjectLosesTheNext`).
* A boolean counts as an index and as a score of a rerank result (`Rerank`).

Verify with `dafny verify dfyconfig.toml`.

## Model

| member | source | states |
|---|---|---|
| IntentTasks.MakeTaskIsConstructed | app/domain/queue/ports/task_queue.py:34-86 | a task that the constructor accepts has stripped, non-blank ids and query, a locale, a three-letter upper-case currency and no negative priority |
| IntentTasks.AcceptedInputBuilds | app/application/agents/orchestrator.py:53-95 | a request that the command object accepts builds a task with its own id and the stripped session, buyer and query of the request, its currency in upper case, and its locale or else zh-CN |
| IntentTasks.NormalInputIsKept | app/application/agents/orchestrator.py:53-95 | a request in normal form is accepted as it is, whatever is accepted has normal form, and accepting the result again changes nothing |
| IntentTasks.PaddingChangesNothing | app/application/agents/orchestrator.py:71-95 | white space around any field changes neither whether a request is accepted nor any field of the result |
| IntentTasks.BothRefuseTheSame | app/domain/queue/ports/task_queue.py:46-86 | for any fields, the constructor of a task accepts exactly what the command object accepts; a query of white space is refused by both |
| IntentTasks.DictRoundTrip | app/domain/queue/ports/task_queue.py:88-119 | decoding a constructed task from its dictionary gives back the same task if and only if its enqueue time is truthy or happens to be the clock that replaces a falsy one; every other field always survives |
| IntentTasks.FromDictIsConstructed | app/domain/queue/ports/task_queue.py:100-119 | whatever decodes is a constructed task, so that decoding cannot yield blank ids, a bad currency or a negative priority |
| IntentTasks.MissingKeysHaveDefaults | app/domain/queue/ports/task_queue.py:100-119 | the dictionary of a task without the optional keys decodes to that task with the default locale and currency, the clock, and priority 0 |
| IntentTasks.RequiredKeysAreRequired | app/domain/queue/ports/task_queue.py:100-119 | a dictionary without one of the four required keys does not decode |
| QueueProtocol.EnqueuedTaskIsCarried | app/infrastructure/queue/redis_stream_queue.py:66-80 | what is written for a task that has an enqueue time is decoded by the worker as that very task |
| QueueProtocol.NoTaskIsLost | app/infrastructure/queue/redis_stream_queue.py:405-508 | in every run, with any number of workers, lost replies and crashes between any two Redis calls, each message is in exactly one of undelivered, pending and acknowledged, and an acknowledged one had its handler return or has a dead letter naming its stream and id |
| QueueProtocol.MessagesStay | app/infrastructure/queue/redis_stream_queue.py:66-103 | no step ever removes or rewrites a message that was added to a stream |
| StatusHistory.LargeTasksAreInTheLargeStream | app/infrastructure/queue/redis_stream_queue.py:66-103 | in every run, a task is in the large stream if and only if it has a positive priority |
| QueueProtocol.PendingCanBeClaimedAgain | app/infrastructure/queue/redis_stream_queue.py:312-369 | in every run, a pending message that becomes idle is handed out again by the claim that reaches it, as a delivery no job has had before |
| StatusHistory.QueuedNeverReturns | app/infrastructure/queue/redis_stream_queue.py:91-103 | in every run the status history of a task starts with QUEUED, and QUEUED shows up again later if and only if the same id was submitted more than once |
| OrderlyRuns.AttemptsAreBounded | app/infrastructure/queue/redis_stream_queue.py:454-508 | when calls succeed, no worker crashes and handlers finish inside the idle window, a task reaches its handler at most `max_deliveries` times, an undecodable message never, and an acknowledged task is DONE or FAILED |
| OrderlyRuns.HistoriesHaveOneShape | app/infrastructure/queue/redis_stream_queue.py:462-492 | in those runs every status history is a prefix of QUEUED (RUNNING RETRYING)^j RUNNING DONE with j below `max_deliveries`, or of QUEUED (RUNNING RETRYING)^(max_deliveries - 1) RUNNING FAILED, so nothing follows DONE or FAILED |
| OrderlyRuns.FailedMeansAllAttempts | app/infrastructure/queue/redis_stream_queue.py:454-502 | in those runs a task whose last state is FAILED was given to its handler exactly `max_deliveries` times, one whose last state is RETRYING is still pending, and an acknowledged one that is not DONE was tried `max_deliveries` times |
| Draining.EffectiveStepDrains | app/infrastructure/queue/redis_stream_queue.py:454-542 | in those runs every step that changes anything, other than an arrival, strictly lowers a measure over undelivered messages, remaining deliveries and job steps |
| Draining.WorkCanProceed | app/infrastructure/queue/redis_stream_queue.py:287-369 | as long as some message is not acknowledged, an orderly step that changes the state exists |
| Draining.NoWorkMeansDrained | app/infrastructure/queue/redis_stream_queue.py:454-508 | the measure is zero exactly when every message of both streams is acknowledged |
| Draining.OrderlyRunsDrain | app/infrastructure/queue/redis_stream_queue.py:235-310 | once submissions stop, no effective run is longer than the measure, and such a run has nothing left to do exactly when both streams are fully acknowledged |
| FinalHistories.HistoryIsFinalExactlyWhenSettled | app/infrastructure/queue/redis_stream_queue.py:405-571 | in every run, with crashes, lost replies and overlapping deliveries: no continuation without a resubmission changes the history of a task submitted once if and only if its message is acknowledged and each of its jobs has nothing left but an acknowledgement or a dead letter |
| Overlaps.DoneIsNotFinal | app/infrastructure/queue/redis_stream_queue.py:335-342 | an input for which DONE is not final: a run without failures in which a handler outlives the idle window and DONE is followed by RUNNING |
| BreakingMessages.BreakingMessageIsNeverSettled | app/infrastructure/queue/redis_stream_queue.py:413-452 | in every run, a message whose payload is no UTF-8, nested too deeply, or a task with an infinite priority is never given to a handler, dead-lettered or acknowledged: once delivered it stays pending |
| HandOuts.DeliveryCountIsHandOuts | app/infrastructure/queue/redis_stream_queue.py:510-542 | in every run, the delivery count a failed job looks up is the number of times its message was handed out, those whose reply was lost included, and 1 when the lookup fails or the message is no longer pending |
| HandOuts.DeadLetterMeansLimitReached | app/infrastructure/queue/redis_stream_queue.py:454-492 | in every run, with failed lookups and overlapping deliveries, a message that carries a task has a dead letter only if it was handed out at least `max_deliveries` times |
| HandOuts.FailedAttemptIsRetriedBelowLimit | app/infrastructure/queue/redis_stream_queue.py:454-502 | in every reachable state, an attempt whose RUNNING write, handling or DONE write raises, and whose next calls succeed, ends with RETRYING and leaves the message as it is if it was handed out fewer than `max_deliveries` times, and else gets FAILED and goes on to its dead letter |
| DeadLetters.DeadLettersKeepThePayload | app/infrastructure/queue/redis_stream_queue.py:544-565 | in every run, each dead letter has the payload of the message whose stream and id it names |
| RedisStream.ScanClaimsExactlyTheIdlePrefix | app/infrastructure/queue/redis_stream_queue.py:335-342 | one XAUTOCLAIM scan returns at most `count` messages, ascending, pending and idle, and passes over no idle message before the cursor it returns |
| RedisStream.SweepCoversEveryIdleMessage | app/infrastructure/queue/redis_stream_queue.py:327-367 | a sweep of claim calls from cursor 0-0 back to 0-0 claims every message that stays pending and idle until claimed, whatever counts were asked for, whatever other workers did in between and whichever calls failed |
| RedisStream.StretchIsSweep | app/infrastructure/queue/redis_stream_queue.py:38-41 | in a log of claim calls, every stretch that ends with a reply of 0-0 is a sweep |
| RedisStream.SweepAdvances | app/infrastructure/queue/redis_stream_queue.py:357-359 | a claim call returns to 0-0 or moves the cursor strictly forward, never past the last delivered id, so that sweeps end |
| Consume.WorkerClaimsCoverEveryIdleMessage | app/infrastructure/queue/redis_stream_queue.py:312-369 | in a worker's own log of claim calls on a stream, every stretch from cursor 0-0 to a reply of 0-0 hands to this worker each message that its calls find pending and idle until one of them claims it |
| Workers.RecordsStay | app/infrastructure/queue/redis_stream_queue.py:544-565 | no step of anybody undoes a handler return, a dead letter or an acknowledgement |
| Workers.MessageHandler.MoveToDeadLetter | app/infrastructure/queue/redis_stream_queue.py:544-571 | adds the record first and acknowledges after, as a run of the protocol whatever others do in between; it completes exactly when both calls succeed, and then both have happened |
| Workers.MessageHandler.ProcessTask | app/worker.py:23-66 | writes RUNNING, runs the intent, writes DONE, as a run of the protocol; it raises exactly when one of the three does |
| Workers.MessageHandler.HandleOne | app/infrastructure/queue/redis_stream_queue.py:405-508 | its calls are a run of the protocol, whatever others do in between, and it never just vanishes; when every call succeeds, a decodable message ends handled and acknowledged, an undecodable one dead-lettered, and one whose decoding raises something else untouched; handled or dead-lettered always means acknowledged with that justification |
| Workers.MessageHandler.AfterFailure | app/infrastructure/queue/redis_stream_queue.py:454-502 | as a run of the protocol: it gives up only if the delivery count it looked up is at the limit, with FAILED and a dead letter, and leaves the message for a retry only if it is below, with RETRYING as the last status written and the message where it was; it breaks off only when a call fails |
| Consume.RedisStreamTaskQueue.XAutoClaim | app/infrastructure/queue/redis_stream_queue.py:334-359 | hands out new deliveries only, at most as many as asked for: exactly those of the messages that the scan claims, from the kept cursor, in the pending list of the state the call ran in, which is what the log records; the cursor moves only when the reply arrives |
| Consume.RedisStreamTaskQueue.ClaimStaleTasks | app/infrastructure/queue/redis_stream_queue.py:312-369 | both streams together hand out at most `count` new deliveries, each different, and all of them are returned; the normal stream is always tried, the large one whenever fewer than `count` were found |
| Consume.RedisStreamTaskQueue.ReadNewTasks | app/infrastructure/queue/redis_stream_queue.py:371-403 | at most `count` new deliveries; the normal stream is always read, and the large one only when the normal one answered with nothing |
| Consume.RedisStreamTaskQueue.FetchBatches | app/infrastructure/queue/redis_stream_queue.py:265-282 | a turn gets at most as many messages as there are free slots, each a new delivery; it comes back with none only after claiming on both streams and reading |
| Consume.RedisStreamTaskQueue.TakeTurn | app/infrastructure/queue/redis_stream_queue.py:237-304 | one turn keeps the number of jobs in flight within `concurrency` and starts one job for each delivery it was handed; it fetches exactly when there is a free slot |
| Consume.RedisStreamTaskQueue.Consume | app/infrastructure/queue/redis_stream_queue.py:213-310 | every delivery handed to the worker gets exactly one job, in order; never more than `concurrency` are in flight; all of them have finished when it returns; bad limits are refused before anything happens |
| Submissions.OneLifetimeOneAnswer | app/infrastructure/cache/redis_idempotency.py:12-47 | over all interleavings of claims, releases and expiry, claims answered during one lifetime of a key's binding name the same task, and at most one of them acquired it |
| Submissions.ReleaseRemovesOwnBinding | app/infrastructure/cache/redis_idempotency.py:49-66 | the deletion of a key that still has the expected value, in every run: a release only ever deletes the binding that the same call made, never a newer one |
| Submissions.EnqueuedAtMostOncePerBinding | app/application/usecases/enqueue_intent.py:56-106 | no id is enqueued twice, and each enqueued id is the value of exactly one binding |
| EnqueueIntent.RedisIdempotency.Claim | app/infrastructure/cache/redis_idempotency.py:12-47 | at most two rounds of SET NX and GET, as a run of the protocol; an acquired claim carries the proposal, another one the holder's id; if every call succeeds, the only error is that the key kept changing, after both rounds |
| EnqueueIntent.EnqueueIntentUseCase.ReleaseClaim | app/application/usecases/enqueue_intent.py:108-115 | a failing release raises nothing; its call is a run of the protocol |
| CallEndings.BoundIdIsEnqueued | app/application/usecases/enqueue_intent.py:46-106 | for every run and every binding, the bound id is enqueued if and only if its call heard that SET NX succeeded, refreshed its session, and its enqueue transaction ran, with the call not given up before; and a call that has ended has done so in one of the listed ways |
| CallEndings.DuplicateNamesEnqueuedTask | app/application/usecases/enqueue_intent.py:62-68 | for every run, the id given to a duplicate is enqueued if and only if the call that bound it came that far |
| CallEndings.BuildingIsNeverRefused | app/application/usecases/enqueue_intent.py:87-95 | in every run, a call that is about to build its task has a request from which the constructor builds it, whatever the clock and the priority |
| CallEndings.BindingIsInPlace | app/application/usecases/enqueue_intent.py:70-115 | for every run, a binding is in place if and only if it did not expire and its own call's release did not run; a release runs only after the refresh or the enqueue failed, so that the other endings leave the key bound until it expires |
| CallEndings.UndisturbedSubmission | app/application/usecases/enqueue_intent.py:46-106 | in every reachable state, a submission that nobody disturbs and whose calls succeed binds a free key and is enqueued under its own id, and on a held key is answered with the holder's id and enqueues nothing |
| EnqueueIntent.EnqueueIntentUseCase.Construct | app/application/usecases/enqueue_intent.py:87-95 | the task has the call's own id and the stripped fields of the request, with priority 1 exactly for a session whose lookup is switched on, came back, and counted enough turns; building it is never refused |
| EnqueueIntent.EnqueueIntentUseCase.Execute | app/application/usecases/enqueue_intent.py:46-106 | as a run of the protocol that never just gives up: a created submission is enqueued under its own id and its task has the stripped session, buyer, query, currency and locale of the request, a duplicate names the holder and enqueued nothing, and if every step succeeds, the only rejection is that the key kept changing |
| Pipeline.TasksAreSubmittedOnce | app/application/usecases/enqueue_intent.py:85-106 | end to end, in every run of submissions and workers together, an id is in the queue at most once and only if its call bound a key, so its history shows QUEUED first and nowhere else |
| Overlaps.DuplicateMayNameNothing | app/application/usecases/enqueue_intent.py:62-79 | an input for which a duplicate is answered with an id that is never enqueued: the first call fails to refresh its session and releases the key |
| OrderConservation.LineFindsItsUnit | app/application/usecases/place_order.py:62-91 | the ids written into an order line lead back to the unit that was deducted |
| OrderConservation.RestoreReversedGivesBack | app/application/usecases/place_order.py:98-103 | the reverse rollback adds to each unit exactly the deducted quantity, repeated units included |
| OrderConservation.RollbackKeeps | app/application/usecases/place_order.py:98-103 | a placement that fails gives each unit exactly what it holds of it, and keeps every unit's balance |
| OrderConservation.TakeItemKeeps | app/application/usecases/place_order.py:35-91 | taking an item moves its quantity from the stock to what the placement holds |
| OrderConservation.SaveKeeps | app/application/usecases/place_order.py:95-103 | a save moves what the placement holds into the confirmed order; if it raises after storing, each unit's balance grows by exactly what the placement held |
| OrderConservation.CancelRestoresTheOrder | app/application/usecases/cancel_order.py:64-67 | cancelling adds to each unit exactly the quantity of the order's lines and keeps every unit's balance |
| OrderConservation.CancellingStepKeeps | app/application/usecases/cancel_order.py:27-71 | a cancellation resolves every line before it changes anything, and each of its steps keeps every unit's balance |
| OrderConservation.StockIsConserved | app/application/usecases/place_order.py:34-103 | over every interleaving of placements and cancellations at their awaits, stock never goes below zero, and stock plus confirmed orders plus unfinished placements equals the initial stock of every unit if and only if no save raised after storing its order |
| StockMadeUp.SoldAndInStock | app/application/usecases/place_order.py:95-103 | an input for which stock is not conserved: the save of the last piece raises after it stored the order, and the piece is both sold and in stock |
| OrderConservation.EveryCancelledOrderIsRestoredOnce | app/application/usecases/cancel_order.py:64-67 | over every run, the cancelled orders are exactly those whose lines were put back, each once |
| OrderConservation.EachPlacementTakesWhatItOwes | app/application/usecases/place_order.py:34-103 | over every run, the steps of one placement together take from each unit what it holds while running, its order's lines once placed, and nothing once failed |
| PlacedOrders.OrdersAreWhatWasAsked | app/application/usecases/place_order.py:34-95 | over every run, each stored order is for the buyer of some request and has one line for each of its items, in order, of that product, unit and quantity, of products that ship to the request's country, in one currency |
| UndisturbedRuns.PlacementGoesThroughWhen | app/application/usecases/place_order.py:26-105 | in every reachable state, a valid request that nobody disturbs ends with its order confirmed and exactly its pieces taken if its items can be found, ship to its country, have one currency and are in stock together, and otherwise fails and leaves stock and orders as they were |
| OrderOwners.OnlyTheOwnerCancels | app/application/usecases/order_access.py:14-32 | over every run, each cancelled order, and each order put back into stock, was asked to be cancelled by its own buyer with a reason |
| OrderOwners.OthersChangeNothing | app/application/usecases/order_access.py:14-32 | in every reachable state, no step of another buyer's cancellation changes the stock, an order or a placement |
| UndisturbedRuns.OwnersCancellationGoesThrough | app/application/usecases/cancel_order.py:27-71 | in every reachable state, the buyer's own cancellation of a confirmed order, with a reason and undisturbed, finds every line, cancels that order alone and puts exactly its lines back into stock |
| OrderDesk.Sku.DeductStock | app/domain/catalog/sku.py:30-41 | deducts a positive quantity that is in stock, and refuses any other without a change |
| OrderDesk.Sku.RestoreStock | app/domain/catalog/sku.py:43-47 | adds a positive quantity, and refuses any other without a change |
| OrderDesk.OrderObject.Confirm | app/domain/order/order.py:93-100 | only a draft becomes confirmed |
| OrderDesk.OrderObject.Cancel | app/domain/order/order.py:102-115 | only a confirmed order is cancelled, only with a reason that is not blank, which is kept stripped |
| OrderDesk.Desk.GiveBackReversed | app/application/usecases/place_order.py:98-103 | the loop over the objects does what the reverse rollback says |
| OrderDesk.Desk.ResumePlacing | app/application/usecases/place_order.py:34-103 | the code from one await to the next, on the objects, is one step of the shop |
| OrderDesk.Desk.SaveOrder | app/infrastructure/persistence/in_memory_order_repository.py:14-19 | whether the save stored the order and whether it raised, the objects end as that step says |
| OrderDesk.Desk.ResumeCancelling | app/application/usecases/cancel_order.py:27-71 | the code of a cancellation from one await to the next, on the objects, is one step of the shop |
| SemanticBuckets.TruncatingEarlyIsHarmless | app/infrastructure/cache/semantic_cache.py:329-346 | with distinct queries, cutting to 30 entries before a write gives the same bucket as cutting only after it |
| SemanticBuckets.LastWritesAppend | app/infrastructure/cache/semantic_cache.py:329-341 | one more write replaces the last write of its query and becomes the latest |
| SemanticBuckets.BucketIsRecentHistory | app/infrastructure/cache/semantic_cache.py:320-347 | after any sequence of writes, failed loads, failed stores and expiry, the bucket is the last 30 of the unbounded history since the last reset, with only the last write of each query |
| SemanticBuckets.EveryBucketIsTidy | app/infrastructure/cache/semantic_cache.py:324-347 | however overlapping writes interleave and fail, a stored bucket has at most 30 entries and no query twice |
| SemanticBuckets.NormalizeIsIdempotent | app/infrastructure/cache/semantic_cache.py:65-76 | normalising twice is normalising once if and only if no white space is left in front of the closing marks |
| SemanticBuckets.NormalizingAgainChanges | app/infrastructure/cache/semantic_cache.py:65-76 | an input for which it is not: `a ?` first becomes `a` with a blank, then `a` |
| SemanticLookup.SearchIsNearlyBest | app/infrastructure/cache/semantic_cache.py:247-285 | although candidates are compared with a rounded similarity, the hit is within 0.00005 of the best similarity that reaches the threshold, for any number of entries; no hit exactly when none reaches it |
| SemanticLookup.TheBoundIsReached | app/infrastructure/cache/semantic_cache.py:272-283 | two entries for which the hit is exactly 0.00005 worse than the best |
| SemanticLookup.BestHit | app/infrastructure/cache/semantic_cache.py:247-285 | the loop returns the reply, query and rounded similarity of an entry that is nearly best, and none exactly when no usable entry reaches the threshold |
| SemanticLookup.SemanticCache.Lookup | app/infrastructure/cache/semantic_cache.py:213-285 | no hit when disabled, with history, for a blank or unsafe query or after a failure; otherwise a nearly best entry of the bucket, or none exactly when no usable one reaches the threshold |
| SemanticLookup.SemanticCache.Remember | app/infrastructure/cache/semantic_cache.py:287-354 | a reply to a blank or unsafe query, an empty or error reply, and one with history change nothing; any other changes only its bucket, which is the recent history of its writes and has the new entry once it is stored |
| SemanticLookup.StoredEntriesAreRead | app/infrastructure/cache/semantic_cache.py:204-211 | entries that were stored are read back unchanged |
| Rounding.Round4IsClose | app/infrastructure/cache/semantic_cache.py:278-281 | rounding to four decimals moves a number by at most 0.00005 |
| Rounding.Round4IsMonotone | app/infrastructure/cache/semantic_cache.py:278-281 | rounding keeps the order of numbers |
| EmbeddingCache.CachedEmbeddingClient.EmbedBatch | app/infrastructure/cache/cached_embedding_client.py:110-181 | whatever was cached and whichever reads and writes failed, a result is the embedding of every text in order; each text is read once and counted by what the read gave; the wrapped client is asked at most once, for exactly the misses in order, which are then sent to the cache; it fails exactly when the client raised or answered with another length |
| EmbeddingCache.CachedEmbeddingClient.ReadAll | app/infrastructure/cache/cached_embedding_client.py:117-135 | the misses are noted with their ascending positions, every hit is the embedding of its text, and hits and misses grow by the number of texts |
| EmbeddingCache.CachedEmbeddingClient.Fill | app/infrastructure/cache/cached_embedding_client.py:151-163 | every hole is filled with its text's embedding, and each vector is sent to the cache |
| EmbeddingCache.CachedEmbeddingClient.SafeGet | app/infrastructure/cache/cached_embedding_client.py:69-83 | a read gives the cached vector, which is the text's embedding; a failed read, an absent entry, and an empty or malformed value are misses |
| EmbeddingCache.Collect | app/infrastructure/cache/cached_embedding_client.py:165-181 | succeeds exactly when no result is missing, with the embeddings in order |
| VectorIndex.AddFoundIsLookup | app/infrastructure/vector/qdrant_product_index.py:139-148 | collecting the points of one reply, in whatever order they come, adds exactly the found fingerprints |
| VectorIndex.BatchExtendsLookup | app/infrastructure/vector/qdrant_product_index.py:125-150 | a further batch extends the lookup to the ids of all batches so far |
| VectorIndex.QdrantProductIndex.GetFingerprints | app/infrastructure/vector/qdrant_product_index.py:110-150 | the batches of 100 give what one lookup over all ids gives |
| VectorIndex.IncrementalEqualsRebuild | app/infrastructure/vector/index_bootstrap.py:43-86 | if every stored fingerprint stands beside its text's embedding, embedding only what is out of date gives the very index that embedding everything would give |
| VectorIndex.RebuiltIsCurrent | app/infrastructure/vector/index_bootstrap.py:82-86 | a rebuilt product is indexed with the embedding and the fingerprint of its current text |
| VectorIndex.RebuiltIsPaired | app/infrastructure/vector/index_bootstrap.py:82-86 | upserting keeps every fingerprint beside its text's embedding |
| VectorIndex.SecondRunEmbedsNothing | app/infrastructure/vector/index_bootstrap.py:45-59 | after a rebuild nothing is out of date, so that a second run embeds nothing |
| VectorIndex.UpsertingEmbeddingsRebuilds | app/infrastructure/vector/qdrant_product_index.py:72-108 | upserting the embeddings of the products is rebuilding them |
| VectorIndex.Pending | app/infrastructure/vector/index_bootstrap.py:43-52 | the pending products are exactly those whose stored fingerprint is not that of their text, in order |
| VectorIndex.Bootstrap | app/infrastructure/vector/index_bootstrap.py:17-101 | True means every product is indexed with the embedding of its current text, as a full rebuild would; the client is asked for exactly what is out of date, and not at all if nothing is; False means there were no products, a call failed or the embeddings have a wrong dimension, and leaves every fingerprint beside its text's embedding; the index never holds vectors of another dimension than its own, nor empty ones |
| Conversations.IndicesAreDense | app/infrastructure/persistence/sql/sql_conversation_store.py:87-122 | however appends overlap between reading the greatest index and inserting, the indices of a session are 0..n-1 in the order of insertion |
| Conversations.NumberedTop | app/infrastructure/persistence/sql/sql_conversation_store.py:165-179 | the rows with the greatest indices, reversed, are the rows inserted last |
| Conversations.DatabaseListsAccepted | app/infrastructure/persistence/sql/sql_conversation_store.py:157-194 | the database lists the last accepted turns in the order of writing, with UTC timestamps |
| Conversations.ReadingsOfOneInstant | app/infrastructure/persistence/sql/sql_conversation_store.py:22-30 | clock readings with any offsets are the same in UTC exactly if they are readings of one instant; a reading without an offset is taken as UTC |
| Conversations.FilesListUnbroken | app/infrastructure/persistence/json_file_conversation_store.py:187-226 | the file store lists the last turns that can be read back, in the order of writing |
| Conversations.AppendIsAcceptedWhen | app/infrastructure/persistence/sql/sql_conversation_store.py:87-155 | after every run, the database accepts a turn if and only if its time is an ISO time and its session was touched |
| Conversations.StoresListTheSameTurns | app/infrastructure/persistence/json_file_conversation_store.py:62-91 | for every run and session, both stores list the same turns up to UTC, whatever the limit, if and only if the turns that have an ISO time and follow a touch of the session are exactly the turns without U+0085, U+2028 and U+2029 |
| Conversations.WellBehavedSessionsAgree | app/infrastructure/persistence/json_file_conversation_store.py:62-91 | a session that is touched before its turns, with ISO times and without these characters, loses no turn, and both stores list its last turns in the order of writing |
| SessionOwners.StoresShowTheSameSession | app/infrastructure/persistence/json_file_conversation_store.py:93-133 | for every run and session, both stores show the same buyer, locale and currency after every operation if and only if no touch by the session's first buyer contains one of these characters |
| SessionOwners.SameSessionSameAnswer | app/infrastructure/persistence/sql/sql_conversation_store.py:53-85 | as long as both show the same session, they accept the same touches |
| SessionOwners.DatabaseOwnerIsFirst | app/infrastructure/persistence/sql/sql_conversation_store.py:53-85 | after every run, a session in the database belongs to the buyer of its first touch |
| SessionOwners.FileOwnerIsFirstReadable | app/infrastructure/persistence/json_file_conversation_store.py:93-133 | after every run, a session in its file belongs to the buyer of its first touch that can be read back |
| SessionOwners.OwnerNeverChanges | app/infrastructure/persistence/sql/sql_conversation_store.py:77-81 | in either store, once a session is shown with an owner, no operation changes it |
| SessionOwners.FileKeepsOwnerWhen | app/infrastructure/persistence/json_file_conversation_store.py:93-133 | for every run, the file shows no owner but the buyer of the first touch, at any moment, if and only if the first touch that can be read back, if there is one, is by that buyer |
| SessionOwners.OwnerCanBeLostFromTheFile | app/infrastructure/persistence/json_file_conversation_store.py:73-91 | inputs for which it is not, for each of the three characters: another buyer takes over a session in the file store but not in the database |
| ConversationStores.SqlConversationStore.TouchSession | app/infrastructure/persistence/sql/sql_conversation_store.py:53-85 | accepts and stores a touch as the database of `Conversations` does, and keeps the rows of every session numbered |
| ConversationStores.SqlConversationStore.AppendTurn | app/infrastructure/persistence/sql/sql_conversation_store.py:87-122 | appends with the next index, or violates a constraint and changes nothing, as that database does, and keeps the rows of every session numbered |
| ConversationStores.SqlConversationStore.ListTurns | app/infrastructure/persistence/sql/sql_conversation_store.py:157-194 | although it sorts by index and reverses, it lists the turns inserted last, at most `limit` of them, in the order of insertion |
| ConversationStores.JsonFileConversationStore.ReadRecords | app/infrastructure/persistence/json_file_conversation_store.py:62-91 | reads exactly the records that are not broken, in order |
| ConversationStores.JsonFileConversationStore.TouchSession | app/infrastructure/persistence/json_file_conversation_store.py:93-133 | accepts and appends a touch as the files of `Conversations` do |
| ConversationStores.JsonFileConversationStore.ListTurns | app/infrastructure/persistence/json_file_conversation_store.py:187-226 | lists what those files list |
| ConversationStores.JsonFileConversationStore.FindSession | app/infrastructure/persistence/json_file_conversation_store.py:228-238 | finds the latest readable session record |
| Ranking.RankedFacts | app/application/memory/preference_selector.py:205-210 | ranking names every position once, in descending key order with ties in the original order |
| Preferences.TopIsTop | app/application/memory/preference_selector.py:212-215 | the positions ranked first are as many as asked for, and no other position is ranked before one of them |
| Preferences.SelectSelectsWell | app/application/memory/preference_selector.py:91-135 | when equal likes are not cut apart, every dislike comes first and in order, followed by exactly min(max(top_k, 0), number of likes) likes as a subsequence, none of the omitted ones being ranked before a kept one |
| Preferences.RecencyKeepsTheNewest | app/application/memory/preference_selector.py:225-238 | when relevance is off, the query blank or the vectors unusable, no omitted like is newer than a kept one, equal likes or not |
| Preferences.RelevanceKeepsTheMostSimilar | app/application/memory/preference_selector.py:180-215 | when relevance decides and equal likes are not cut apart, no omitted like is more similar to the query than a kept one |
| Preferences.SelectedCount | app/application/memory/preference_selector.py:212-238 | the number of likes is never below the one asked for, and is that number if and only if equal likes are not cut apart |
| Preferences.EqualLikesAreBothKept | app/application/memory/preference_selector.py:212-238 | an input for which it is not: asked for one of two equal likes, the selector keeps both |
| Preferences.DistinctIsClean | app/application/memory/preference_selector.py:212-238 | preferences without repetition are never cut apart |
| EventFanout.EventsAreBroadcastOnce | app/infrastructure/eventbus.py:56-83 | in every run of several processes, each event is broadcast at most once |
| EventFanout.QueuesHoldTheirSession | app/infrastructure/eventbus.py:28-54 | in every run, a subscriber's queue is exactly the events of its session delivered in its process between subscription and end, in order, none twice |
| EventFanout.NothingComesBack | app/infrastructure/queue/redis_event_backplane.py:75-98 | in every run, no event is delivered twice in a process, a foreign one only after its broadcast, and forwarding never delivers an event of the process itself |
| EventFanout.EverythingHeardIsDelivered | app/infrastructure/queue/redis_event_backplane.py:40-98 | in every run and process, the delivered events of other processes, and then those in the inbox, are exactly those that the channel brought and no lost subscription took, in order; its own delivered events are exactly those it published, in order |
| EventFanout.ReceivingDeliversAll | app/infrastructure/queue/redis_event_backplane.py:75-98 | receiving as often as there are messages delivers the events of other processes in front of the first JSON that is no object, and so all of them if and only if none stands behind it |
| EventFanout.NoObjectLosesTheNext | app/infrastructure/queue/redis_event_backplane.py:75-98 | an input for which one is lost: an event right behind JSON that is no object |
| EventFanout.ScheduledAreBroadcast | app/infrastructure/eventbus.py:72-83 | in every run and process, the events whose broadcast was scheduled are exactly those broadcast or still waiting for it |
| EventBus.InMemoryTradeEventBus.Subscribe | app/infrastructure/eventbus.py:28-34 | a new queue, subscribed to the session from now on, as the step of `EventFanout` says |
| EventBus.InMemoryTradeEventBus.Unsubscribe | app/infrastructure/eventbus.py:36-54 | the queue is discarded, and the session with its last queue |
| EventBus.InMemoryTradeEventBus.Publish | app/infrastructure/eventbus.py:56-83 | delivers locally at once and schedules one broadcast if there is a loop and a backplane |
| EventBus.InMemoryTradeEventBus.DeliverRemote | app/infrastructure/eventbus.py:85-94 | every queue subscribed to the event's session gets it once, and no other queue |
| EventBus.InMemoryTradeEventBus.ReceiveAndForward | app/infrastructure/queue/redis_event_backplane.py:75-98 | puts an event of another process into every queue subscribed to its session, once, and in no other; drops what the process sent itself and what is no event; JSON that is no object ends the subscription |
| Reranker.Rerank | app/infrastructure/rerank/http_reranker.py:44-84 | accepts a reply exactly if it has one object per document with an integer or boolean index in range, none repeated, and a numeric score; then the slot of each index has the relevance_score of its result, or its score if it has no such key |
| Reranker.EverySlotIsFilledOnce | app/infrastructure/rerank/http_reranker.py:54-82 | in an accepted reply every slot is filled by exactly one result |
| Reranker.ReplyOrderIsIrrelevant | app/infrastructure/rerank/http_reranker.py:54-84 | the scores do not depend on the order of the results |
| Reranker.ShufflingKeepsAcceptance | app/infrastructure/rerank/http_reranker.py:46-80 | acceptance does not depend on the order of the results |
| CatalogSearch.Tokenize | app/application/usecases/catalog_search.py:20-39 | the loop collects the chunks and, for chunks with a Chinese character, their two-character pieces |
| CatalogSearch.SplitCovers | app/application/usecases/catalog_search.py:25-26 | a piece without white space lies within one chunk |
| CatalogSearch.PieceGivesToken | app/application/usecases/catalog_search.py:28-37 | a piece without white space, of two or more characters and with a Chinese one, contributes its first two characters as a token |
| CatalogSearch.KeywordRecallNeverMisses | app/application/usecases/catalog_search.py:222-251 | a product whose lower-cased text shares such a piece with the lower-cased query is a candidate with a score of at least 1 |
| CatalogSearch.KeywordRecall | app/application/usecases/catalog_search.py:222-273 | the result has exactly the products that share a token with the query, in descending score: one point for each shared token, and three more if the category asked for occurs in the product's |
| CatalogSearch.SortedByScoreIsStable | app/application/usecases/catalog_search.py:246-249 | sorting by score is a permutation, descending, with equal scores in their old order |
| CatalogSearch.RerankedIsPermutation | app/application/usecases/catalog_search.py:182-220 | a reranked list is a stable descending permutation of the recalled products by the scores of the reply |
| CatalogSearch.ReplyOrderDoesNotMatter | app/application/usecases/catalog_search.py:182-220 | replies with the same results in another order give the same reranked list |
| CatalogSearch.SplitIsExact | app/application/usecases/catalog_search.py:103-122 | every candidate is either accepted or rejected with its reason, and both sides keep the order |
| CatalogSearch.Recall | app/application/usecases/catalog_search.py:60-101 | vector recall if it found something, reranked if an acceptable reply came, else keyword recall |
| CatalogSearch.Execute | app/application/usecases/catalog_search.py:103-138 | the hits are the first min(top_k, accepted) accepted candidates; each ships to the country asked for, has the target currency and costs at most the cap; the total counts exactly the candidates that do; each of up to three rejected products shown has the first of the three reasons that applies to it; hits descend unless only vector recall ordered them |

## Left out

- IntentTasks.DictRoundTrip: JSON text is taken to be lossless, upper-casing covers ASCII letters only, and a priority that is numeric text or a float is not told from a wrong type.
- QueueProtocol.NoTaskIsLost: stream trimming, deletion of entries and the loss of Redis data are not modelled, nor is a client library that repeats a command by itself.
- StatusHistory.QueuedNeverReturns: the expiry of statuses is not modelled; the history is that of the writes.
- IntentTasks.AcceptedInputBuilds: upper-casing covers ASCII letters only.
- BreakingMessages.BreakingMessageIsNeverSettled: how deep is too deep for the JSON decoder is left open.
- OrderlyRuns.AttemptsAreBounded: the idle window is a condition on runs (no claim of a message whose job is running); clocks are not modelled.
- Consume.RedisStreamTaskQueue.Consume: the stop predicate is a number of further turns, and cancellation of the loop itself is not modelled; malformed XAUTOCLAIM replies count as failed calls.
- Submissions.OneLifetimeOneAnswer: task ids are fresh by assumption, and the request key is opaque.
- OrderDesk.Desk.ResumeCancelling: the order a cancellation holds between awaits is taken to be the object stored under its number, which is never replaced, because a number is saved once.
- OrderConservation.StockIsConserved: the catalogue does not change during a run, and prices, addresses and totals are not part of it.
- SemanticBuckets.BucketIsRecentHistory: for writes that do not overlap; overlapping ones lose one another's entries, and for them only `EveryBucketIsTidy` is stated.
- SemanticLookup.SearchIsNearlyBest: similarities are real numbers and cosine similarity is any function of two vectors; the pattern of uncacheable queries is any predicate.
- EmbeddingCache.CachedEmbeddingClient.EmbedBatch: cache keys are the texts themselves, the digest being taken as injective, and the counters of one call are not shared with an overlapping call.
- VectorIndex.Bootstrap: digests and point ids are taken as injective, the product ids of a repository are distinct because it is a dictionary, and two bootstraps do not overlap.
- Conversations.StoresListTheSameTurns: a record that is broken over several lines is taken to contribute nothing when read back, and file names are taken as injective; creation and update times of sessions are not compared.
- EventFanout.QueuesHoldTheirSession: the channel repeats no message, the payload of an event does not change, and taking events out of a queue is not modelled: a queue holds everything ever put on it.
- CatalogSearch.KeywordRecallNeverMisses: lower-casing is any function of texts; floats are real numbers.
- Queue depth, `get_status` and `TaskStatus`: reading only, with no state of their own.
- Conversation events, session snapshots, preference storage, `Money`, `Address` and the validation of settings: easy members beside the ones above.
- Agents, prompts, tools, HTTP and WebSocket handlers, the command line, the composition root, benchmarks and the front end: calls into code that is not here.
