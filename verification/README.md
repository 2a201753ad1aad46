# Order dispatch, rate limiting, outbox and pagination: a verified model

The repository is the back end of a delivery service. A customer places an
order; a queue worker offers it to the nearest eligible driver, who may accept,
reject or let the offer time out; a refused order is offered to the next
driver, until it is accepted or expires. Two services write the same order row
in two styles: the dispatch service locks the row for the length of a
transaction, and the orders service reads without a lock, validates, and then
updates with a guard on `version`. Around this stand an outbox that hands new
orders to the queue, a rate limiter that runs as a script inside Redis, and
three listings with keyset pagination.

This project models these parts in Dafny and proves what they keep. `dafny
verify dfyconfig.toml` checks all of it.

## How it is built

- `Orders`, `NearestDrivers` and `Transactions` say what is read and written:
  the row, the transition table, the two checks of `updateStatus`, the choice
  of a driver, and each database transaction as a function from the record it
  finds (row and history) to the record it leaves.
- `Protocol` is the life of one order under arbitrary interleaving. Each locked
  transaction and each compare-and-swap is one step; each unlocked read is a
  step that leaves its snapshot in a handler in flight; assign jobs may start
  at any time, and timeout jobs be delivered at any time, late or repeatedly.
  The world also records every offer, grouped into epochs: an epoch runs from
  creation, or from a reassignment out of EXPIRED, to the next such
  reassignment. `ProtocolInvariant` proves one inductive invariant,
  `ProtocolTheorems` what follows from it for every reachable world, and
  `ProtocolBounds` that its bounds are reached.
- `Outbox` is the outbox: first any number of workers with copies of the same
  rows, then the passes of one worker, and its drain bound.
- `Runtime` puts all orders, the queue, the Redis timeout keys and the outbox
  together, for runs in which each handler completes before the next starts;
  `RuntimeTheorems` proves when open offers stay timed and dispatch work is
  kept. `Promises` says for each request, of the states before and after and of
  the answer alone, which answer is given exactly when and what has changed.
  `Services` has the two services, the queue's processor and the outbox
  worker as classes that change one store in place, each method proved equal to the step of
  `Runtime` that it implements, and to keep its promise. `Refinement` proves that these runs are among
  the interleavings of `Protocol`, so that its theorems hold of the services.
- `Throttler` is the Redis script and the class that calls it;
  `ThrottlerTheorems` is about all sequences of hits.
- `Pagination` has the three `findAll` methods and traversals over a table that
  may change between requests.

The transactions are written twice. As methods they change the loaded row step
by step, as the source does (`Services`); as functions they are the
specification of those methods and the steps of the two transition systems:
`CreateOrder`, `AssignTx`, `ExpireTx`, `TimeoutTx`, `AcceptTx`, `RejectTx`,
`UpdateTx`, `ReassignTx`, `DeleteTx` in `Transactions`, and the `Handle`
functions of `Runtime`. Specification functions have no rows in the table
below; the lemmas that state what they do have.

## What turned out not to hold

The model follows the code. Where a property that one would expect of it fails,
there is a concrete run, and the exact condition under which it holds.

- **Lost dispatch work.** Assign jobs are added under the id
  `assign-driver:<order>`, and finished jobs are retained (the last 100). With a
  queue that ignores an id it still knows, the redispatch after a timeout or a
  rejection is ignored, and the order stays PENDING with no job
  (`DispatchWorkLost`). Offers stay timed and work is kept in exactly the runs
  in which no needed job is added under a retained id (`RunKeepsWork`).
- **Rows lost at page boundaries.** Creation times have microseconds, cursors
  milliseconds. Rows created in the same millisecond as the last row of a page
  can be skipped (`RowLost`). A row present throughout a traversal is returned
  exactly once, for every limit and however the table changes, if and only if in
  no table the cursor of a matching row before it skips it (`CompleteExactly`);
  tables of whole milliseconds are always safe (`OnePrecisionLosesNothing`). For
  one given limit, a fixed table is listed whole exactly when every page boundary
  is safe (`FixedTableWhole`).
- **Timeouts across resets.** Within an epoch a timeout ends only its own
  offer; after an admin reset an old one can end a new offer to the same driver
  (`StaleTimeoutExists`), and reset is the only cause
  (`TimeoutMisfiresAcrossResets`).
- **Half the attempts.** The documentation (line 125 of the repository's `README.md`) calls
  `MAX_DISPATCH_ATTEMPTS` the number of dispatch attempts before an order
  expires. Assigning and refusing each count one, so an epoch makes at most half
  as many offers, rounded up (`AttemptArithmetic`, `OffersFallShort`). The model
  follows the code.
- **A positive integer that is zero.** The configuration helper rounds a
  fraction below one down to zero (`PositiveIntCanBeZero`, `PositiveIntExact`).
- **A limit of zero** makes the listing of users throw, and a negative one drops
  the last row of whatever the database answers (`FindAllUsers`).
- **A hit counted twice.** After any error the limiter's caller loads the script
  and runs it again; if the script had run and only its reply was lost, the hit
  counts twice (`Increment`). The theorems about traffic then hold of the hits as
  counted.

## Assumptions

- The configured number of attempts is at least 1 where theorems say
  `maxAttempts >= 1`; the previous section says when the helper gives that.
- A row-locked transaction is atomic, and so is a guarded UPDATE with the rest
  of its transaction.
- The queue identifies jobs by id, and ignores an add under an id that is
  waiting or still retained; a job that is taken is handled once and its id is
  then retained until it is evicted, at any time. Only `Runtime` depends on
  this; the safety theorems of `Protocol` hold for any order, delay and
  repetition of jobs.
- A Redis key is present exactly until its expiry time. One limit, time to live
  and block duration per pair of throttler keys, the latter two positive, as
  Redis demands of expiry times, and a clock that does not run backwards.
- Decoding a cursor undoes encoding it, but for what a JavaScript date drops.
- Driver ids are not empty, ids are primary keys, new ids are fresh.

## Model

| member | source | states |
|---|---|---|
| Orders.UpdateCheckExact | src/orders/orders.service.ts:307-420 | the actor check and the transition table together admit exactly the policy of each role; 422 exactly for an administrator cancelling goods already picked up, 403 for all else that is refused |
| Orders.TransitionTable | src/orders/constants/order-transitions.contant.ts:3-20 | the ten edges of the table, as what they mean; any other pair is 422 |
| NearestDrivers.SortedPermutation | src/dispatch/dispatch.service.ts:449-473 | the sort gives every candidate back, as often, nearest first |
| NearestDrivers.FirstFreeIsFirst | src/dispatch/dispatch.service.ts:497-545 | the loop takes the first candidate that was not attempted and can be locked, and gives up only if there is none |
| NearestDrivers.ListedIsNearest | src/dispatch/dispatch.service.ts:451-517 | a listed driver before whom all others are skipped is nearest among those that can still be taken |
| NearestDrivers.NearestFirst | src/dispatch/dispatch.service.ts:431-545 | through filter, sort and loop, the driver picked minimises the snapshot distance among all drivers that can still be taken, and none is picked only if none can |
| Transactions.PositiveIntExact | src/dispatch/dispatch.service.ts:587-596 | the configured value is positive if and only if the variable is not a fraction below one |
| Transactions.PositiveIntCanBeZero | src/dispatch/dispatch.service.ts:591-593 | the value 0.5 gives zero attempts |
| Transactions.AssignPicksNearest | src/dispatch/dispatch.service.ts:95-110 | a stale candidate list and the locked row together give the nearest driver that can still be taken; an open order is left alone only if there is none |
| Transactions.AssignedIsEligible | src/dispatch/dispatch.service.ts:497-527 | the driver assigned is, under lock, online, not suspended, of the right vehicle type, not locked elsewhere and not attempted before |
| ProtocolInvariant.AssignWrites | src/dispatch/dispatch.service.ts:488-539 | an assignment takes a PENDING row to DRIVER_ASSIGNED with that driver, counts one attempt, rebuilds the attempted list without duplicates and appends the driver, and records it as the system's; otherwise nothing changes |
| ProtocolInvariant.ExpireWrites | src/dispatch/dispatch.service.ts:549-576 | expiry writes a live PENDING row, to EXPIRED, and no other |
| ProtocolInvariant.TimeoutWrites | src/dispatch/dispatch.service.ts:150-207 | a timeout takes effect if and only if the row awaits exactly that driver's answer; it then ends the offer and the row is EXPIRED or PENDING as reported |
| ProtocolInvariant.AcceptWrites | src/dispatch/dispatch.service.ts:249-294 | accepting succeeds if and only if the row awaits that driver's answer; it changes the status alone |
| ProtocolInvariant.RejectWrites | src/dispatch/dispatch.service.ts:323-390 | rejecting succeeds if and only if the row awaits that driver's answer; it takes the driver off the row and appends the driver to the attempted list |
| ProtocolInvariant.UpdateWrites | src/orders/orders.service.ts:222-257 | the guarded update of a checked snapshot succeeds if and only if the row still is the snapshot, and then is a legal write of the row as it is |
| ProtocolInvariant.ReassignWrites | src/orders/orders.service.ts:464-502 | likewise for the reset out of EXPIRED |
| ProtocolInvariant.RebuiltList | src/dispatch/dispatch.service.ts:491-527 | rebuilding the attempted list from a set gives the drivers offered the order this epoch, in turn, without the duplicate of a rejection |
| ProtocolInvariant.AuditKept | src/dispatch/dispatch.service.ts:523-537 | every legal write together with its history entry keeps the audit trail exact |
| ProtocolInvariant.AttemptsKept | src/dispatch/dispatch.service.ts:176-194 | every legal write keeps the counter's relation to the number of offers |
| ProtocolInvariant.CountsKept | src/orders/orders.service.ts:243-250 | every counted write moves the offer log and the audit trail alike |
| ProtocolInvariant.RankDecreases | src/dispatch/dispatch.service.ts:353-389 | every write but the reset strictly lowers a rank of status and attempts; the reset restores its maximum |
| ProtocolInvariant.StepHasShape | src/orders/orders.service.ts:216-257 | every step leaves the row alone, deletes it softly, or performs one legal write that history and offer log record |
| ProtocolInvariant.RunKeepsInv | src/dispatch/dispatch.service.ts:80-142 | the whole invariant, including what every handler in flight knows of its snapshot, holds after every run |
| ProtocolTheorems.VersionIdentifiesRow | src/orders/orders.service.ts:229-241 | versions never fall, and a row with the version it had earlier in the run is the same row, deletion aside |
| ProtocolTheorems.OptimisticWritesAreSound | src/orders/orders.service.ts:216-241 | when a compare-and-swap succeeds, the checks made on the unlocked read hold of the row it overwrites |
| ProtocolTheorems.AuditTrailExact | src/orders/orders.service.ts:90-131 | in every reachable state the version is the number of history entries, the entries form a chain from null to PENDING to the row's status, and every edge is in the transition table or one of three dispatch edges |
| ProtocolTheorems.DispatchEdgesOccur | src/dispatch/dispatch.service.ts:179-203 | each of the three edges beside the table is taken by some run |
| ProtocolTheorems.DeliveredShape | src/orders/constants/order-transitions.contant.ts:3-20 | the history of a delivered order ends with the six stages in turn |
| ProtocolTheorems.FinalStatesStay | src/orders/orders.service.ts:325-336 | DELIVERED, CANCELLED and FAILED are never left, EXPIRED only by reassignment, and a deleted row is never written |
| ProtocolTheorems.AssigneeCoupled | src/dispatch/dispatch.service.ts:519-529 | PENDING and EXPIRED rows have no driver; the others that need one have the driver of the newest offer, who from DRIVER_ARRIVING on has accepted it |
| ProtocolTheorems.NoDriverOfferedTwice | src/dispatch/dispatch.service.ts:491-527 | no driver is offered the order twice in an epoch, and the attempted list is exactly the drivers offered, in turn, and the last again if that driver rejected |
| ProtocolTheorems.AttemptArithmetic | src/dispatch/dispatch.service.ts:355-377 | the counter is even and below M when PENDING, odd and at most M when DRIVER_ASSIGNED, at most M + 1 when EXPIRED, and a function of the number of offers; an epoch makes at most M / 2 offers, rounded up, and exactly as many if it ran out of attempts |
| ProtocolTheorems.EntryGuardIsDead | src/dispatch/dispatch.service.ts:83-93 | the attempts test on entry never fires: every live PENDING read goes on to look for drivers |
| ProtocolTheorems.OffersFallShort | README.md:125 | with two or more attempts configured no epoch makes that many offers |
| ProtocolTheorems.FirstOfferRejected | src/dispatch/dispatch.service.ts:355-375 | with one or two attempts configured the first rejection expires the order; otherwise it returns to PENDING |
| ProtocolTheorems.OffersResolvedOnce | src/dispatch/dispatch.service.ts:262-292 | in the log and in the audit trail alike, offers are as many as acceptances, rejections and timeouts, and cancellations, plus one if one is open |
| ProtocolTheorems.ResolutionsAreFinal | src/dispatch/dispatch.service.ts:336-389 | no step changes how an offer ended, or removes an offer |
| ProtocolTheorems.WritesBounded | src/dispatch/dispatch.service.ts:174-206 | at most 2 * ceil(M / 2) + 3 writes between resets, whatever is duplicated or delayed |
| ProtocolTheorems.RankStep | src/dispatch/dispatch.service.ts:174-206 | the ranking behind the bound: a step that adds to the history lowers it, or is a reset out of EXPIRED |
| ProtocolTheorems.TimeoutHitsItsOwnOffer | src/dispatch/dispatch.service.ts:159-172 | within its epoch a timeout takes effect if and only if its own offer is open, ends that offer and no other, and otherwise changes nothing |
| ProtocolTheorems.TimeoutMisfiresAcrossResets | src/dispatch/dispatch.service.ts:169-172 | a timeout that takes effect ends its own offer if and only if no reset came between |
| ProtocolTheorems.StaleTimeoutExists | src/dispatch/dispatch.service.ts:121-131 | a run in which a timeout of an earlier epoch ends a later offer to the same driver |
| ProtocolTheorems.ResetReached | src/orders/orders.service.ts:450-503 | every reachable live EXPIRED order can be reset to PENDING, which opens a fresh epoch |
| ProtocolBounds.BoundsAreReached | src/dispatch/dispatch.service.ts:355-389 | for every M some order makes M / 2 offers, rounded up, and is written 2 * ceil(M / 2) + 3 times, so that both bounds are exact |
| Outbox.OverlappingWorkersKeepRows | src/outbox/outbox-worker.service.ts:58-88 | with any number of overlapping workers and failing saves, PENDING rows have attempts left, FAILED rows have used exactly five, and a PROCESSED trigger was triggered |
| Outbox.HandledRowOk | src/outbox/outbox-worker.service.ts:59-80 | handling one copy of a row keeps that, whichever call fails |
| Outbox.Batch | src/outbox/outbox-worker.service.ts:35-44 | a batch is of PENDING rows in order, within the size, and complete if it is not full |
| Outbox.OldestFirst | src/outbox/outbox-worker.service.ts:39-40 | no PENDING row outside the batch is older than one inside |
| Outbox.BatchExactly | src/outbox/outbox-worker.service.ts:36-44 | a pass handles exactly the PENDING rows with fewer than ten older ones |
| Outbox.PassedOver | src/outbox/outbox-worker.service.ts:48-55 | and leaves all other rows as they are |
| Outbox.TurnTaken | src/outbox/outbox-worker.service.ts:58-88 | what a pass makes of a row in turn, for every outcome of the trigger and of both saves: failing costs one attempt, the fifth makes it FAILED |
| Outbox.TriedFiveTimes | src/outbox/outbox-worker.service.ts:74-80 | a row whose dispatch keeps failing is PENDING with one more attempt after each pass up to the fourth attempt, FAILED with the fifth and not before, and then not handled again |
| Outbox.RetriedWithSuccess | src/outbox/outbox-worker.service.ts:59-73 | the first pass in which all calls succeed makes it PROCESSED, its attempts unchanged |
| Outbox.HandleAllEffect | src/outbox/outbox-worker.service.ts:48-55 | a pass changes exactly the rows of its batch, and lowers the attempts left by at least the size of the batch if the saves in the handler of errors get through |
| Outbox.OutboxDrains | src/outbox/outbox-worker.service.ts:74-79 | N PENDING rows are all PROCESSED or FAILED after N / 2 + 5 passes, whichever triggers and first saves fail |
| RuntimeTheorems.StepKeepsWork | src/dispatch/dispatch.service.ts:107-138 | an event keeps every open offer timed and every live PENDING order served if and only if it does not add a needed job under a retained id |
| RuntimeTheorems.RunKeepsWork | src/dispatch/dispatch.module.ts:18-25 | this holds throughout a run if and only if the run never does so |
| RuntimeTheorems.ReusableIdsLoseNothing | src/dispatch/dispatch.service.ts:70-78 | with a queue whose finished ids can be used again nothing is lost |
| RuntimeTheorems.PassOnOutbox | src/outbox/outbox-worker.service.ts:34-56 | a pass over the whole system does to the outbox what the drain bound is about |
| RuntimeTheorems.PassIsRun | src/outbox/outbox-worker.service.ts:48-55 | a pass is a stretch of a run, one event for each row of its batch, so that the theorems about runs cover it |
| RuntimeTheorems.PassJobs | src/outbox/outbox-worker.service.ts:60-69 | after a pass exactly those jobs wait that waited before, or that a row in turn asked for under an id not retained; keys, orders and retained ids are untouched |
| RuntimeTheorems.DispatchWorkLost | src/dispatch/dispatch.service.ts:234-238 | a run of four events after which an order is PENDING with no job and no outbox row |
| RuntimeTheorems.AnswerCancelsTimeout | src/dispatch/dispatch.service.ts:598-618 | an answered offer whose key is alive leaves neither key nor timeout job, if the queue lets the job go |
| Promises.AssignPromised | src/dispatch/dispatch.service.ts:80-142 | a live PENDING order with attempts left is offered to a nearest driver of those eligible in the read, not attempted, and eligible and free under lock, with timeout job and key; without such a driver, or without attempts, it becomes EXPIRED; any other order is left alone |
| Promises.ChosenIsNearest | src/dispatch/dispatch.service.ts:431-545 | the driver chosen under lock is a nearest of them, and none is chosen only if there is none |
| Promises.TimeoutPromised | src/dispatch/dispatch.service.ts:144-239 | a timeout of the open offer writes the row, removes the key and asks for another dispatch while attempts are left; any other timeout changes nothing |
| Promises.AcceptPromised | src/dispatch/dispatch.service.ts:241-312 | the five answers, each with exactly the rows and callers that get it, and what acceptance changes |
| Promises.RejectPromised | src/dispatch/dispatch.service.ts:314-417 | the six answers, each with exactly the rows and callers that get it, and what a rejection changes |
| Promises.GuardedPromised | src/orders/orders.service.ts:237-253 | a guarded write is a conflict exactly if the version has moved, not found exactly if the row was deleted under the same version |
| Promises.UpdatePromised | src/orders/orders.service.ts:211-278 | 404, 422, 403 and success each exactly when, in terms of row, caller and policy; success writes status, version and one history entry |
| Promises.ReassignPromised | src/orders/orders.service.ts:450-509 | a PENDING order keeps its row, an EXPIRED one is reset, and for either the assign job waits afterwards unless its id is retained, in any state |
| Promises.DeletePromised | src/orders/orders.service.ts:284-305 | the four statuses under way are refused, all others are deleted, and nothing else changes |
| Promises.CreatePromised | src/orders/orders.service.ts:90-131 | the new row is as asked for, with its first history entry and an outbox row without attempts |
| Promises.RowPromised | src/outbox/outbox-worker.service.ts:58-88 | what is saved, which job waits and whether the handler throws, for every outcome of the three calls |
| Services.Store.AddJob | src/dispatch/dispatch.service.ts:70-78 | adding a job under a known id changes nothing, otherwise it waits |
| Services.Store.SaveRow | src/dispatch/dispatch.service.ts:529-537 | row and history entry are written together, and no other order |
| Services.DispatchService.constructor | src/dispatch/dispatch.service.ts:60-63 | the limit of attempts is at least one, as the theorems about dispatch need, if and only if the variable is not a fraction below one; it is the whole part of a positive variable, and three without one |
| Services.DispatchService.TriggerDispatch | src/dispatch/dispatch.service.ts:70-78 | asks for an assign job and nothing else |
| Services.DispatchService.HandleAssignDriver | src/dispatch/dispatch.service.ts:80-142 | run to completion it is the step of the runtime, and keeps the promise of nearest first, offer or expiry, job and key |
| Services.DispatchService.AssignDriverWithLock | src/dispatch/dispatch.service.ts:476-547 | the loop over candidates, with the conditions of the locking query, writes the first that is free, and the row and history of no other order |
| Services.DispatchService.ExpireOrder | src/dispatch/dispatch.service.ts:549-576 | the in-place writes make the expiry transaction |
| Services.DispatchService.HandleDispatchTimeout | src/dispatch/dispatch.service.ts:144-239 | transaction, key and redispatch together, as the step of the runtime and as promised |
| Services.DispatchService.AcceptDispatch | src/dispatch/dispatch.service.ts:241-312 | new state and answer for every status and caller, as promised |
| Services.DispatchService.RejectDispatch | src/dispatch/dispatch.service.ts:314-417 | new state and answer for every status and caller, as promised |
| Services.DispatchService.CancelDispatchTimeout | src/dispatch/dispatch.service.ts:598-618 | removes the job the key names, if the queue lets it go, and the key |
| Services.DispatchProcessor.Process | src/dispatch/dispatch.processor.ts:24-68 | takes a waiting job, runs its handler and retains its id; the job then no longer waits |
| Services.OrdersService.CreateOrder | src/orders/orders.service.ts:90-131 | row, first history entry and outbox row are created together |
| Services.OrdersService.CompareAndSetStatus | src/orders/orders.service.ts:222-257 | a write guarded by the version read: exactly when it conflicts or does not find the row, leaving all as it was, and else the row and history entry written |
| Services.OrdersService.UpdateStatus | src/orders/orders.service.ts:211-278 | without a concurrent write the two checks alone decide the result |
| Services.OrdersService.CompareAndReset | src/orders/orders.service.ts:464-503 | likewise for the reset of an expired order |
| Services.OrdersService.ReassignOrder | src/orders/orders.service.ts:450-509 | resets an EXPIRED order, has a PENDING or EXPIRED one dispatched, refuses the rest, as promised |
| Services.OrdersService.SoftDelete | src/orders/orders.service.ts:284-305 | deletes exactly the orders not under way, as promised |
| Services.OutboxWorkerService.ProcessOutbox | src/outbox/outbox-worker.service.ts:34-56 | a pass handles the selected copies one by one, each as it was selected, and goes on after a row whose handling throws |
| Services.OutboxWorkerService.HandleRow | src/outbox/outbox-worker.service.ts:58-89 | the new state and whether it throws, for every outcome of the trigger and of both saves, as promised |
| Refinement.StepSimulated | src/dispatch/dispatch.service.ts:80-239 | every handler, run to completion, is a sequence of steps of the interleaved protocol |
| Refinement.RuntimeRefinesProtocol | src/dispatch/dispatch.processor.ts:24-68 | every state of an order in a run of the services is reachable in the protocol |
| Refinement.RuntimeOrdersAreSound | src/orders/orders.service.ts:222-257 | hence the audit trail, the attempt counter and the bound on writes hold for every order of every run |
| Throttler.Redis.RunScript | src/common/throttler/redis-throttler-storage.ts:53-81 | the script, command by command, gives the keys and reply of its specification, and touches no other key |
| Throttler.Redis.Evalsha | src/common/throttler/redis-throttler-storage.ts:86-100 | without the script loaded the call fails without effect; with it the script runs, even if the reply is lost |
| Throttler.CountKeysAreNotBlockKeys | src/common/throttler/redis-throttler-storage.ts:16-17 | no counter key is a block key |
| Throttler.CountersShared | src/common/throttler/redis-throttler-storage.ts:16-17 | callers share a counter if and only if key and throttler name read the same joined by a colon; so two keys of one throttler, or two throttlers of one key, never do |
| Throttler.HitsContinue | src/common/throttler/redis-throttler-storage.ts:59-81 | keys left by a sequence of hits are left, after one or two more runs of the script, by the sequence with those hits appended, and the reply is the reply to the last |
| Throttler.RedisThrottlerStorage.EvalIncrementScript | src/common/throttler/redis-throttler-storage.ts:43-114 | the script runs once, whether or not the server has forgotten it, and twice exactly if its first reply was lost; the call throws exactly if the last try fails |
| Throttler.RedisThrottlerStorage.Increment | src/common/throttler/redis-throttler-storage.ts:9-41 | each call continues the traffic on its two keys, as the theorems below describe it, by one hit, or by two if the first reply was lost, answers as to the last, and changes no other key |
| ThrottlerTheorems.RunKeepsKeys | src/common/throttler/redis-throttler-storage.ts:65-77 | counters always have an expiry within the time to live, and a block in force means the counter is gone or over the limit |
| ThrottlerTheorems.ReportsConsistent | src/common/throttler/redis-throttler-storage.ts:28-40 | blocked exactly when over the limit, and exactly then told to wait |
| ThrottlerTheorems.KeysConsistent | src/common/throttler/redis-throttler-storage.ts:59-74 | the consistency of the keys at any later time |
| ThrottlerTheorems.AnyKeys | src/common/throttler/redis-throttler-storage.ts:59-81 | what a run does to any two keys: a counter without expiry gets one, a block without expiry does not block, and a block in force leaves both keys alone |
| ThrottlerTheorems.BlockHolds | src/common/throttler/redis-throttler-storage.ts:59-79 | after a refusal that sets the block nothing is admitted for the block duration |
| ThrottlerTheorems.RetryAfterIsHonest | src/common/throttler/redis-throttler-storage.ts:60-79 | the reported wait is right to the second: earlier callers are refused, and the next caller after it finds no block |
| ThrottlerTheorems.AdmittedInItsWindow | src/common/throttler/redis-throttler-storage.ts:65-68 | an admitted hit lies within the time to live of its window's start |
| ThrottlerTheorems.WindowsApart | src/common/throttler/redis-throttler-storage.ts:65-74 | windows are the same or start at least the time to live apart |
| ThrottlerTheorems.WindowAdmitsLimit | src/common/throttler/redis-throttler-storage.ts:65-81 | a window admits at most the limit, and exactly what its counter says up to there |
| ThrottlerTheorems.AdmittedExactly | src/common/throttler/redis-throttler-storage.ts:59-81 | a hit is admitted if and only if no block is in force and its window has room, and is told its rank in the window |
| ThrottlerTheorems.CounterCounts | src/common/throttler/redis-throttler-storage.ts:65-68 | the counter is the number of hits counted in its window |
| ThrottlerTheorems.TotalHitsExact | src/common/throttler/redis-throttler-storage.ts:60-81 | the hits reported are those counted in the window, for admitted and refused callers, or one over the limit when a block outlives its window |
| ThrottlerTheorems.TimeToExpireIsHonest | src/common/throttler/redis-throttler-storage.ts:60-81 | the reported time to expire is the end of the window, or of the block, to the second |
| ThrottlerTheorems.IntervalBound | src/common/throttler/redis-throttler-storage.ts:59-81 | any interval of k times the time to live admits fewer than (k + 1) * limit hits |
| ThrottlerTheorems.IntervalBoundIsReached | src/common/throttler/redis-throttler-storage.ts:59-81 | for every k some traffic is admitted (k + 1) * limit - 1 times, so that the bound is exact |
| Pagination.SafeLimit | src/orders/orders.service.ts:168 | the page size is the one asked for if that is between 1 and 100, else the nearer of the two |
| Pagination.FetchPage | src/drivers/drivers.service.ts:108-121 | fetching one row too many and popping it gives the first page of what is left |
| Pagination.FindAllOrders | src/orders/orders.service.ts:158-209 | the page lists, newest first, the orders that are not deleted, the user's own if a customer, of the status asked for and below the cursor: what is left comes after the page, and there is a next page exactly if something is |
| Pagination.FindAllDrivers | src/drivers/drivers.service.ts:76-122 | likewise the drivers, online ones only if asked |
| Pagination.FindAllUsers | src/users/users.service.ts:34-65 | likewise all users; a limit of zero throws unless nothing is left; a negative one throws unless the database answers with two rows or more, and drops the last |
| Pagination.SelectMembers | src/orders/orders.service.ts:176-194 | a query finds the matching rows below the cursor and no others |
| Pagination.SelectDescends | src/orders/orders.service.ts:170-174 | a query's rows stand newest first, ties broken by id |
| Pagination.PageFacts | src/orders/orders.service.ts:194-208 | a page is in order and below its cursor, and what it omits comes after its last row |
| Pagination.NextPageLists | src/orders/orders.service.ts:194-208 | a page, said without the query: the wanted rows below the cursor, as many as fit, with what is left after them and a next page exactly if something is left |
| Pagination.TraversalDescends | src/users/users.service.ts:38-64 | over tables that change between requests, all pages together stand in one descending order |
| Pagination.NoRowTwice | src/drivers/drivers.service.ts:85-121 | however the table changes, no row is returned twice |
| Pagination.PresentThroughout | src/orders/orders.service.ts:186-202 | a row that is there throughout a complete traversal is returned if and only if it never falls between the last row of a page and its cursor |
| Pagination.ThereReturnedOnce | src/drivers/drivers.service.ts:85-121 | a row that is there throughout a complete traversal of changing tables is returned exactly once, if in each table it lies below the cursors of the matching rows before it |
| Pagination.OnePrecisionLosesNothing | src/orders/orders.service.ts:422-448 | so it is, for all rows, if all creation times are whole milliseconds: cursor and column at one precision |
| Pagination.SkippedByLimit | src/users/users.service.ts:58-62 | if the cursor of a matching row before it skips a row, complete pages of some limit do not return that row |
| Pagination.CompleteExactly | src/orders/orders.service.ts:186-202 | over any family of tables: complete pages return a row exactly once, for every limit and every change of table, if and only if no cursor of a matching row before it skips it |
| Pagination.ScanIsWhole | src/orders/orders.service.ts:186-202 | what the cursors leave, page by page, is the whole list if and only if every boundary is safe |
| Pagination.WholeMillisAreSafe | src/orders/orders.service.ts:422-448 | boundaries are safe if creation times are whole milliseconds |
| Pagination.FixedTableWhole | src/orders/orders.service.ts:168-208 | the pages of an unchanging table end, and concatenate to the full sorted, filtered list if and only if every boundary is safe |
| Pagination.RowLost | src/users/users.service.ts:58-62 | a table of two rows of which pages of one row list only the newer |

## Left out

- Protocol: one order at a time; orders share neither rows, jobs nor keys, and drivers are not counted as busy, as the code does not do so either. That a driver has at most one active order is not claimed.
- Protocol: an interleaved reassignment of a PENDING order has no step of its own, since it only asks for an assign job, and assign jobs may start at any time.
- ProtocolTheorems.FinalStatesStay: does not claim that an active order is never deleted, because `softDelete` checks an unlocked read and writes without a guard; a deletion may land on an order that was assigned in between.
- RuntimeTheorems.StepKeepsWork: for handlers that run to completion only; under full interleaving a timeout key may name the wrong job.
- Runtime: failing calls to the queue or to Redis outside the outbox worker, and whether the queue library accepts the job ids chosen, are not modelled.
- NearestDrivers.SortByDistance: an insertion sort stands for the library's sort, which is stable; `calculateDistance` and its floating point are an arbitrary function.
- Outbox.OutboxDrains: one worker, no new rows, and the save in the handler of errors gets through, as without any save a row stays as it was; with overlapping workers only `OverlappingWorkersKeepRows` is claimed. The time and message columns of a row are not modelled.
- Services.DispatchProcessor.Process: jobs of the two known kinds with well-formed data, and handlers that do not throw; unknown names and malformed data, which it refuses before any handler runs, are not modelled.
- Throttler: use of one pair of keys with different limits, other callers between the two tries of one call, and a Redis that cannot be reached at all.
- Pagination.FindAllUsers: what the database library makes of a negative limit is a parameter; cursors that do not decode are not modelled.
- Pagination: ids are numbers in database order, times are numbers; the base64 and JSON text of cursors is not modelled.
- An expiry notification does not imply that the row expired; notifications are not modelled.
- Idempotency keys of `createOrder`, which are read and later written without a guard, prices and vehicle rules.
- ETA and tracking jobs and the cache of active orders.
- Driver availability and suspension, user profile updates, authentication, controllers, validation of requests, mail and wiring.
