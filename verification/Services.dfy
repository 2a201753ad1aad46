/**
 * The two services as objects over one store. Each method is proved to take the
 * store from one state of `Runtime` to the next; the row-locked transactions
 * load the row, change it in place and save it with its history entry.
 */
module Services {
  import opened Wrappers
  import opened Orders
  import opened NearestDrivers
  import opened Transactions
  import opened Outbox
  import opened Promises
  import opened Runtime
  import opened RuntimeTheorems

  /** The database tables, the queue and the Redis keys. */
  class Store {
    var orders: map<string, Record>
    var pending: set<Job>
    var retained: set<Job>
    var timeoutKeys: map<string, Job>
    var outbox: seq<OutboxEvent>

    constructor ()
      ensures State() == EMPTY_SYSTEM
    {
      orders, pending, retained, timeoutKeys, outbox := map[], {}, {}, map[], [];
    }

    function State(): System
      reads this
    {
      System(orders, pending, retained, timeoutKeys, outbox)
    }

    /** `queue.add` */
    method AddJob(job: Job)
      modifies this`pending
      ensures State() == Add(old(State()), job)
      ensures pending == old(pending) + NewJob(job, retained)
    {
      if job !in pending && job !in retained {
        pending := pending + {job};
      }
    }

    /** `manager.save` of a changed row and of the history entry that records the change. */
    method SaveRow(id: string, previous: OrderStatus, order: Order, actorId: string)
      requires id in orders
      modifies this`orders
      ensures orders == old(orders)[id := Save(old(orders)[id], previous, order, actorId)]
    {
      var entry := HistoryEntry(Some(previous), order.orderStatus, actorId);
      orders := orders[id := Record(order, orders[id].history + [entry])];
    }
  }

  class DispatchService {
    const store: Store
    const maxDispatchAttempts: int

    /**
     * What the service is configured with: the whole part of a positive variable,
     * three without one, and enough for the theorems about dispatch unless the
     * variable is a fraction below one.
     */
    constructor (store: Store, maxAttemptsVariable: Option<real>)
      ensures this.store == store
      ensures maxDispatchAttempts >= 1 <==>
                !(maxAttemptsVariable.Some? && 0.0 < maxAttemptsVariable.value < 1.0)
      ensures if maxAttemptsVariable.Some? && maxAttemptsVariable.value > 0.0
              then maxDispatchAttempts as real <= maxAttemptsVariable.value < maxDispatchAttempts as real + 1.0
              else maxDispatchAttempts == 3
    {
      this.store := store;
      maxDispatchAttempts := GetPositiveInt(maxAttemptsVariable, 3);
      PositiveIntExact(maxAttemptsVariable, 3);
    }

    method TriggerDispatch(orderId: string)
      modifies store`pending
      ensures store.State() == Add(old(store.State()), AssignDriver(orderId))
    {
      store.AddJob(AssignDriver(orderId));
    }

    /** `driverRows` are the drivers' rows as the locking query finds them, but for those locked elsewhere. */
    method AssignDriverWithLock(orderId: string, candidates: seq<DriverId>, driverRows: map<DriverId, Driver>,
                                lockedElsewhere: set<DriverId>)
      returns (assignment: Option<DriverId>)
      modifies store`orders
      ensures orderId !in old(store.orders) ==> store.orders == old(store.orders) && assignment == None
      ensures orderId in old(store.orders) ==>
                var r := old(store.orders[orderId]);
                var (r', driver) := AssignTx(r, candidates,
                                             LockableDrivers(driverRows, lockedElsewhere, r.order.vehincleType));
                store.orders == old(store.orders)[orderId := r'] && assignment == driver
    {
      if orderId !in store.orders || store.orders[orderId].order.deleted { return None; }
      var lockedOrder := store.orders[orderId].order;
      if ShouldSkipAssignment(lockedOrder) { return None; }
      var attempted := Distinct(NonEmpty(lockedOrder.attemptedDriverIds));
      ghost var lockable := LockableDrivers(driverRows, lockedElsewhere, lockedOrder.vehincleType);
      var i := 0;
      while i < |candidates|
        invariant 0 <= i <= |candidates|
        invariant store.orders == old(store.orders)
        invariant FirstFree(candidates, attempted, lockable) == FirstFree(candidates[i..], attempted, lockable)
      {
        var candidate: DriverId := candidates[i];
        i := i + 1;
        if candidate in attempted { continue; }
        if candidate !in driverRows || candidate in lockedElsewhere { continue; }
        var lockedDriver := driverRows[candidate];
        if !lockedDriver.onlineStatus || lockedDriver.isSuspended { continue; }
        if lockedDriver.vehincleType != lockedOrder.vehincleType { continue; }
        var previousStatus := lockedOrder.orderStatus;
        lockedOrder := lockedOrder.(assignedDriverId := Some(candidate));
        lockedOrder := lockedOrder.(orderStatus := DriverAssigned);
        lockedOrder := lockedOrder.(dispatchAttempts := lockedOrder.dispatchAttempts + 1);
        lockedOrder := lockedOrder.(version := lockedOrder.version + 1);
        lockedOrder := lockedOrder.(attemptedDriverIds := attempted + [candidate]);
        store.SaveRow(orderId, previousStatus, lockedOrder, SYSTEM);
        return Some(candidate);
      }
      return None;
    }

    method ExpireOrder(orderId: string)
      modifies store`orders
      ensures store.orders == if orderId in old(store.orders)
                              then old(store.orders)[orderId := ExpireTx(old(store.orders[orderId]))]
                              else old(store.orders)
    {
      if orderId !in store.orders || store.orders[orderId].order.deleted { return; }
      var lockedOrder := store.orders[orderId].order;
      if ShouldSkipAssignment(lockedOrder) { return; }
      var previousStatus := lockedOrder.orderStatus;
      lockedOrder := lockedOrder.(orderStatus := Expired);
      lockedOrder := lockedOrder.(assignedDriverId := None);
      lockedOrder := lockedOrder.(dispatchAttempts := lockedOrder.dispatchAttempts + 1);
      lockedOrder := lockedOrder.(version := lockedOrder.version + 1);
      store.SaveRow(orderId, previousStatus, lockedOrder, SYSTEM);
    }

    /** The candidates that the unlocked read of orders and drivers gives. */
    function Candidates(orderId: string, drivers: seq<Driver>, dist: DistanceFrom): seq<DriverId>
      reads store
    {
      if orderId in store.orders
      then Ids(FindNearestEligibleDrivers(store.orders[orderId].order, drivers, dist))
      else []
    }

    /** The drivers that the locking query would return for the order's vehicle type. */
    function Lockable(orderId: string, driverRows: map<DriverId, Driver>, lockedElsewhere: set<DriverId>): set<DriverId>
      reads store
    {
      if orderId in store.orders
      then LockableDrivers(driverRows, lockedElsewhere, store.orders[orderId].order.vehincleType)
      else {}
    }

    /** `drivers` are the drivers as the unlocked read finds them, `driverRows` as the locking query does. */
    method HandleAssignDriver(orderId: string, drivers: seq<Driver>, dist: DistanceFrom,
                              driverRows: map<DriverId, Driver>, lockedElsewhere: set<DriverId>)
      modifies store
      ensures store.State() == HandleAssign(maxDispatchAttempts, old(store.State()), orderId,
                                            old(Candidates(orderId, drivers, dist)),
                                            old(Lockable(orderId, driverRows, lockedElsewhere)))
      ensures AssignPromise(maxDispatchAttempts, old(store.State()), store.State(), orderId,
                            drivers, dist, driverRows, lockedElsewhere)
    {
      if orderId !in store.orders { return; }
      AssignPromised(maxDispatchAttempts, store.State(), orderId, drivers, dist, driverRows, lockedElsewhere);
      if store.orders[orderId].order.deleted { return; }
      var order := store.orders[orderId].order;
      if ShouldSkipAssignment(order) { return; }
      if order.dispatchAttempts >= maxDispatchAttempts {
        ExpireOrder(orderId);
        return;
      }
      var candidateDrivers := Ids(FindNearestEligibleDrivers(order, drivers, dist));
      if |candidateDrivers| == 0 {
        ExpireOrder(orderId);
        return;
      }
      var assignment := AssignDriverWithLock(orderId, candidateDrivers, driverRows, lockedElsewhere);
      if assignment.None? {
        ExpireOrder(orderId);
        return;
      }
      var timeoutJob := DispatchTimeout(orderId, assignment.value);
      store.AddJob(timeoutJob);
      store.timeoutKeys := store.timeoutKeys[orderId := timeoutJob];
    }

    method HandleDispatchTimeout(orderId: string, driverId: DriverId)
      modifies store
      ensures store.State() == HandleTimeout(maxDispatchAttempts, old(store.State()), orderId, driverId)
      ensures TimeoutPromise(maxDispatchAttempts, old(store.State()), store.State(), orderId, driverId)
    {
      TimeoutPromised(maxDispatchAttempts, store.State(), orderId, driverId);
      if orderId !in store.orders || store.orders[orderId].order.deleted { return; }
      var lockedOrder := store.orders[orderId].order;
      if IsTerminal(lockedOrder.orderStatus) { return; }
      if lockedOrder.orderStatus != DriverAssigned { return; }
      if lockedOrder.assignedDriverId != Some(driverId) { return; }
      var previousStatus := lockedOrder.orderStatus;
      lockedOrder := lockedOrder.(assignedDriverId := None);
      lockedOrder := lockedOrder.(dispatchAttempts := lockedOrder.dispatchAttempts + 1);
      lockedOrder := lockedOrder.(version := lockedOrder.version + 1);
      var expired := lockedOrder.dispatchAttempts >= maxDispatchAttempts;
      lockedOrder := lockedOrder.(orderStatus := if expired then Expired else Pending);
      store.SaveRow(orderId, previousStatus, lockedOrder, SYSTEM);
      store.timeoutKeys := store.timeoutKeys - {orderId};
      if !expired {
        TriggerDispatch(orderId);
      }
    }

    method CancelDispatchTimeout(orderId: string, removeOk: bool)
      modifies store
      ensures store.State() == CancelTimeout(old(store.State()), orderId, removeOk)
      ensures store.timeoutKeys == old(store.timeoutKeys) - {orderId}
      ensures store.pending == old(store.pending - Removed(store.State(), orderId, removeOk))
      ensures store.retained == old(store.retained - Removed(store.State(), orderId, removeOk))
    {
      if orderId !in store.timeoutKeys { return; }
      var timeoutJob := store.timeoutKeys[orderId];
      if removeOk {
        store.pending := store.pending - {timeoutJob};
        store.retained := store.retained - {timeoutJob};
      }
      store.timeoutKeys := store.timeoutKeys - {orderId};
    }

    method AcceptDispatch(orderId: string, driverId: DriverId, removeOk: bool) returns (result: Result<AcceptResult>)
      modifies store
      ensures store.State() == HandleAccept(old(store.State()), orderId, driverId, removeOk)
      ensures result == if orderId in old(store.orders)
                        then AcceptTx(old(store.orders[orderId]), driverId).1
                        else Err(NotFound)
      ensures AcceptPromise(old(store.State()), store.State(), orderId, driverId, removeOk, result)
    {
      AcceptPromised(store.State(), orderId, driverId, removeOk);
      if orderId !in store.orders || store.orders[orderId].order.deleted { return Err(NotFound); }
      var lockedOrder := store.orders[orderId].order;
      if lockedOrder.orderStatus == DriverArriving {
        if lockedOrder.assignedDriverId == Some(driverId) { return Ok(AlreadyAccepted); }
      }
      if lockedOrder.orderStatus != DriverAssigned { return Err(Conflict); }
      if lockedOrder.assignedDriverId != Some(driverId) { return Err(Forbidden); }
      var previousStatus := lockedOrder.orderStatus;
      lockedOrder := lockedOrder.(orderStatus := DriverArriving);
      lockedOrder := lockedOrder.(version := lockedOrder.version + 1);
      store.SaveRow(orderId, previousStatus, lockedOrder, driverId);
      CancelDispatchTimeout(orderId, removeOk);
      return Ok(DispatchAccepted);
    }

    method RejectDispatch(orderId: string, driverId: DriverId, removeOk: bool) returns (result: Result<RejectResult>)
      modifies store
      ensures store.State() == HandleReject(maxDispatchAttempts, old(store.State()), orderId, driverId, removeOk)
      ensures result == if orderId in old(store.orders)
                        then RejectTx(maxDispatchAttempts, old(store.orders[orderId]), driverId).1
                        else Err(NotFound)
      ensures RejectPromise(maxDispatchAttempts, old(store.State()), store.State(), orderId, driverId, removeOk, result)
    {
      RejectPromised(maxDispatchAttempts, store.State(), orderId, driverId, removeOk);
      if orderId !in store.orders || store.orders[orderId].order.deleted { return Err(NotFound); }
      var lockedOrder := store.orders[orderId].order;
      if lockedOrder.orderStatus == Pending || lockedOrder.orderStatus == Expired { return Ok(AlreadyHandled); }
      if lockedOrder.orderStatus != DriverAssigned { return Err(Conflict); }
      if lockedOrder.assignedDriverId != Some(driverId) { return Err(Forbidden); }
      var previousStatus := lockedOrder.orderStatus;
      lockedOrder := lockedOrder.(assignedDriverId := None);
      lockedOrder := lockedOrder.(dispatchAttempts := lockedOrder.dispatchAttempts + 1);
      lockedOrder := lockedOrder.(version := lockedOrder.version + 1);
      lockedOrder := lockedOrder.(attemptedDriverIds := lockedOrder.attemptedDriverIds + [driverId]);
      if lockedOrder.dispatchAttempts >= maxDispatchAttempts {
        lockedOrder := lockedOrder.(orderStatus := Expired);
        store.SaveRow(orderId, previousStatus, lockedOrder, driverId);
        CancelDispatchTimeout(orderId, removeOk);
        return Ok(RejectExpired);
      }
      lockedOrder := lockedOrder.(orderStatus := Pending);
      store.SaveRow(orderId, previousStatus, lockedOrder, driverId);
      CancelDispatchTimeout(orderId, removeOk);
      TriggerDispatch(orderId);
      return Ok(RejectRedispatch);
    }
  }

  /** The queue's worker: it takes a waiting job, has it handled, and retains its id. */
  class DispatchProcessor {
    const dispatchService: DispatchService

    constructor (dispatchService: DispatchService)
      ensures this.dispatchService == dispatchService
    {
      this.dispatchService := dispatchService;
    }

    method Process(job: Job, drivers: seq<Driver>, dist: DistanceFrom, driverRows: map<DriverId, Driver>,
                   lockedElsewhere: set<DriverId>)
      requires job in dispatchService.store.pending
      modifies dispatchService.store
      ensures dispatchService.store.State()
              == Step(dispatchService.maxDispatchAttempts, old(dispatchService.store.State()),
                      match job
                      case AssignDriver(id) =>
                        RunAssign(id, old(dispatchService.Candidates(id, drivers, dist)),
                                  old(dispatchService.Lockable(id, driverRows, lockedElsewhere)))
                      case DispatchTimeout(id, driverId) => RunTimeout(id, driverId))
      ensures job !in dispatchService.store.pending && job in dispatchService.store.retained
    {
      var store := dispatchService.store;
      store.pending := store.pending - {job};
      match job {
        case AssignDriver(id) => dispatchService.HandleAssignDriver(id, drivers, dist, driverRows, lockedElsewhere);
        case DispatchTimeout(id, driverId) => dispatchService.HandleDispatchTimeout(id, driverId);
      }
      store.retained := store.retained + {job};
    }
  }

  class OrdersService {
    const dispatchService: DispatchService
    /** Both services work on the same database, queue and keys. */
    const store: Store := dispatchService.store

    constructor (dispatchService: DispatchService)
      ensures this.dispatchService == dispatchService
    {
      this.dispatchService := dispatchService;
    }

    /** The transaction part of `createOrder`, for an id not used before. */
    method CreateOrder(id: string, customerId: string, vehincleType: VehincleType)
      requires FreshId(store.State(), id)
      modifies store
      ensures store.State()
              == Step(dispatchService.maxDispatchAttempts, old(store.State()), Create(id, customerId, vehincleType))
      ensures CreatePromise(old(store.State()), store.State(), id, customerId, vehincleType)
    {
      CreatePromised(dispatchService.maxDispatchAttempts, store.State(), id, customerId, vehincleType);
      var newOrder := Order(customerId, vehincleType, Pending, None, 0, [], 1, false);
      var history := HistoryEntry(None, Pending, customerId);
      store.orders := store.orders[id := Record(newOrder, [history])];
      store.outbox := store.outbox + [OutboxEvent(DISPATCH_TRIGGER, Some(id), OutboxPending, 0)];
    }

    /** The write half of `updateStatus`: an UPDATE guarded by the version that was read. */
    method CompareAndSetStatus(orderId: string, order: Order, newStatus: OrderStatus, actorId: string)
      returns (result: Result<()>)
      modifies store`orders
      ensures orderId !in old(store.orders) ==> store.orders == old(store.orders) && result == Err(Conflict)
      ensures orderId in old(store.orders) ==>
                var (r, outcome) := UpdateTx(old(store.orders[orderId]), order, newStatus, actorId);
                store.orders == old(store.orders)[orderId := r] && result == outcome
      ensures GuardAnswer(old(store.State()), orderId, order.version, result)
      ensures if result == Ok(())
              then SnapshotWritten(old(store.State()), store.State(), orderId, order.orderStatus,
                                   old(store.orders[orderId].order).(orderStatus := newStatus,
                                                                     version := order.version + 1),
                                   actorId)
              else store.orders == old(store.orders)
    {
      var affected := if orderId in store.orders && store.orders[orderId].order.version == order.version then 1 else 0;
      if affected == 0 { return Err(Conflict); }
      var before := store.orders;
      var row := store.orders[orderId].order.(orderStatus := newStatus, version := order.version + 1);
      store.SaveRow(orderId, order.orderStatus, row, actorId);
      if store.orders[orderId].order.deleted {
        store.orders := before;
        return Err(NotFound);
      }
      return Ok(());
    }

    method UpdateStatus(orderId: string, newStatus: OrderStatus, user: JwtUser) returns (result: Result<()>)
      modifies store`orders
      ensures store.State() == HandleUpdate(old(store.State()), orderId, newStatus, user)
      ensures UpdatePromise(old(store.State()), store.State(), orderId, newStatus, user, result)
    {
      UpdatePromised(store.State(), orderId, newStatus, user);
      if orderId !in store.orders || store.orders[orderId].order.deleted { return Err(NotFound); }
      var order := store.orders[orderId].order;
      var actor := ValidateActor(order, newStatus, user);
      if actor.Fail? { return Err(actor.error); }
      var transition := ValidateTransition(order.orderStatus, newStatus);
      if transition.Fail? { return Err(transition.error); }
      result := CompareAndSetStatus(orderId, order, newStatus, user.userId);
    }

    /** The write half of `reassignOrder`: likewise guarded, it resets the row to the start of a new epoch. */
    method CompareAndReset(orderId: string, order: Order, actorId: string) returns (result: Result<()>)
      modifies store`orders
      ensures orderId !in old(store.orders) ==> store.orders == old(store.orders) && result == Err(Conflict)
      ensures orderId in old(store.orders) ==>
                var (r, outcome) := ReassignTx(old(store.orders[orderId]), order, actorId);
                store.orders == old(store.orders)[orderId := r] && result == outcome
      ensures GuardAnswer(old(store.State()), orderId, order.version, result)
      ensures if result == Ok(())
              then SnapshotWritten(old(store.State()), store.State(), orderId, Expired,
                                   old(store.orders[orderId].order).(orderStatus := Pending, assignedDriverId := None,
                                                                     dispatchAttempts := 0, attemptedDriverIds := [],
                                                                     version := order.version + 1),
                                   actorId)
              else store.orders == old(store.orders)
    {
      var affected := if orderId in store.orders && store.orders[orderId].order.version == order.version then 1 else 0;
      if affected == 0 { return Err(Conflict); }
      var before := store.orders;
      var row := store.orders[orderId].order.(orderStatus := Pending, assignedDriverId := None, dispatchAttempts := 0,
                                              attemptedDriverIds := [], version := order.version + 1);
      store.SaveRow(orderId, Expired, row, actorId);
      if store.orders[orderId].order.deleted {
        store.orders := before;
        return Err(NotFound);
      }
      return Ok(());
    }

    method ReassignOrder(orderId: string, user: JwtUser) returns (result: Result<()>)
      modifies store
      ensures store.State() == HandleReassign(old(store.State()), orderId, user)
      ensures ReassignPromise(old(store.State()), store.State(), orderId, user, result)
    {
      ReassignPromised(store.State(), orderId, user);
      if orderId !in store.orders || store.orders[orderId].order.deleted { return Err(NotFound); }
      var order := store.orders[orderId].order;
      if order.orderStatus !in {Pending, Expired} { return Err(Unprocessable); }
      if order.orderStatus == Expired {
        var reset := CompareAndReset(orderId, order, user.userId);
        if reset.Err? { return reset; }
      }
      dispatchService.TriggerDispatch(orderId);
      return Ok(());
    }

    method SoftDelete(orderId: string) returns (result: Result<()>)
      modifies store`orders
      ensures store.State() == HandleDelete(old(store.State()), orderId)
      ensures DeletePromise(old(store.State()), store.State(), orderId, result)
    {
      DeletePromised(store.State(), orderId);
      if orderId !in store.orders || store.orders[orderId].order.deleted { return Err(NotFound); }
      var order := store.orders[orderId].order;
      if Active(order.orderStatus) { return Err(Unprocessable); }
      store.orders := store.orders[orderId := store.orders[orderId].(order := order.(deleted := true))];
      return Ok(());
    }
  }

  /** The outbox worker, on the same store. */
  class OutboxWorkerService {
    const dispatchService: DispatchService
    const store: Store := dispatchService.store

    constructor (dispatchService: DispatchService)
      ensures this.dispatchService == dispatchService
    {
      this.dispatchService := dispatchService;
    }

    /** Handle the copy `row` of the row at place `i`, and save it whole; it throws when the last save does. */
    method HandleRow(i: nat, row: OutboxEvent, luck: Luck) returns (threw: bool)
      requires i < |store.outbox|
      modifies store
      ensures store.State() == HandleCopy(old(store.State()), i, row, luck)
      ensures RowPromise(old(store.State()), store.State(), i, row, luck, threw)
    {
      RowPromised(store.State(), i, row, luck);
      var copy := row;
      var thrown := false;
      if copy.eventType == DISPATCH_TRIGGER {
        if copy.payload.None? {
          thrown := true;
        } else if luck.triggerOk {
          dispatchService.TriggerDispatch(copy.payload.value);
        } else {
          thrown := true;
        }
      }
      if !thrown {
        copy := copy.(status := OutboxProcessed);
        if luck.saveOk {
          store.outbox := store.outbox[i := copy];
        } else {
          thrown := true;
        }
      }
      threw := false;
      if thrown {
        copy := copy.(attempts := copy.attempts + 1);
        if copy.attempts >= MAX_ATTEMPTS {
          copy := copy.(status := OutboxFailed);
        }
        if luck.secondSaveOk {
          store.outbox := store.outbox[i := copy];
        } else {
          threw := true;
        }
      }
    }

    /** One pass: select a batch, then handle the selected copies in turn; what a row throws is only logged. */
    method ProcessOutbox(luck: nat -> Luck)
      modifies store
      ensures store.State() == OutboxPass(old(store.State()), luck)
      ensures store.outbox == OnePass(old(store.outbox), luck)
    {
      ghost var before := store.State();
      PassOnOutbox(before, luck);
      var rows := store.outbox;
      var batch := Batch(rows, 0, BATCH_SIZE);
      if |batch| == 0 { return; }
      var j := 0;
      while j < |batch|
        invariant 0 <= j <= |batch|
        invariant store.State() == HandleRows(before, batch[..j], luck)
      {
        NextOfBatch(before, batch, luck, j);
        var threw := HandleRow(batch[j], rows[batch[j]], luck(batch[j]));
        j := j + 1;
      }
      assert batch[..j] == batch;
    }
  }
}
