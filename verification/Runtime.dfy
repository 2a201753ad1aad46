/**
 * Orders, queue, Redis keys and outbox together, in runs where each handler
 * completes before the next one starts. The queue is taken as its library
 * documents it: a job is identified by its id, and adding an id that exists,
 * waiting or finished but still retained, does nothing.
 */
module Runtime {
  import opened Wrappers
  import opened Orders
  import opened Transactions
  import opened Outbox

  datatype Job = AssignDriver(orderId: string) | DispatchTimeout(orderId: string, driverId: DriverId)

  datatype System = System(
    orders: map<string, Record>,
    pending: set<Job>,
    retained: set<Job>,
    timeoutKeys: map<string, Job>,
    outbox: seq<OutboxEvent>)

  datatype Event =
    | Create(id: string, customerId: string, vehincleType: VehincleType)
    | RunAssign(id: string, candidates: seq<DriverId>, lockable: set<DriverId>)
    | RunTimeout(id: string, driverId: DriverId)
    | Accept(id: string, driverId: DriverId, removeOk: bool)
    | Reject(id: string, driverId: DriverId, removeOk: bool)
    | UpdateStatus(id: string, newStatus: OrderStatus, user: JwtUser)
    | Reassign(id: string, user: JwtUser)
    | SoftDelete(id: string)
    | OutboxRow(i: nat, luck: Luck)
    | KeyExpires(id: string)
    | Evict(job: Job)

  // ----- the queue and the keys

  function Add(s: System, job: Job): System {
    if job in s.pending || job in s.retained then s else s.(pending := s.pending + {job})
  }

  function Begin(s: System, job: Job): System {
    s.(pending := s.pending - {job})
  }

  function Finish(s: System, job: Job): System {
    s.(retained := s.retained + {job})
  }

  // cancelDispatchTimeout; `removeOk` says whether the queue lets the job be removed
  function CancelTimeout(s: System, id: string, removeOk: bool): System {
    if id !in s.timeoutKeys then s
    else
      var job := s.timeoutKeys[id];
      var gone := if removeOk then {job} else {};
      s.(pending := s.pending - gone, retained := s.retained - gone, timeoutKeys := s.timeoutKeys - {id})
  }

  function SetRecord(s: System, id: string, r: Record): System {
    s.(orders := s.orders[id := r])
  }

  // ----- the handlers

  /** The transactions of `handleAssignDriver`, with nothing in between. */
  function AssignOrExpire(maxAttempts: int, r: Record, candidates: seq<DriverId>,
                          lockable: set<DriverId>): (Record, Option<DriverId>)
  {
    if r.order.deleted || ShouldSkipAssignment(r.order) then (r, None)
    else if r.order.dispatchAttempts >= maxAttempts then (ExpireTx(r), None)
    else if candidates == [] then (ExpireTx(r), None)
    else
      var (r', driver) := AssignTx(r, candidates, lockable);
      if driver.None? then (ExpireTx(r'), None) else (r', driver)
  }

  function HandleAssign(maxAttempts: int, s: System, id: string, candidates: seq<DriverId>,
                        lockable: set<DriverId>): System
  {
    if id !in s.orders then s
    else
      var (r, driver) := AssignOrExpire(maxAttempts, s.orders[id], candidates, lockable);
      var s' := SetRecord(s, id, r);
      match driver
      case None => s'
      case Some(d) =>
        var job := DispatchTimeout(id, d);
        Add(s', job).(timeoutKeys := s.timeoutKeys[id := job])
  }

  function HandleTimeout(maxAttempts: int, s: System, id: string, driverId: DriverId): System {
    if id !in s.orders then s
    else
      var (r, result) := TimeoutTx(maxAttempts, s.orders[id], driverId);
      var s' := SetRecord(s, id, r);
      match result
      case Skip => s'
      case TimeoutExpired => s'.(timeoutKeys := s.timeoutKeys - {id})
      case TimeoutRedispatch => Add(s'.(timeoutKeys := s.timeoutKeys - {id}), AssignDriver(id))
  }

  function HandleAccept(s: System, id: string, driverId: DriverId, removeOk: bool): System {
    if id !in s.orders then s
    else
      var (r, result) := AcceptTx(s.orders[id], driverId);
      var s' := SetRecord(s, id, r);
      if result == Ok(DispatchAccepted) then CancelTimeout(s', id, removeOk) else s'
  }

  function HandleReject(maxAttempts: int, s: System, id: string, driverId: DriverId, removeOk: bool): System {
    if id !in s.orders then s
    else
      var (r, result) := RejectTx(maxAttempts, s.orders[id], driverId);
      var s' := SetRecord(s, id, r);
      if result == Ok(RejectExpired) then CancelTimeout(s', id, removeOk)
      else if result == Ok(RejectRedispatch) then Add(CancelTimeout(s', id, removeOk), AssignDriver(id))
      else s'
  }

  function HandleUpdate(s: System, id: string, newStatus: OrderStatus, user: JwtUser): System {
    if id !in s.orders || s.orders[id].order.deleted || UpdateCheck(s.orders[id].order, newStatus, user).Fail? then s
    else SetRecord(s, id, UpdateTx(s.orders[id], s.orders[id].order, newStatus, user.userId).0)
  }

  function HandleReassign(s: System, id: string, user: JwtUser): System {
    if id !in s.orders || s.orders[id].order.deleted || s.orders[id].order.orderStatus !in {Pending, Expired} then s
    else
      var r := s.orders[id];
      var s' := if r.order.orderStatus == Expired then SetRecord(s, id, ReassignTx(r, r.order, user.userId).0) else s;
      Add(s', AssignDriver(id))
  }

  function HandleDelete(s: System, id: string): System {
    if id !in s.orders || s.orders[id].order.deleted || Active(s.orders[id].order.orderStatus) then s
    else SetRecord(s, id, DeleteTx(s.orders[id]))
  }

  // handleRow, for the copy `row` of the row at place `i`
  function HandleCopy(s: System, i: nat, row: OutboxEvent, luck: Luck): System
    requires i < |s.outbox|
  {
    var s' := if Triggers(row, luck) then Add(s, AssignDriver(row.payload.value)) else s;
    match RowAfter(row, luck)
    case None => s'
    case Some(saved) => s'.(outbox := s.outbox[i := saved])
  }

  function HandleOutboxRow(s: System, i: nat, luck: Luck): System {
    if i >= |s.outbox| || s.outbox[i].status != OutboxPending then s
    else HandleCopy(s, i, s.outbox[i], luck)
  }

  function HandleRows(s: System, batch: seq<nat>, luck: nat -> Luck): System {
    if batch == [] then s
    else
      var i := batch[|batch| - 1];
      HandleOutboxRow(HandleRows(s, batch[..|batch| - 1], luck), i, luck(i))
  }

  // processOutbox: one event for each row of the batch
  function OutboxPass(s: System, luck: nat -> Luck): System {
    HandleRows(s, Batch(s.outbox, 0, BATCH_SIZE), luck)
  }

  /** A new order has a fresh id. */
  predicate FreshId(s: System, id: string) {
    && id !in s.orders && id !in s.timeoutKeys
    && (forall job :: job in s.pending + s.retained ==> job.orderId != id)
  }

  function Step(maxAttempts: int, s: System, e: Event): System {
    match e
    case Create(id, customerId, vehincleType) =>
      if !FreshId(s, id) then s
      else SetRecord(s, id, CreateOrder(customerId, vehincleType)).(outbox := s.outbox + [NewRow(id)])
    case RunAssign(id, candidates, lockable) =>
      var job := AssignDriver(id);
      if job !in s.pending then s
      else Finish(HandleAssign(maxAttempts, Begin(s, job), id, candidates, lockable), job)
    case RunTimeout(id, driverId) =>
      var job := DispatchTimeout(id, driverId);
      if job !in s.pending then s
      else Finish(HandleTimeout(maxAttempts, Begin(s, job), id, driverId), job)
    case Accept(id, driverId, removeOk) => HandleAccept(s, id, driverId, removeOk)
    case Reject(id, driverId, removeOk) => HandleReject(maxAttempts, s, id, driverId, removeOk)
    case UpdateStatus(id, newStatus, user) => HandleUpdate(s, id, newStatus, user)
    case Reassign(id, user) => HandleReassign(s, id, user)
    case SoftDelete(id) => HandleDelete(s, id)
    case OutboxRow(i, luck) => HandleOutboxRow(s, i, luck)
    case KeyExpires(id) => s.(timeoutKeys := s.timeoutKeys - {id})
    case Evict(job) => s.(retained := s.retained - {job})
  }

  const EMPTY_SYSTEM := System(map[], {}, {}, map[], [])

  // ----- what should hold

  /** An outbox row that still owes, or has given up, the dispatch of the order. */
  predicate Unfinished(row: OutboxEvent, id: string) {
    row.eventType == DISPATCH_TRIGGER && row.payload == Some(id) && row.status != OutboxProcessed
  }

  predicate OwesDispatch(outbox: seq<OutboxEvent>, id: string) {
    exists i :: 0 <= i < |outbox| && Unfinished(outbox[i], id)
  }

  predicate LivePending(o: Order) {
    o.orderStatus == Pending && !o.deleted
  }

  /** The open offer has a timeout job waiting. */
  predicate OfferTimed(s: System, id: string, o: Order) {
    o.orderStatus == DriverAssigned ==>
      && !o.deleted
      && exists job :: job in s.pending && job.DispatchTimeout? && job.orderId == id
                       && o.assignedDriverId == Some(job.driverId)
  }

  /** A live PENDING order has an assign job waiting, or an outbox row that owes one or has failed. */
  predicate WorkKept(s: System, id: string, o: Order) {
    LivePending(o) ==> AssignDriver(id) in s.pending || OwesDispatch(s.outbox, id)
  }

  /** The timeout key of an order names a timeout job of that order, and of its open offer if there is one. */
  predicate KeyOk(s: System, id: string) {
    id in s.timeoutKeys ==>
      var job := s.timeoutKeys[id];
      && job.DispatchTimeout? && job.orderId == id
      && (id in s.orders && s.orders[id].order.orderStatus == DriverAssigned ==>
            s.orders[id].order.assignedDriverId == Some(job.driverId))
  }

  predicate Sound(s: System) {
    && s.pending !! s.retained
    && (forall id :: id in s.timeoutKeys ==> KeyOk(s, id))
    && (forall id :: id in s.orders ==> OfferTimed(s, id, s.orders[id].order) && WorkKept(s, id, s.orders[id].order))
  }

  /** The job that an event asks the queue to add, if any. */
  function AddedJob(maxAttempts: int, s: System, e: Event): Option<Job> {
    match e
    case RunAssign(id, candidates, lockable) =>
      if AssignDriver(id) !in s.pending || id !in s.orders then None
      else
        var driver := AssignOrExpire(maxAttempts, s.orders[id], candidates, lockable).1;
        if driver.None? then None else Some(DispatchTimeout(id, driver.value))
    case RunTimeout(id, driverId) =>
      if DispatchTimeout(id, driverId) !in s.pending || id !in s.orders
         || TimeoutTx(maxAttempts, s.orders[id], driverId).1 != TimeoutRedispatch then None
      else Some(AssignDriver(id))
    case Reject(id, driverId, _) =>
      if id !in s.orders || RejectTx(maxAttempts, s.orders[id], driverId).1 != Ok(RejectRedispatch) then None
      else Some(AssignDriver(id))
    case Reassign(id, _) =>
      if id !in s.orders || s.orders[id].order.deleted || s.orders[id].order.orderStatus !in {Pending, Expired}
      then None
      else Some(AssignDriver(id))
    case OutboxRow(i, luck) =>
      if i < |s.outbox| && s.outbox[i].status == OutboxPending && Triggers(s.outbox[i], luck)
      then Some(AssignDriver(s.outbox[i].payload.value))
      else None
    case _ => None
  }

  /** The row of a trigger that got through is marked PROCESSED, by one save or the other. */
  predicate MarkedProcessed(row: OutboxEvent, luck: Luck) {
    luck.saveOk || (luck.secondSaveOk && row.attempts + 1 < MAX_ATTEMPTS)
  }

  /** Apart from the outbox row that the event finishes, no outbox row owes the order a dispatch. */
  predicate NoOtherRowOwes(s: System, e: Event, id: string) {
    if e.OutboxRow? && e.i < |s.outbox|
    then
      && id in s.orders && LivePending(s.orders[id].order)
      && MarkedProcessed(s.outbox[e.i], e.luck)
      && !OwesDispatch(s.outbox[..e.i] + s.outbox[e.i + 1..], id)
    else !OwesDispatch(s.outbox, id)
  }

  /**
   * The event is about to add a job whose id the queue still retains, so that
   * the add is ignored, and nothing else will serve the order: the job is the
   * timeout of a new offer, or no other outbox row owes the order a dispatch.
   * All of it can be read off the state before the event.
   */
  predicate AddIsLost(maxAttempts: int, s: System, e: Event) {
    match AddedJob(maxAttempts, s, e)
    case None => false
    case Some(job) => job in s.retained && (job.AssignDriver? ==> NoOtherRowOwes(s, e, job.orderId))
  }
}
