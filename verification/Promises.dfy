/**
 * What each request promises its caller, said of the state before and after and
 * of the answer alone: which answer is given exactly when, and what has changed.
 * No promise mentions the transactions or handlers; the lemmas prove that the
 * handlers of `Runtime` keep it, and the methods of `Services` ensure it.
 */
module Promises {
  import opened Wrappers
  import opened Orders
  import opened NearestDrivers
  import opened Transactions
  import opened Outbox
  import opened Runtime

  predicate Live(s: System, id: string) {
    id in s.orders && !s.orders[id].order.deleted
  }

  /** The order has been offered to this driver, who has not answered. */
  predicate OfferedToDriver(s: System, id: string, driverId: DriverId) {
    && Live(s, id)
    && s.orders[id].order.orderStatus == DriverAssigned
    && s.orders[id].order.assignedDriverId == Some(driverId)
  }

  /** The row has become `o`, one history entry says so, from status `previous`, and no other row has changed. */
  predicate SnapshotWritten(s: System, s': System, id: string, previous: OrderStatus, o: Order, actorId: string) {
    && id in s.orders
    && var entry := HistoryEntry(Some(previous), o.orderStatus, actorId);
       s'.orders == s.orders[id := Record(o, s.orders[id].history + [entry])]
  }

  /** Likewise, from the status that the row had. */
  predicate RowWritten(s: System, s': System, id: string, o: Order, actorId: string) {
    id in s.orders && SnapshotWritten(s, s', id, s.orders[id].order.orderStatus, o, actorId)
  }

  /** The job, if it does not wait yet and its id is not retained. */
  function NewJob(job: Job, retained: set<Job>): set<Job> {
    if job in retained then {} else {job}
  }

  // ----- assignment

  /**
   * The driver was eligible when the drivers were read without a lock, has not
   * been offered the order, and is still eligible, and free, under lock.
   */
  predicate CanBeTaken(o: Order, drivers: seq<Driver>, rows: map<DriverId, Driver>, lockedElsewhere: set<DriverId>,
                       d: Driver)
  {
    && d in drivers
    && d.onlineStatus && !d.isSuspended && d.vehincleType == o.vehincleType
    && d.currentLatitude.Some? && d.currentLongitude.Some?
    && d.id !in o.attemptedDriverIds
    && d.id in rows && d.id !in lockedElsewhere
    && rows[d.id].onlineStatus && !rows[d.id].isSuspended && rows[d.id].vehincleType == o.vehincleType
  }

  ghost predicate SomeoneCanBeTaken(o: Order, drivers: seq<Driver>, rows: map<DriverId, Driver>,
                                    lockedElsewhere: set<DriverId>)
  {
    exists y :: CanBeTaken(o, drivers, rows, lockedElsewhere, y)
  }

  /** The driver can be taken, and none who can be taken is nearer. */
  ghost predicate Nearest(o: Order, drivers: seq<Driver>, dist: DistanceFrom, rows: map<DriverId, Driver>,
                          lockedElsewhere: set<DriverId>, d: Driver)
  {
    && CanBeTaken(o, drivers, rows, lockedElsewhere, d)
    && forall y :: CanBeTaken(o, drivers, rows, lockedElsewhere, y) ==>
         dist(d.currentLatitude.value, d.currentLongitude.value)
         <= dist(y.currentLatitude.value, y.currentLongitude.value)
  }

  /** The attempted list without duplicates and empty ids, and the driver after it. */
  ghost predicate AttemptAdded(attempted: seq<string>, attempted': seq<string>, d: DriverId) {
    && attempted' != [] && attempted'[|attempted'| - 1] == d
    && (forall i, j :: 0 <= i < j < |attempted'| ==> attempted'[i] != attempted'[j])
    && (forall x :: x in attempted' <==> (x in attempted && x != "") || x == d)
  }

  /** The order is offered to the driver: row, timeout job and timeout key. */
  ghost predicate Offered(s: System, s': System, id: string, d: DriverId)
    requires id in s.orders
  {
    var o := s.orders[id].order;
    var job := DispatchTimeout(id, d);
    && id in s'.orders
    && AttemptAdded(o.attemptedDriverIds, s'.orders[id].order.attemptedDriverIds, d)
    && RowWritten(s, s', id,
                  o.(orderStatus := DriverAssigned, assignedDriverId := Some(d), version := o.version + 1,
                     dispatchAttempts := o.dispatchAttempts + 1,
                     attemptedDriverIds := s'.orders[id].order.attemptedDriverIds),
                  SYSTEM)
    && s'.timeoutKeys == s.timeoutKeys[id := job]
    && s'.pending == s.pending + NewJob(job, s.retained)
    && s'.retained == s.retained && s'.outbox == s.outbox
  }

  predicate GivenUp(s: System, s': System, id: string)
    requires id in s.orders
  {
    var o := s.orders[id].order;
    && RowWritten(s, s', id,
                  o.(orderStatus := Expired, assignedDriverId := None, version := o.version + 1,
                     dispatchAttempts := o.dispatchAttempts + 1),
                  SYSTEM)
    && s' == s.(orders := s'.orders)
  }

  /**
   * An assign job offers a live PENDING order to a nearest driver of those that
   * can be taken, lets it expire if there is none or no attempt is left, and
   * leaves every other order alone.
   */
  ghost predicate AssignPromise(maxAttempts: int, s: System, s': System, id: string, drivers: seq<Driver>,
                                dist: DistanceFrom, rows: map<DriverId, Driver>, lockedElsewhere: set<DriverId>)
  {
    if !Live(s, id) || s.orders[id].order.orderStatus != Pending then s' == s
    else if s.orders[id].order.dispatchAttempts >= maxAttempts then GivenUp(s, s', id)
    else if SomeoneCanBeTaken(s.orders[id].order, drivers, rows, lockedElsewhere) then
      exists d: Driver ::
        Nearest(s.orders[id].order, drivers, dist, rows, lockedElsewhere, d) && Offered(s, s', id, d.id)
    else GivenUp(s, s', id)
  }

  /** Said in the terms of `NearestDrivers`. */
  lemma TakeableAgrees(o: Order, drivers: seq<Driver>, rows: map<DriverId, Driver>, lockedElsewhere: set<DriverId>,
                       d: Driver)
    ensures Takeable(o, NonEmpty(o.attemptedDriverIds), drivers,
                     LockableDrivers(rows, lockedElsewhere, o.vehincleType), d)
            <==> CanBeTaken(o, drivers, rows, lockedElsewhere, d)
  {
  }

  lemma NearestAgrees(o: Order, drivers: seq<Driver>, dist: DistanceFrom, rows: map<DriverId, Driver>,
                      lockedElsewhere: set<DriverId>, d: Driver)
    requires NearestTakeable(o, NonEmpty(o.attemptedDriverIds), drivers, dist,
                             LockableDrivers(rows, lockedElsewhere, o.vehincleType), d)
    ensures Nearest(o, drivers, dist, rows, lockedElsewhere, d)
  {
    TakeableAgrees(o, drivers, rows, lockedElsewhere, d);
    forall y | CanBeTaken(o, drivers, rows, lockedElsewhere, y)
      ensures Distance(dist, d) <= Distance(dist, y)
    {
      TakeableAgrees(o, drivers, rows, lockedElsewhere, y);
    }
  }

  lemma ChosenAdded(r: Record, candidates: seq<DriverId>, lockable: set<DriverId>)
    ensures var (r', chosen) := AssignTx(r, candidates, lockable);
            chosen.Some? ==>
              AttemptAdded(r.order.attemptedDriverIds, r'.order.attemptedDriverIds, chosen.value)
  {
    FirstFreeIsFirst(candidates, Distinct(NonEmpty(r.order.attemptedDriverIds)), lockable);
  }

  /** Under lock, the choice is a nearest driver who can be taken, if there is one. */
  lemma ChosenIsNearest(r: Record, drivers: seq<Driver>, dist: DistanceFrom, rows: map<DriverId, Driver>,
                        lockedElsewhere: set<DriverId>)
    requires !r.order.deleted && r.order.orderStatus == Pending
    ensures var o := r.order;
            var candidates := Ids(FindNearestEligibleDrivers(o, drivers, dist));
            match AssignTx(r, candidates, LockableDrivers(rows, lockedElsewhere, o.vehincleType)).1
            case None => !SomeoneCanBeTaken(o, drivers, rows, lockedElsewhere)
            case Some(chosen) =>
              exists d: Driver :: d.id == chosen && Nearest(o, drivers, dist, rows, lockedElsewhere, d)
  {
    var o := r.order;
    var lockable := LockableDrivers(rows, lockedElsewhere, o.vehincleType);
    AssignPicksNearest(r, o, drivers, dist, lockable);
    match AssignTx(r, Ids(FindNearestEligibleDrivers(o, drivers, dist)), lockable).1
    case None =>
      forall y
        ensures !CanBeTaken(o, drivers, rows, lockedElsewhere, y)
      {
        TakeableAgrees(o, drivers, rows, lockedElsewhere, y);
      }
    case Some(chosen) =>
      var d: Driver :|
        d.id == chosen && NearestTakeable(o, NonEmpty(o.attemptedDriverIds), drivers, dist, lockable, d);
      NearestAgrees(o, drivers, dist, rows, lockedElsewhere, d);
  }

  lemma AssignEffects(maxAttempts: int, s: System, id: string, candidates: seq<DriverId>, lockable: set<DriverId>)
    requires Live(s, id) && s.orders[id].order.orderStatus == Pending
    requires s.orders[id].order.dispatchAttempts < maxAttempts
    ensures var s' := HandleAssign(maxAttempts, s, id, candidates, lockable);
            match AssignTx(s.orders[id], candidates, lockable).1
            case None => GivenUp(s, s', id)
            case Some(chosen) => Offered(s, s', id, chosen)
  {
    ChosenAdded(s.orders[id], candidates, lockable);
  }

  lemma AssignPromised(maxAttempts: int, s: System, id: string, drivers: seq<Driver>, dist: DistanceFrom,
                       rows: map<DriverId, Driver>, lockedElsewhere: set<DriverId>)
    requires id in s.orders
    ensures var o := s.orders[id].order;
            var candidates := Ids(FindNearestEligibleDrivers(o, drivers, dist));
            var lockable := LockableDrivers(rows, lockedElsewhere, o.vehincleType);
            AssignPromise(maxAttempts, s, HandleAssign(maxAttempts, s, id, candidates, lockable), id,
                          drivers, dist, rows, lockedElsewhere)
  {
    var r := s.orders[id];
    var o := r.order;
    if !o.deleted && o.orderStatus == Pending && o.dispatchAttempts < maxAttempts {
      var candidates := Ids(FindNearestEligibleDrivers(o, drivers, dist));
      var lockable := LockableDrivers(rows, lockedElsewhere, o.vehincleType);
      ChosenIsNearest(r, drivers, dist, rows, lockedElsewhere);
      AssignEffects(maxAttempts, s, id, candidates, lockable);
      if AssignTx(r, candidates, lockable).1.Some? {
        var chosen := AssignTx(r, candidates, lockable).1.value;
        var d: Driver :| d.id == chosen && Nearest(o, drivers, dist, rows, lockedElsewhere, d);
        assert CanBeTaken(o, drivers, rows, lockedElsewhere, d);
      }
    }
  }

  // ----- timeout

  /**
   * A timeout ends the offer to its driver, takes the key away and asks for
   * another dispatch while attempts are left; otherwise it changes nothing.
   */
  predicate TimeoutPromise(maxAttempts: int, s: System, s': System, id: string, driverId: DriverId) {
    if !OfferedToDriver(s, id, driverId) then s' == s
    else
      var o := s.orders[id].order;
      var again := o.dispatchAttempts + 1 < maxAttempts;
      && RowWritten(s, s', id,
                    o.(orderStatus := if again then Pending else Expired, assignedDriverId := None,
                       version := o.version + 1, dispatchAttempts := o.dispatchAttempts + 1),
                    SYSTEM)
      && s'.timeoutKeys == s.timeoutKeys - {id}
      && s'.pending == s.pending + (if again then NewJob(AssignDriver(id), s.retained) else {})
      && s'.retained == s.retained && s'.outbox == s.outbox
  }

  lemma TimeoutPromised(maxAttempts: int, s: System, id: string, driverId: DriverId)
    ensures TimeoutPromise(maxAttempts, s, HandleTimeout(maxAttempts, s, id, driverId), id, driverId)
  {
  }

  // ----- accept and reject

  /** The timeout job that the order's key names, if the queue lets it go. */
  function Removed(s: System, id: string, removeOk: bool): set<Job> {
    if removeOk && id in s.timeoutKeys then {s.timeoutKeys[id]} else {}
  }

  /** The answers to `acceptDispatch`, each with exactly the rows and callers that get it, and what it changes. */
  predicate AcceptPromise(s: System, s': System, id: string, driverId: DriverId, removeOk: bool,
                          answer: Result<AcceptResult>)
  {
    && (answer == Err(NotFound) <==> !Live(s, id))
    && (answer == Ok(AlreadyAccepted) <==>
          Live(s, id) && s.orders[id].order.orderStatus == DriverArriving
          && s.orders[id].order.assignedDriverId == Some(driverId))
    && (answer == Err(Forbidden) <==>
          Live(s, id) && s.orders[id].order.orderStatus == DriverAssigned
          && s.orders[id].order.assignedDriverId != Some(driverId))
    && (answer == Err(Conflict) <==>
          && Live(s, id) && s.orders[id].order.orderStatus != DriverAssigned
          && (s.orders[id].order.orderStatus == DriverArriving ==>
                s.orders[id].order.assignedDriverId != Some(driverId)))
    && (answer == Ok(DispatchAccepted) <==> OfferedToDriver(s, id, driverId))
    && if answer != Ok(DispatchAccepted) then s' == s
       else
         var o := s.orders[id].order;
         && RowWritten(s, s', id, o.(orderStatus := DriverArriving, version := o.version + 1), driverId)
         && s'.timeoutKeys == s.timeoutKeys - {id}
         && s'.pending == s.pending - Removed(s, id, removeOk)
         && s'.retained == s.retained - Removed(s, id, removeOk)
         && s'.outbox == s.outbox
  }

  lemma AcceptPromised(s: System, id: string, driverId: DriverId, removeOk: bool)
    ensures AcceptPromise(s, HandleAccept(s, id, driverId, removeOk), id, driverId, removeOk,
                          if id in s.orders then AcceptTx(s.orders[id], driverId).1 else Err(NotFound))
  {
  }

  /** The answers to `rejectDispatch`. */
  predicate RejectAnswer(maxAttempts: int, s: System, id: string, driverId: DriverId, answer: Result<RejectResult>) {
    && (answer == Err(NotFound) <==> !Live(s, id))
    && (answer == Ok(AlreadyHandled) <==> Live(s, id) && s.orders[id].order.orderStatus in {Pending, Expired})
    && (answer == Err(Forbidden) <==>
          Live(s, id) && s.orders[id].order.orderStatus == DriverAssigned
          && s.orders[id].order.assignedDriverId != Some(driverId))
    && (answer == Err(Conflict) <==>
          Live(s, id) && s.orders[id].order.orderStatus !in {Pending, Expired, DriverAssigned})
    && (answer == Ok(RejectRedispatch) <==>
          OfferedToDriver(s, id, driverId) && s.orders[id].order.dispatchAttempts + 1 < maxAttempts)
    && (answer == Ok(RejectExpired) <==>
          OfferedToDriver(s, id, driverId) && s.orders[id].order.dispatchAttempts + 1 >= maxAttempts)
  }

  /** What a rejection changes: nothing, unless it is the driver's to make. */
  predicate RejectEffect(maxAttempts: int, s: System, s': System, id: string, driverId: DriverId, removeOk: bool) {
    if !OfferedToDriver(s, id, driverId) then s' == s
    else
      var o := s.orders[id].order;
      var again := o.dispatchAttempts + 1 < maxAttempts;
      && RowWritten(s, s', id,
                    o.(orderStatus := if again then Pending else Expired, assignedDriverId := None,
                       version := o.version + 1, dispatchAttempts := o.dispatchAttempts + 1,
                       attemptedDriverIds := o.attemptedDriverIds + [driverId]),
                    driverId)
      && s'.timeoutKeys == s.timeoutKeys - {id}
      && s'.retained == s.retained - Removed(s, id, removeOk)
      && s'.pending == s.pending - Removed(s, id, removeOk)
                       + (if again then NewJob(AssignDriver(id), s'.retained) else {})
      && s'.outbox == s.outbox
  }

  predicate RejectPromise(maxAttempts: int, s: System, s': System, id: string, driverId: DriverId, removeOk: bool,
                          answer: Result<RejectResult>)
  {
    && RejectAnswer(maxAttempts, s, id, driverId, answer)
    && RejectEffect(maxAttempts, s, s', id, driverId, removeOk)
  }

  lemma RejectAnswered(maxAttempts: int, s: System, id: string, driverId: DriverId)
    ensures RejectAnswer(maxAttempts, s, id, driverId,
                         if id in s.orders then RejectTx(maxAttempts, s.orders[id], driverId).1 else Err(NotFound))
  {
  }

  lemma RejectPromised(maxAttempts: int, s: System, id: string, driverId: DriverId, removeOk: bool)
    ensures RejectPromise(maxAttempts, s, HandleReject(maxAttempts, s, id, driverId, removeOk), id, driverId, removeOk,
                          if id in s.orders then RejectTx(maxAttempts, s.orders[id], driverId).1 else Err(NotFound))
  {
    RejectAnswered(maxAttempts, s, id, driverId);
  }

  // ----- guarded writes

  /** The answers to a write guarded by the version `version` of a snapshot. */
  predicate GuardAnswer(s: System, id: string, version: int, answer: Result<()>) {
    && (answer == Err(Conflict) <==> id !in s.orders || s.orders[id].order.version != version)
    && (answer == Err(NotFound) <==>
          id in s.orders && s.orders[id].order.version == version && s.orders[id].order.deleted)
    && (answer == Ok(()) <==> Live(s, id) && s.orders[id].order.version == version)
  }

  /** The guarded update and the guarded reset. */
  lemma GuardedPromised(s: System, id: string, snapshot: Order, newStatus: OrderStatus, actorId: string)
    requires id in s.orders
    ensures GuardAnswer(s, id, snapshot.version, UpdateTx(s.orders[id], snapshot, newStatus, actorId).1)
    ensures GuardAnswer(s, id, snapshot.version, ReassignTx(s.orders[id], snapshot, actorId).1)
  {
  }

  // ----- update, reassign, delete, create

  /** The answers to `updateStatus` when nobody writes in between. */
  predicate UpdatePromise(s: System, s': System, id: string, newStatus: OrderStatus, user: JwtUser,
                          answer: Result<()>)
  {
    && (answer == Err(NotFound) <==> !Live(s, id))
    && (answer == Ok(()) <==> Live(s, id) && MayUpdate(s.orders[id].order, newStatus, user))
    && (answer == Err(Unprocessable) <==>
          && Live(s, id) && user.role == Admin && newStatus == Cancelled
          && s.orders[id].order.orderStatus in {PickedUp, InTransit})
    && (answer == Err(Forbidden) <==>
          && Live(s, id) && !MayUpdate(s.orders[id].order, newStatus, user)
          && !(user.role == Admin && newStatus == Cancelled && s.orders[id].order.orderStatus in {PickedUp, InTransit}))
    && if answer != Ok(()) then s' == s
       else
         var o := s.orders[id].order;
         && RowWritten(s, s', id, o.(orderStatus := newStatus, version := o.version + 1), user.userId)
         && s' == s.(orders := s'.orders)
  }

  function UpdateAnswer(s: System, id: string, newStatus: OrderStatus, user: JwtUser): Result<()> {
    if id !in s.orders || s.orders[id].order.deleted then Err(NotFound)
    else
      match UpdateCheck(s.orders[id].order, newStatus, user)
      case Pass => Ok(())
      case Fail(error) => Err(error)
  }

  lemma UpdatePromised(s: System, id: string, newStatus: OrderStatus, user: JwtUser)
    ensures UpdatePromise(s, HandleUpdate(s, id, newStatus, user), id, newStatus, user,
                          UpdateAnswer(s, id, newStatus, user))
  {
    if Live(s, id) {
      UpdateCheckExact(s.orders[id].order, newStatus, user);
    }
  }

  /**
   * Reassigning resets an EXPIRED order, leaves the row of a PENDING one alone,
   * and has an assign job waiting for either, unless its id is retained.
   */
  predicate ReassignPromise(s: System, s': System, id: string, user: JwtUser, answer: Result<()>) {
    && (answer == Err(NotFound) <==> !Live(s, id))
    && (answer == Ok(()) <==> Live(s, id) && s.orders[id].order.orderStatus in {Pending, Expired})
    && (answer == Err(Unprocessable) <==> Live(s, id) && s.orders[id].order.orderStatus !in {Pending, Expired})
    && if answer != Ok(()) then s' == s
       else
         var o := s.orders[id].order;
         && (if o.orderStatus == Pending then s'.orders == s.orders
             else RowWritten(s, s', id,
                             o.(orderStatus := Pending, assignedDriverId := None, dispatchAttempts := 0,
                                attemptedDriverIds := [], version := o.version + 1),
                             user.userId))
         && s'.pending == s.pending + NewJob(AssignDriver(id), s.retained)
         && s' == s.(orders := s'.orders, pending := s'.pending)
  }

  function ReassignAnswer(s: System, id: string): Result<()> {
    if id !in s.orders || s.orders[id].order.deleted then Err(NotFound)
    else if s.orders[id].order.orderStatus !in {Pending, Expired} then Err(Unprocessable)
    else Ok(())
  }

  lemma ReassignPromised(s: System, id: string, user: JwtUser)
    ensures ReassignPromise(s, HandleReassign(s, id, user), id, user, ReassignAnswer(s, id))
  {
  }

  /** Orders under way are not deleted; all others are, and keep their rows otherwise. */
  predicate DeletePromise(s: System, s': System, id: string, answer: Result<()>) {
    && (answer == Err(NotFound) <==> !Live(s, id))
    && (answer == Err(Unprocessable) <==>
          Live(s, id) && s.orders[id].order.orderStatus in {DriverAssigned, DriverArriving, PickedUp, InTransit})
    && (answer == Ok(()) <==>
          Live(s, id) && s.orders[id].order.orderStatus !in {DriverAssigned, DriverArriving, PickedUp, InTransit})
    && if answer != Ok(()) then s' == s
       else
         var r := s.orders[id];
         s' == s.(orders := s.orders[id := Record(r.order.(deleted := true), r.history)])
  }

  function DeleteAnswer(s: System, id: string): Result<()> {
    if id !in s.orders || s.orders[id].order.deleted then Err(NotFound)
    else if Active(s.orders[id].order.orderStatus) then Err(Unprocessable)
    else Ok(())
  }

  lemma DeletePromised(s: System, id: string)
    ensures DeletePromise(s, HandleDelete(s, id), id, DeleteAnswer(s, id))
  {
  }

  /** A new order is PENDING, as asked for, with its first history entry and its first outbox row. */
  predicate CreatePromise(s: System, s': System, id: string, customerId: string, vehincleType: VehincleType) {
    && s'.outbox == s.outbox + [OutboxEvent("dispatch.trigger", Some(id), OutboxPending, 0)]
    && s' == s.(orders := s'.orders, outbox := s'.outbox)
    && id in s'.orders && s'.orders == s.orders[id := s'.orders[id]]
    && s'.orders[id].history == [HistoryEntry(None, Pending, customerId)]
    && var o := s'.orders[id].order;
       && o.customerId == customerId && o.vehincleType == vehincleType
       && o.orderStatus == Pending && o.assignedDriverId == None
       && o.dispatchAttempts == 0 && o.attemptedDriverIds == [] && o.version == 1 && !o.deleted
  }

  lemma CreatePromised(maxAttempts: int, s: System, id: string, customerId: string, vehincleType: VehincleType)
    requires FreshId(s, id)
    ensures CreatePromise(s, Step(maxAttempts, s, Create(id, customerId, vehincleType)), id, customerId, vehincleType)
  {
  }

  // ----- one outbox row

  /** The row asks for a dispatch, and the queue takes the job. */
  predicate Dispatched(row: OutboxEvent, luck: Luck) {
    row.eventType == "dispatch.trigger" && row.payload.Some? && luck.triggerOk
  }

  /**
   * Handling a copy of a row. It is PROCESSED when nothing fails; what fails
   * costs one attempt, and the fifth makes it FAILED; without a save the table
   * stays as it was, and the caller learns of it.
   */
  predicate RowPromise(s: System, s': System, i: nat, row: OutboxEvent, luck: Luck, threw: bool)
    requires i < |s.outbox|
  {
    && s'.pending == s.pending
                     + (if Dispatched(row, luck) then NewJob(AssignDriver(row.payload.value), s.retained) else {})
    && s' == s.(pending := s'.pending, outbox := s'.outbox)
    && (!DispatchFails(row, luck) && luck.saveOk ==>
          !threw && s'.outbox == s.outbox[i := row.(status := OutboxProcessed)])
    && (!DispatchFails(row, luck) && !luck.saveOk && luck.secondSaveOk ==>
          !threw && s'.outbox == s.outbox[i := OneMoreAttempt(row, OutboxProcessed)])
    && (DispatchFails(row, luck) && luck.secondSaveOk ==>
          !threw && s'.outbox == s.outbox[i := OneMoreAttempt(row, row.status)])
    && ((DispatchFails(row, luck) || !luck.saveOk) && !luck.secondSaveOk ==>
          threw && s'.outbox == s.outbox)
  }

  lemma RowPromised(s: System, i: nat, row: OutboxEvent, luck: Luck)
    requires i < |s.outbox|
    ensures RowPromise(s, HandleCopy(s, i, row, luck), i, row, luck, RowAfter(row, luck).None?)
  {
  }
}
