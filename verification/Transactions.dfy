/**
 * The database transactions that write an order: the row-locked ones of the
 * dispatch service and the compare-and-swap ones of the orders service. Each
 * maps the record it finds to the record it leaves and to what it reports.
 */
module Transactions {
  import opened Wrappers
  import opened Orders
  import opened NearestDrivers

  const SYSTEM := "system"

  datatype TimeoutResult = Skip | TimeoutExpired | TimeoutRedispatch
  datatype AcceptResult = AlreadyAccepted | DispatchAccepted
  datatype RejectResult = AlreadyHandled | RejectExpired | RejectRedispatch

  /** `MAX_DISPATCH_ATTEMPTS` as the configuration helper reads it; `None` is a value that is not a finite number. */
  function GetPositiveInt(parsed: Option<real>, fallback: int): int {
    if parsed.Some? && parsed.value > 0.0 then parsed.value.Floor else fallback
  }

  /** The helper keeps its name's promise exactly when the variable is not a fraction below one. */
  lemma PositiveIntExact(parsed: Option<real>, fallback: int)
    requires fallback >= 1
    ensures GetPositiveInt(parsed, fallback) >= 1 <==> !(parsed.Some? && 0.0 < parsed.value < 1.0)
  {
    if parsed.Some? && parsed.value >= 1.0 {
      assert parsed.value.Floor >= 1;
    }
  }

  lemma PositiveIntCanBeZero()
    ensures GetPositiveInt(Some(0.5), 3) == 0
  {
    assert 0.5.Floor == 0;
  }

  // createOrder
  function CreateOrder(customerId: string, vehincleType: VehincleType): Record {
    Record(Order(customerId, vehincleType, Pending, None, 0, [], 1, false),
           [HistoryEntry(None, Pending, customerId)])
  }

  /** Save the row and, in the same transaction, one history entry that leaves the given status. */
  function Save(r: Record, previous: OrderStatus, order: Order, actorId: string): Record {
    Record(order, r.history + [HistoryEntry(Some(previous), order.orderStatus, actorId)])
  }

  predicate ShouldSkipAssignment(o: Order) {
    if IsTerminal(o.orderStatus) then true else o.orderStatus != Pending
  }

  /** The elements of a list in order of first occurrence, as iterating over a `Set` built from it gives them. */
  function Distinct(s: seq<string>): (r: seq<string>)
    ensures forall x :: x in r <==> x in s
    ensures forall i, j :: 0 <= i < j < |r| ==> r[i] != r[j]
  {
    if s == [] then []
    else
      var front := Distinct(s[..|s| - 1]);
      var last := s[|s| - 1];
      assert s == s[..|s| - 1] + [last];
      if last in front then front else front + [last]
  }

  // assignDriverWithLock
  function AssignTx(r: Record, candidates: seq<DriverId>, lockable: set<DriverId>): (Record, Option<DriverId>) {
    var o := r.order;
    if o.deleted || ShouldSkipAssignment(o) then (r, None)
    else
      var attempted := Distinct(NonEmpty(o.attemptedDriverIds));
      match FirstFree(candidates, attempted, lockable)
      case None => (r, None)
      case Some(d) =>
        (Save(r, o.orderStatus,
              o.(assignedDriverId := Some(d),
                 orderStatus := DriverAssigned,
                 dispatchAttempts := o.dispatchAttempts + 1,
                 version := o.version + 1,
                 attemptedDriverIds := attempted + [d]),
              SYSTEM),
         Some(d))
  }

  lemma {:induction false} SameExclusions(candidates: seq<DriverId>, a: seq<string>, b: seq<string>,
                                          lockable: set<DriverId>)
    requires forall x :: x in a <==> x in b
    ensures FirstFree(candidates, a, lockable) == FirstFree(candidates, b, lockable)
  {
    if candidates != [] {
      SameExclusions(candidates[1..], a, b, lockable);
    }
  }

  /**
   * A successful assignment goes to the nearest driver that can still be taken,
   * and an open order is left unassigned only when no driver can be taken:
   * candidates come from any earlier read, exclusions from the locked row.
   */
  lemma AssignPicksNearest(r: Record, snapshot: Order, drivers: seq<Driver>, dist: DistanceFrom,
                           lockable: set<DriverId>)
    requires !r.order.deleted && r.order.orderStatus == Pending
    ensures
      var excluded := NonEmpty(r.order.attemptedDriverIds);
      var (r', chosen) := AssignTx(r, Ids(FindNearestEligibleDrivers(snapshot, drivers, dist)), lockable);
      match chosen
      case None => r' == r && forall y :: !Takeable(snapshot, excluded, drivers, lockable, y)
      case Some(id) =>
        && r'.order.assignedDriverId == Some(id)
        && exists d: Driver :: d.id == id && NearestTakeable(snapshot, excluded, drivers, dist, lockable, d)
  {
    var excluded := NonEmpty(r.order.attemptedDriverIds);
    var candidates := Ids(FindNearestEligibleDrivers(snapshot, drivers, dist));
    SameExclusions(candidates, Distinct(excluded), excluded, lockable);
    NearestFirst(snapshot, excluded, drivers, dist, lockable);
  }

  /**
   * Whatever the candidates were when they were read: the driver who is assigned
   * is, under both locks, online, not suspended, of the vehicle type of the
   * order, and has not been offered it before.
   */
  lemma AssignedIsEligible(r: Record, candidates: seq<DriverId>, drivers: map<DriverId, Driver>,
                           lockedElsewhere: set<DriverId>)
    ensures
      var (r', chosen) := AssignTx(r, candidates, LockableDrivers(drivers, lockedElsewhere, r.order.vehincleType));
      chosen.Some? ==>
        && chosen.value in candidates && chosen.value !in lockedElsewhere
        && chosen.value in drivers
        && drivers[chosen.value].onlineStatus && !drivers[chosen.value].isSuspended
        && drivers[chosen.value].vehincleType == r'.order.vehincleType
        && chosen.value !in r.order.attemptedDriverIds
  {
    var lockable := LockableDrivers(drivers, lockedElsewhere, r.order.vehincleType);
    FirstFreeIsFirst(candidates, Distinct(NonEmpty(r.order.attemptedDriverIds)), lockable);
  }

  // expireOrder
  function ExpireTx(r: Record): Record {
    var o := r.order;
    if o.deleted || ShouldSkipAssignment(o) then r
    else
      Save(r, o.orderStatus,
           o.(orderStatus := Expired,
              assignedDriverId := None,
              dispatchAttempts := o.dispatchAttempts + 1,
              version := o.version + 1),
           SYSTEM)
  }

  // handleDispatchTimeout
  function TimeoutTx(maxAttempts: int, r: Record, driverId: DriverId): (Record, TimeoutResult) {
    var o := r.order;
    if o.deleted || IsTerminal(o.orderStatus) || o.orderStatus != DriverAssigned || o.assignedDriverId != Some(driverId)
    then (r, Skip)
    else
      var o' := o.(assignedDriverId := None, dispatchAttempts := o.dispatchAttempts + 1, version := o.version + 1);
      if o'.dispatchAttempts >= maxAttempts
      then (Save(r, o.orderStatus, o'.(orderStatus := Expired), SYSTEM), TimeoutExpired)
      else (Save(r, o.orderStatus, o'.(orderStatus := Pending), SYSTEM), TimeoutRedispatch)
  }

  // acceptDispatch
  function AcceptTx(r: Record, driverId: DriverId): (Record, Result<AcceptResult>) {
    var o := r.order;
    if o.deleted then (r, Err(NotFound))
    else if o.orderStatus == DriverArriving && o.assignedDriverId == Some(driverId) then (r, Ok(AlreadyAccepted))
    else if o.orderStatus != DriverAssigned then (r, Err(Conflict))
    else if o.assignedDriverId != Some(driverId) then (r, Err(Forbidden))
    else
      (Save(r, o.orderStatus, o.(orderStatus := DriverArriving, version := o.version + 1), driverId),
       Ok(DispatchAccepted))
  }

  // rejectDispatch
  function RejectTx(maxAttempts: int, r: Record, driverId: DriverId): (Record, Result<RejectResult>) {
    var o := r.order;
    if o.deleted then (r, Err(NotFound))
    else if o.orderStatus == Pending || o.orderStatus == Expired then (r, Ok(AlreadyHandled))
    else if o.orderStatus != DriverAssigned then (r, Err(Conflict))
    else if o.assignedDriverId != Some(driverId) then (r, Err(Forbidden))
    else
      var o' := o.(assignedDriverId := None,
                   dispatchAttempts := o.dispatchAttempts + 1,
                   version := o.version + 1,
                   attemptedDriverIds := o.attemptedDriverIds + [driverId]);
      if o'.dispatchAttempts >= maxAttempts
      then (Save(r, o.orderStatus, o'.(orderStatus := Expired), driverId), Ok(RejectExpired))
      else (Save(r, o.orderStatus, o'.(orderStatus := Pending), driverId), Ok(RejectRedispatch))
  }

  /**
   * The write half of `updateStatus`, given the row as it was read without a
   * lock. The guard of the UPDATE looks only at id and version; a row deleted
   * in the meantime is then not found on re-reading, which rolls back.
   */
  function UpdateTx(r: Record, snapshot: Order, newStatus: OrderStatus, actorId: string): (Record, Result<()>) {
    if r.order.version != snapshot.version then (r, Err(Conflict))
    else if r.order.deleted then (r, Err(NotFound))
    else
      (Save(r, snapshot.orderStatus, r.order.(orderStatus := newStatus, version := snapshot.version + 1), actorId),
       Ok(()))
  }

  /** The write half of `reassignOrder`, for a snapshot that was read as EXPIRED. */
  function ReassignTx(r: Record, snapshot: Order, actorId: string): (Record, Result<()>) {
    if r.order.version != snapshot.version then (r, Err(Conflict))
    else if r.order.deleted then (r, Err(NotFound))
    else
      (Save(r, Expired,
            r.order.(orderStatus := Pending,
                     assignedDriverId := None,
                     dispatchAttempts := 0,
                     attemptedDriverIds := [],
                     version := snapshot.version + 1),
            actorId),
       Ok(()))
  }

  /** The statuses in which `softDelete` refuses, judged on the row it read. */
  predicate Active(s: OrderStatus) {
    s in {DriverAssigned, DriverArriving, PickedUp, InTransit}
  }

  function DeleteTx(r: Record): Record {
    r.(order := r.order.(deleted := true))
  }
}
