/**
 * The order row, its audit entries, and the two checks that `updateStatus`
 * makes on an unlocked read before it writes.
 */
module Orders {
  import opened Wrappers

  datatype OrderStatus =
    | Pending
    | DriverAssigned
    | DriverArriving
    | PickedUp
    | InTransit
    | Delivered
    | Cancelled
    | Failed
    | Expired

  datatype VehincleType = Bike | Car | Van | Truck

  datatype UserRole = Customer | DriverRole | Admin

  datatype JwtUser = JwtUser(userId: string, role: UserRole, driverProfileId: Option<string>)

  /** Driver ids are primary keys (UUIDs), hence never the empty string. */
  type DriverId = s: string | s != "" witness "d"

  /** The columns of an order that the two services read or write. */
  datatype Order = Order(
    customerId: string,
    vehincleType: VehincleType,
    orderStatus: OrderStatus,
    assignedDriverId: Option<string>,
    dispatchAttempts: nat,
    attemptedDriverIds: seq<string>,
    version: int,
    deleted: bool)

  datatype HistoryEntry = HistoryEntry(
    previousStatus: Option<OrderStatus>,
    newStatus: OrderStatus,
    actorId: string)

  /** An order row together with its rows of the status history table, oldest first. */
  datatype Record = Record(order: Order, history: seq<HistoryEntry>)

  predicate IsTerminal(s: OrderStatus) {
    s in {Delivered, Cancelled, Failed, Expired}
  }

  // ORDER_TRANSITIONS
  function OrderTransitions(s: OrderStatus): seq<OrderStatus> {
    match s
    case Pending => [DriverAssigned, Cancelled, Expired]
    case DriverAssigned => [DriverArriving, Cancelled]
    case DriverArriving => [PickedUp, Cancelled]
    case PickedUp => [InTransit]
    case InTransit => [Delivered, Failed]
    case Delivered => []
    case Cancelled => []
    case Failed => []
    case Expired => []
  }

  function DriverAllowedTransitions(s: OrderStatus): seq<OrderStatus> {
    match s
    case DriverAssigned => [DriverArriving]
    case DriverArriving => [PickedUp]
    case PickedUp => [InTransit]
    case InTransit => [Delivered, Failed]
    case _ => []
  }

  /** A JavaScript string or null that the source tests with `!x`. */
  predicate Falsy(s: Option<string>) {
    s.None? || s.value == ""
  }

  function ValidateActor(order: Order, newStatus: OrderStatus, user: JwtUser): Outcome {
    if newStatus in {DriverAssigned, Expired} then Fail(Forbidden)
    else if IsTerminal(order.orderStatus) then Fail(Forbidden)
    else
      match user.role
      case Admin =>
        if newStatus == Cancelled then Pass
        else if newStatus == Failed && order.orderStatus == InTransit then Pass
        else Fail(Forbidden)
      case Customer =>
        if order.customerId != user.userId then Fail(Forbidden)
        else if newStatus != Cancelled then Fail(Forbidden)
        else if order.orderStatus !in {Pending, DriverAssigned} then Fail(Forbidden)
        else Pass
      case DriverRole =>
        if Falsy(user.driverProfileId) then Fail(Forbidden)
        else if Falsy(order.assignedDriverId) then Fail(Forbidden)
        else if order.assignedDriverId != user.driverProfileId then Fail(Forbidden)
        else if newStatus !in DriverAllowedTransitions(order.orderStatus) then Fail(Forbidden)
        else Pass
  }

  function ValidateTransition(currentStatus: OrderStatus, newStatus: OrderStatus): Outcome {
    if newStatus in OrderTransitions(currentStatus) then Pass else Fail(Unprocessable)
  }

  /** Both checks, in the order `updateStatus` makes them. */
  function UpdateCheck(order: Order, newStatus: OrderStatus, user: JwtUser): Outcome {
    var actor := ValidateActor(order, newStatus, user);
    if actor.Fail? then actor else ValidateTransition(order.orderStatus, newStatus)
  }

  /**
   * The transition table: the ten edges there are. The five stages of a delivery
   * follow one another, goods not yet picked up can be cancelled, an order can
   * expire while it waits and fail while it is in transit.
   */
  lemma TransitionTable(a: OrderStatus, b: OrderStatus)
    ensures ValidateTransition(a, b) == Pass <==>
              || (a, b) in {(Pending, DriverAssigned), (DriverAssigned, DriverArriving), (DriverArriving, PickedUp),
                            (PickedUp, InTransit), (InTransit, Delivered)}
              || (b == Cancelled && a in {Pending, DriverAssigned, DriverArriving})
              || (a, b) in {(Pending, Expired), (InTransit, Failed)}
    ensures ValidateTransition(a, b) in {Pass, Fail(Unprocessable)}
  {
    match a
    case _ =>
  }

  /** What each role may do to an order, said without reference to either check. */
  predicate MayUpdate(order: Order, newStatus: OrderStatus, user: JwtUser) {
    match user.role
    case Admin =>
      || (newStatus == Cancelled && order.orderStatus in {Pending, DriverAssigned, DriverArriving})
      || (newStatus == Failed && order.orderStatus == InTransit)
    case Customer =>
      && order.customerId == user.userId
      && newStatus == Cancelled
      && order.orderStatus in {Pending, DriverAssigned}
    case DriverRole =>
      && !Falsy(user.driverProfileId)
      && order.assignedDriverId == user.driverProfileId
      && (order.orderStatus, newStatus) in {
           (DriverAssigned, DriverArriving),
           (DriverArriving, PickedUp),
           (PickedUp, InTransit),
           (InTransit, Delivered),
           (InTransit, Failed)}
  }

  /**
   * The two checks admit exactly the policy. The only requests that pass the
   * actor check and are stopped by the transition table (422, not 403) are an
   * administrator's cancellations of goods already picked up.
   */
  lemma UpdateCheckExact(order: Order, newStatus: OrderStatus, user: JwtUser)
    ensures UpdateCheck(order, newStatus, user) == Pass <==> MayUpdate(order, newStatus, user)
    ensures UpdateCheck(order, newStatus, user) == Fail(Unprocessable) <==>
            user.role == Admin && newStatus == Cancelled && order.orderStatus in {PickedUp, InTransit}
    ensures UpdateCheck(order, newStatus, user) in {Pass, Fail(Unprocessable), Fail(Forbidden)}
    ensures ValidateActor(order, newStatus, user) in {Pass, Fail(Forbidden)}
  {
    match user.role
    case Admin =>
    case Customer =>
    case DriverRole =>
      match order.orderStatus
      case _ =>
  }
}
