/**
 * The life of one order under arbitrary interleaving. Every row-locked
 * transaction and every compare-and-swap is one atomic step; every unlocked
 * read is a step of its own that leaves its snapshot in a handler in flight;
 * assign jobs may start at any moment and timeout jobs be delivered at any
 * moment, late or repeatedly. Beside the row the world records every offer
 * made, grouped into epochs: an epoch runs from the creation of the order, or
 * from a reassignment out of EXPIRED, to the next such reassignment.
 */
module Protocol {
  import opened Wrappers
  import opened Orders
  import opened Transactions

  datatype Resolution = Open | Accepted | Rejected | TimedOut | Withdrawn

  datatype Offer = Offer(driver: string, resolution: Resolution)

  /** A timeout job, and the offer it was created for: its epoch and its place there. */
  datatype TimeoutJob = TimeoutJob(driverId: DriverId, epoch: nat, index: nat)

  datatype Handler =
    | Assigning(snapshot: Order)
    | Locking(candidates: seq<DriverId>)
    | Expiring
    | Scheduling(job: TimeoutJob)
    | Updating(snapshot: Order, newStatus: OrderStatus, user: JwtUser)
    | Reassigning(snapshot: Order, user: JwtUser)
    | Deleting(snapshot: Order)

  datatype World = World(rec: Record, inFlight: multiset<Handler>, jobs: set<TimeoutJob>, epochs: seq<seq<Offer>>)

  datatype Event =
    | ReadForAssign
    | FindCandidates(snapshot: Order, candidates: seq<DriverId>)
    | LockAndAssign(candidates: seq<DriverId>, lockable: set<DriverId>)
    | LockAndExpire
    | AddTimeoutJob(job: TimeoutJob)
    | DeliverTimeout(job: TimeoutJob)
    | AcceptDispatch(driverId: DriverId)
    | RejectDispatch(driverId: DriverId)
    | ReadForUpdate(newStatus: OrderStatus, user: JwtUser)
    | CommitUpdate(snapshot: Order, newStatus: OrderStatus, user: JwtUser)
    | ReadForReassign(user: JwtUser)
    | CommitReassign(snapshot: Order, user: JwtUser)
    | ReadForDelete
    | CommitDelete(snapshot: Order)

  function Current(epochs: seq<seq<Offer>>): seq<Offer> {
    if epochs == [] then [] else epochs[|epochs| - 1]
  }

  function LastOffer(epochs: seq<seq<Offer>>): Offer
    requires Current(epochs) != []
  {
    Current(epochs)[|Current(epochs)| - 1]
  }

  function SetCurrent(epochs: seq<seq<Offer>>, offers: seq<Offer>): seq<seq<Offer>> {
    if epochs == [] then [offers] else epochs[..|epochs| - 1] + [offers]
  }

  function ResolveLast(offers: seq<Offer>, how: Resolution): seq<Offer> {
    if offers == [] then []
    else offers[..|offers| - 1] + [offers[|offers| - 1].(resolution := how)]
  }

  /** How the offer log follows a write of the row; `how` says by what an open offer ended. */
  function Track(epochs: seq<seq<Offer>>, o: Order, o': Order, how: Resolution): seq<seq<Offer>> {
    if o.version == o'.version then epochs
    else if o.orderStatus == DriverAssigned then SetCurrent(epochs, ResolveLast(Current(epochs), how))
    else if o'.orderStatus == DriverAssigned && o'.assignedDriverId.Some?
    then SetCurrent(epochs, Current(epochs) + [Offer(o'.assignedDriverId.value, Open)])
    else if o.orderStatus == Expired then epochs + [[]]
    else epochs
  }

  function Commit(w: World, rec: Record, how: Resolution): World {
    w.(rec := rec, epochs := Track(w.epochs, w.rec.order, rec.order, how))
  }

  function Start(w: World, h: Handler): World {
    w.(inFlight := w.inFlight + multiset{h})
  }

  function Finish(w: World, h: Handler): World {
    w.(inFlight := w.inFlight - multiset{h})
  }

  function Init(customerId: string, vehincleType: VehincleType): World {
    World(CreateOrder(customerId, vehincleType), multiset{}, {}, [[]])
  }

  /** One step; an event that is not possible leaves the world as it is. */
  function Step(maxAttempts: int, w: World, e: Event): World {
    var o := w.rec.order;
    match e
    case ReadForAssign =>
      if o.deleted || ShouldSkipAssignment(o) then w
      else if o.dispatchAttempts >= maxAttempts then Start(w, Expiring)
      else Start(w, Assigning(o))
    case FindCandidates(s, candidates) =>
      var h := Assigning(s);
      if h !in w.inFlight then w
      else Start(Finish(w, h), if candidates == [] then Expiring else Locking(candidates))
    case LockAndAssign(candidates, lockable) =>
      var h := Locking(candidates);
      if h !in w.inFlight then w
      else
        var (rec, driver) := AssignTx(w.rec, candidates, lockable);
        if driver.None? then Start(Finish(w, h), Expiring)
        else
          var job := TimeoutJob(driver.value, if w.epochs == [] then 0 else |w.epochs| - 1, |Current(w.epochs)|);
          Start(Commit(Finish(w, h), rec, Open), Scheduling(job))
    case LockAndExpire =>
      if Expiring !in w.inFlight then w
      else Commit(Finish(w, Expiring), ExpireTx(w.rec), Open)
    case AddTimeoutJob(job) =>
      var h := Scheduling(job);
      if h !in w.inFlight then w
      else Finish(w, h).(jobs := w.jobs + {job})
    case DeliverTimeout(job) =>
      if job !in w.jobs then w
      else Commit(w, TimeoutTx(maxAttempts, w.rec, job.driverId).0, TimedOut)
    case AcceptDispatch(driverId) =>
      Commit(w, AcceptTx(w.rec, driverId).0, Accepted)
    case RejectDispatch(driverId) =>
      Commit(w, RejectTx(maxAttempts, w.rec, driverId).0, Rejected)
    case ReadForUpdate(newStatus, user) =>
      if o.deleted || UpdateCheck(o, newStatus, user).Fail? then w
      else Start(w, Updating(o, newStatus, user))
    case CommitUpdate(s, newStatus, user) =>
      var h := Updating(s, newStatus, user);
      if h !in w.inFlight then w
      else
        Commit(Finish(w, h), UpdateTx(w.rec, s, newStatus, user.userId).0,
               if newStatus == DriverArriving then Accepted else Withdrawn)
    case ReadForReassign(user) =>
      if o.deleted || o.orderStatus != Expired then w
      else Start(w, Reassigning(o, user))
    case CommitReassign(s, user) =>
      var h := Reassigning(s, user);
      if h !in w.inFlight then w
      else Commit(Finish(w, h), ReassignTx(w.rec, s, user.userId).0, Open)
    case ReadForDelete =>
      if o.deleted || Active(o.orderStatus) then w
      else Start(w, Deleting(o))
    case CommitDelete(s) =>
      var h := Deleting(s);
      if h !in w.inFlight then w
      else Commit(Finish(w, h), DeleteTx(w.rec), Open)
  }

  function Run(maxAttempts: int, customerId: string, vehincleType: VehincleType, es: seq<Event>): World {
    if es == [] then Init(customerId, vehincleType)
    else Step(maxAttempts, Run(maxAttempts, customerId, vehincleType, es[..|es| - 1]), es[|es| - 1])
  }

  // ----- what holds in every reachable world

  /** The edges that the services take beside those of the transition table. */
  predicate DispatchEdge(a: OrderStatus, b: OrderStatus) {
    (a, b) in {(DriverAssigned, Pending), (DriverAssigned, Expired), (Expired, Pending)}
  }

  predicate LegalEntry(e: HistoryEntry) {
    && e.previousStatus.Some?
    && var a, b := e.previousStatus.value, e.newStatus;
       && (b in OrderTransitions(a) || DispatchEdge(a, b))
       && (a == Pending && b != Cancelled ==> e.actorId == SYSTEM)
  }

  predicate AuditOk(r: Record) {
    && |r.history| >= 1
    && r.order.version == |r.history|
    && r.history[0] == HistoryEntry(None, Pending, r.order.customerId)
    && r.history[|r.history| - 1].newStatus == r.order.orderStatus
    && (forall i :: 1 <= i < |r.history| ==> LegalEntry(r.history[i]))
    && (forall i :: 1 <= i < |r.history| ==> r.history[i].previousStatus == Some(r.history[i - 1].newStatus))
  }

  /** The attempt counter as a function of the number `n` of offers of the current epoch. */
  predicate AttemptsOk(maxAttempts: int, o: Order, n: nat) {
    var a := o.dispatchAttempts;
    match o.orderStatus
    case Pending => a == 2 * n && a < maxAttempts
    case Expired => (a == 2 * n && maxAttempts <= a <= maxAttempts + 1) || (a == 2 * n + 1 && a <= maxAttempts)
    case Cancelled => (a == 2 * n && a < maxAttempts) || (a == 2 * n - 1 && a <= maxAttempts)
    case _ => a == 2 * n - 1 && a <= maxAttempts
  }

  predicate DistinctDrivers(offers: seq<Offer>) {
    forall i, j :: 0 <= i < j < |offers| ==> offers[i].driver != offers[j].driver
  }

  function Drivers(offers: seq<Offer>): seq<string> {
    seq(|offers|, i requires 0 <= i < |offers| => offers[i].driver)
  }

  /** The driver of the last offer, if that driver has rejected it. */
  function LastRefusal(offers: seq<Offer>): seq<string> {
    if offers != [] && offers[|offers| - 1].resolution == Rejected then [offers[|offers| - 1].driver] else []
  }

  /**
   * `attemptedDriverIds` lists the drivers offered the order this epoch, in the
   * order of the offers; a rejection appends its driver again, and the next
   * assignment takes the duplicate out.
   */
  predicate AttemptedOk(attempted: seq<string>, offers: seq<Offer>) {
    "" !in attempted && attempted == Drivers(offers) + LastRefusal(offers)
  }

  predicate HasDriver(s: OrderStatus) {
    s in {DriverAssigned, DriverArriving, PickedUp, InTransit, Delivered, Failed}
  }

  predicate AssigneeOk(o: Order, epochs: seq<seq<Offer>>) {
    && (o.orderStatus in {Pending, Expired} ==> o.assignedDriverId.None?)
    && (HasDriver(o.orderStatus) ==>
          && Current(epochs) != []
          && o.assignedDriverId == Some(LastOffer(epochs).driver)
          && LastOffer(epochs).resolution == (if o.orderStatus == DriverAssigned then Open else Accepted))
  }

  /** Only the newest offer can be open, and only while the order awaits its driver. */
  predicate OffersOk(o: Order, epochs: seq<seq<Offer>>) {
    && epochs != []
    && (forall k :: 0 <= k < |epochs| ==> DistinctDrivers(epochs[k]))
    && (forall k, i :: 0 <= k < |epochs| && 0 <= i < |epochs[k]| && epochs[k][i].resolution == Open ==>
          k == |epochs| - 1 && i == |epochs[k]| - 1 && o.orderStatus == DriverAssigned)
  }

  predicate EpochSizesOk(maxAttempts: int, epochs: seq<seq<Offer>>) {
    forall k :: 0 <= k < |epochs| ==> 2 * |epochs[k]| <= maxAttempts + 1
  }

  function CountEdge(h: seq<HistoryEntry>, a: OrderStatus, b: OrderStatus): nat {
    if h == [] then 0
    else
      var last := h[|h| - 1];
      CountEdge(h[..|h| - 1], a, b) + (if last.previousStatus == Some(a) && last.newStatus == b then 1 else 0)
  }

  function CountIn(offers: seq<Offer>, how: Resolution): nat {
    if offers == [] then 0
    else CountIn(offers[..|offers| - 1], how) + (if offers[|offers| - 1].resolution == how then 1 else 0)
  }

  function CountAll(epochs: seq<seq<Offer>>, how: Resolution): nat {
    if epochs == [] then 0 else CountAll(epochs[..|epochs| - 1], how) + CountIn(Current(epochs), how)
  }

  function TotalOffers(epochs: seq<seq<Offer>>): nat {
    if epochs == [] then 0 else TotalOffers(epochs[..|epochs| - 1]) + |Current(epochs)|
  }

  /** Offers ended in some way are as many as the audit entries that say so. */
  predicate ResolutionsOk(h: seq<HistoryEntry>, epochs: seq<seq<Offer>>) {
    && CountAll(epochs, Accepted) == CountEdge(h, DriverAssigned, DriverArriving)
    && CountAll(epochs, Rejected) + CountAll(epochs, TimedOut)
       == CountEdge(h, DriverAssigned, Pending) + CountEdge(h, DriverAssigned, Expired)
    && CountAll(epochs, Withdrawn) == CountEdge(h, DriverAssigned, Cancelled)
  }

  /** The audit trail and the offer log tell the same story. */
  predicate CountsOk(r: Record, epochs: seq<seq<Offer>>) {
    && |epochs| == 1 + CountEdge(r.history, Expired, Pending)
    && TotalOffers(epochs) == CountEdge(r.history, Pending, DriverAssigned)
    && ResolutionsOk(r.history, epochs)
    && CountAll(epochs, Open) == (if r.order.orderStatus == DriverAssigned then 1 else 0)
  }

  /** Successful writes since the order was created or last reset. */
  function SinceReset(h: seq<HistoryEntry>): nat {
    if h == [] then 0
    else if h[|h| - 1].previousStatus in {None, Some(Expired)} then 0
    else 1 + SinceReset(h[..|h| - 1])
  }

  /** A bound on the writes still to come before the next reset. */
  function Rank(maxAttempts: int, o: Order): int {
    match o.orderStatus
    case Pending => 3 + 2 * ((maxAttempts - o.dispatchAttempts + 1) / 2)
    case DriverAssigned => 4 + 2 * ((maxAttempts - o.dispatchAttempts) / 2)
    case DriverArriving => 3
    case PickedUp => 2
    case InTransit => 1
    case _ => 0
  }

  predicate BudgetOk(maxAttempts: int, r: Record) {
    SinceReset(r.history) + Rank(maxAttempts, r.order) <= 2 * ((maxAttempts + 1) / 2) + 3
  }

  predicate Good(maxAttempts: int, r: Record, epochs: seq<seq<Offer>>) {
    && AuditOk(r)
    && OffersOk(r.order, epochs)
    && AttemptsOk(maxAttempts, r.order, |Current(epochs)|)
    && AttemptedOk(r.order.attemptedDriverIds, Current(epochs))
    && AssigneeOk(r.order, epochs)
    && EpochSizesOk(maxAttempts, epochs)
    && CountsOk(r, epochs)
    && BudgetOk(maxAttempts, r)
  }

  /** `s` is an earlier state of the row, read before any deletion, and the row itself if the version says so. */
  predicate Behind(s: Order, o: Order) {
    && !s.deleted
    && s.version <= o.version
    && s.customerId == o.customerId
    && (s.version == o.version ==> s.(deleted := o.deleted) == o)
  }

  predicate JobOk(job: TimeoutJob, epochs: seq<seq<Offer>>) {
    job.epoch < |epochs| && job.index < |epochs[job.epoch]| && epochs[job.epoch][job.index].driver == job.driverId
  }

  predicate HandlerOk(maxAttempts: int, o: Order, epochs: seq<seq<Offer>>, h: Handler) {
    match h
    case Assigning(s) => Behind(s, o) && s.orderStatus == Pending && s.dispatchAttempts < maxAttempts
    case Locking(_) => true
    case Expiring => true
    case Scheduling(job) => JobOk(job, epochs)
    case Updating(s, newStatus, user) => Behind(s, o) && UpdateCheck(s, newStatus, user) == Pass
    case Reassigning(s, user) => Behind(s, o) && s.orderStatus == Expired
    case Deleting(s) => Behind(s, o) && !Active(s.orderStatus)
  }

  ghost predicate Inv(maxAttempts: int, w: World) {
    && Good(maxAttempts, w.rec, w.epochs)
    && (forall h :: h in w.inFlight ==> HandlerOk(maxAttempts, w.rec.order, w.epochs, h))
    && (forall job :: job in w.jobs ==> JobOk(job, w.epochs))
  }
}
