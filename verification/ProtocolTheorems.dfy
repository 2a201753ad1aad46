/** What the interleaved protocol guarantees in every world that some run reaches. */
module ProtocolTheorems {
  import opened Wrappers
  import opened Orders
  import opened NearestDrivers
  import opened Transactions
  import opened Protocol
  import opened ProtocolInvariant

  ghost predicate Reachable(maxAttempts: int, w: World) {
    exists customerId, vehincleType, es :: w == Run(maxAttempts, customerId, vehincleType, es)
  }

  lemma ReachableInv(maxAttempts: int, w: World)
    requires maxAttempts >= 1 && Reachable(maxAttempts, w)
    ensures Inv(maxAttempts, w)
  {
    var customerId, vehincleType, es :| w == Run(maxAttempts, customerId, vehincleType, es);
    RunKeepsInv(maxAttempts, customerId, vehincleType, es);
  }

  lemma ReachableStep(maxAttempts: int, w: World, e: Event)
    requires Reachable(maxAttempts, w)
    ensures Reachable(maxAttempts, Step(maxAttempts, w, e))
  {
    var customerId, vehincleType, es :| w == Run(maxAttempts, customerId, vehincleType, es);
    assert (es + [e])[..|es|] == es;
    assert Step(maxAttempts, w, e) == Run(maxAttempts, customerId, vehincleType, es + [e]);
  }

  // ----- optimistic writes

  /**
   * A version names a state of the row: if the row has the version it had at
   * some earlier point of the run, it is the same row (deletion aside).
   */
  lemma {:induction false} VersionIdentifiesRow(maxAttempts: int, customerId: string,
                                                vehincleType: VehincleType, es: seq<Event>, k: nat)
    requires maxAttempts >= 1 && k <= |es|
    ensures var earlier := Run(maxAttempts, customerId, vehincleType, es[..k]).rec.order;
            var now := Run(maxAttempts, customerId, vehincleType, es).rec.order;
            && earlier.version <= now.version
            && (earlier.version == now.version ==> earlier.(deleted := now.deleted) == now)
  {
    if k == |es| {
      assert es[..k] == es;
    } else {
      var front := es[..|es| - 1];
      assert front[..k] == es[..k];
      VersionIdentifiesRow(maxAttempts, customerId, vehincleType, front, k);
      RunKeepsInv(maxAttempts, customerId, vehincleType, front);
      var w := Run(maxAttempts, customerId, vehincleType, front);
      StepHasShape(maxAttempts, w, es[|es| - 1]);
    }
  }

  /** The checks made on the unlocked read still hold of the row that the compare-and-swap overwrites. */
  lemma OptimisticWritesAreSound(maxAttempts: int, w: World, e: Event)
    requires maxAttempts >= 1 && Reachable(maxAttempts, w)
    requires e.CommitUpdate? || e.CommitReassign?
    requires Step(maxAttempts, w, e).rec != w.rec
    ensures e.snapshot == w.rec.order
    ensures e.CommitUpdate? ==> MayUpdate(w.rec.order, e.newStatus, e.user)
                                && e.newStatus in OrderTransitions(w.rec.order.orderStatus)
    ensures e.CommitReassign? ==> w.rec.order.orderStatus == Expired
  {
    ReachableInv(maxAttempts, w);
    if e.CommitUpdate? {
      assert HandlerOk(maxAttempts, w.rec.order, w.epochs, Updating(e.snapshot, e.newStatus, e.user));
      UpdateWrites(maxAttempts, w.rec, e.snapshot, e.newStatus, e.user);
      UpdateCheckExact(e.snapshot, e.newStatus, e.user);
    } else {
      assert HandlerOk(maxAttempts, w.rec.order, w.epochs, Reassigning(e.snapshot, e.user));
      ReassignWrites(maxAttempts, w.rec, e.snapshot, e.user);
    }
  }

  // ----- the audit trail

  /** The history is the exact story of the row, and the version its length. */
  lemma AuditTrailExact(maxAttempts: int, w: World)
    requires maxAttempts >= 1 && Reachable(maxAttempts, w)
    ensures AuditOk(w.rec)
  {
    ReachableInv(maxAttempts, w);
  }

  lemma OnlySource(e: HistoryEntry, from: OrderStatus)
    requires LegalEntry(e)
    requires (from, e.newStatus) in {
               (InTransit, Delivered), (PickedUp, InTransit), (DriverArriving, PickedUp),
               (DriverAssigned, DriverArriving), (Pending, DriverAssigned)}
    ensures e.previousStatus == Some(from)
  {
    var a := e.previousStatus.value;
    match a
    case _ =>
  }

  lemma OnlyWayIn(r: Record, i: int, from: OrderStatus)
    requires AuditOk(r) && 0 <= i < |r.history|
    requires (from, r.history[i].newStatus) in {
               (InTransit, Delivered), (PickedUp, InTransit), (DriverArriving, PickedUp),
               (DriverAssigned, DriverArriving), (Pending, DriverAssigned)}
    ensures i >= 1 && r.history[i - 1].newStatus == from
  {
    if i >= 1 {
      OnlySource(r.history[i], from);
    }
  }

  lemma DeliveredAudit(r: Record)
    requires AuditOk(r) && r.order.orderStatus == Delivered
    ensures var h := r.history; var n := |h|;
            n >= 6
            && h[n - 6].newStatus == Pending && h[n - 5].newStatus == DriverAssigned
            && h[n - 4].newStatus == DriverArriving && h[n - 3].newStatus == PickedUp
            && h[n - 2].newStatus == InTransit && h[n - 1].newStatus == Delivered
  {
    var n := |r.history|;
    OnlyWayIn(r, n - 1, InTransit);
    OnlyWayIn(r, n - 2, PickedUp);
    OnlyWayIn(r, n - 3, DriverArriving);
    OnlyWayIn(r, n - 4, DriverAssigned);
    OnlyWayIn(r, n - 5, Pending);
  }

  /** A delivered order went through every stage in turn, without interruption, in its last six entries. */
  lemma DeliveredShape(maxAttempts: int, w: World)
    requires maxAttempts >= 1 && Reachable(maxAttempts, w)
    requires w.rec.order.orderStatus == Delivered
    ensures var h := w.rec.history; var n := |h|;
            n >= 6
            && h[n - 6].newStatus == Pending && h[n - 5].newStatus == DriverAssigned
            && h[n - 4].newStatus == DriverArriving && h[n - 3].newStatus == PickedUp
            && h[n - 2].newStatus == InTransit && h[n - 1].newStatus == Delivered
  {
    ReachableInv(maxAttempts, w);
    DeliveredAudit(w.rec);
  }

  lemma ShapeKeepsFinal(maxAttempts: int, w: World, w': World)
    requires StepShape(maxAttempts, w, w')
    ensures w.rec.order.orderStatus in {Delivered, Cancelled, Failed} || w.rec.order.deleted ==>
              w'.rec.history == w.rec.history && w'.rec.order.orderStatus == w.rec.order.orderStatus
    ensures w.rec.order.orderStatus == Expired ==> w'.rec.order.orderStatus in {Expired, Pending}
  {
  }

  lemma ExpiredStays(maxAttempts: int, w: World, e: Event)
    requires w.rec.order.orderStatus == Expired && !e.CommitReassign?
    requires e.CommitUpdate? && Updating(e.snapshot, e.newStatus, e.user) in w.inFlight ==>
               Behind(e.snapshot, w.rec.order) && UpdateCheck(e.snapshot, e.newStatus, e.user) == Pass
    ensures Step(maxAttempts, w, e).rec.order.orderStatus == Expired
  {
  }

  /** DELIVERED, CANCELLED and FAILED are never left, EXPIRED only by a reassignment; a deleted row is never written. */
  lemma FinalStatesStay(maxAttempts: int, w: World, e: Event)
    requires maxAttempts >= 1 && Reachable(maxAttempts, w)
    ensures var o := w.rec.order; var w' := Step(maxAttempts, w, e);
            && (o.orderStatus in {Delivered, Cancelled, Failed} || o.deleted ==>
                  w'.rec.history == w.rec.history && w'.rec.order.orderStatus == o.orderStatus)
            && (o.orderStatus == Expired && w'.rec.order.orderStatus != Expired ==>
                  e.CommitReassign? && w'.rec.order.orderStatus == Pending)
  {
    ReachableInv(maxAttempts, w);
    StepHasShape(maxAttempts, w, e);
    ShapeKeepsFinal(maxAttempts, w, Step(maxAttempts, w, e));
    if w.rec.order.orderStatus == Expired && !e.CommitReassign? {
      assert forall s, n, u :: Updating(s, n, u) in w.inFlight ==>
                                 HandlerOk(maxAttempts, w.rec.order, w.epochs, Updating(s, n, u));
      ExpiredStays(maxAttempts, w, e);
    }
  }

  /** A row has a driver exactly when its status calls for one, and it is the driver of the newest offer. */
  lemma AssigneeCoupled(maxAttempts: int, w: World)
    requires maxAttempts >= 1 && Reachable(maxAttempts, w)
    ensures var o := w.rec.order;
            && (o.orderStatus in {Pending, Expired} ==> o.assignedDriverId.None?)
            && (HasDriver(o.orderStatus) ==>
                  Current(w.epochs) != [] && o.assignedDriverId == Some(LastOffer(w.epochs).driver))
            && (o.orderStatus in {DriverArriving, PickedUp, InTransit, Delivered, Failed} ==>
                  LastOffer(w.epochs).resolution == Accepted)
  {
    ReachableInv(maxAttempts, w);
  }

  // ----- offers

  lemma SameSet(attempted: seq<string>, offers: seq<Offer>)
    requires AttemptedOk(attempted, offers)
    ensures (set d | d in attempted) == (set i | 0 <= i < |offers| :: offers[i].driver)
  {
    forall i | 0 <= i < |offers|
      ensures offers[i].driver in attempted
    {
      assert attempted[i] == offers[i].driver;
    }
    forall d | d in attempted
      ensures d in set i | 0 <= i < |offers| :: offers[i].driver
    {
      var j :| 0 <= j < |attempted| && attempted[j] == d;
      assert offers[if j < |offers| then j else |offers| - 1].driver == d;
    }
  }

  /**
   * No driver is offered the order twice in one epoch, and the attempted list
   * says who was, in turn: with a duplicate at its end exactly when the last of
   * them rejected the offer.
   */
  lemma NoDriverOfferedTwice(maxAttempts: int, w: World)
    requires maxAttempts >= 1 && Reachable(maxAttempts, w)
    ensures forall k :: 0 <= k < |w.epochs| ==> DistinctDrivers(w.epochs[k])
    ensures w.rec.order.attemptedDriverIds == Drivers(Current(w.epochs)) + LastRefusal(Current(w.epochs))
    ensures var offers := Current(w.epochs);
            (set d | d in w.rec.order.attemptedDriverIds) == (set i | 0 <= i < |offers| :: offers[i].driver)
  {
    ReachableInv(maxAttempts, w);
    SameSet(w.rec.order.attemptedDriverIds, Current(w.epochs));
  }

  lemma AttemptFacts(maxAttempts: int, o: Order, n: nat)
    requires AttemptsOk(maxAttempts, o, n)
    ensures o.orderStatus == Pending ==> o.dispatchAttempts % 2 == 0 && o.dispatchAttempts < maxAttempts
    ensures o.orderStatus == DriverAssigned ==> o.dispatchAttempts % 2 == 1 && o.dispatchAttempts <= maxAttempts
    ensures o.orderStatus == Expired ==> o.dispatchAttempts <= maxAttempts + 1
    ensures o.orderStatus == Expired && o.dispatchAttempts % 2 == 0 ==> n == (maxAttempts + 1) / 2
  {
  }

  lemma EpochsAreShort(maxAttempts: int, epochs: seq<seq<Offer>>)
    requires EpochSizesOk(maxAttempts, epochs)
    ensures forall k :: 0 <= k < |epochs| ==> |epochs[k]| <= (maxAttempts + 1) / 2
  {
  }

  /**
   * The counter and the offers: two attempts are counted for every offer that
   * was turned down, so that an epoch makes at most half the configured
   * attempts, rounded up, and exactly that many if it ended for lack of them.
   */
  lemma AttemptArithmetic(maxAttempts: int, w: World)
    requires maxAttempts >= 1 && Reachable(maxAttempts, w)
    ensures var o := w.rec.order; var n := |Current(w.epochs)|;
            && AttemptsOk(maxAttempts, o, n)
            && (o.orderStatus == Pending ==> o.dispatchAttempts % 2 == 0 && o.dispatchAttempts < maxAttempts)
            && (o.orderStatus == DriverAssigned ==> o.dispatchAttempts % 2 == 1 && o.dispatchAttempts <= maxAttempts)
            && (o.orderStatus == Expired ==> o.dispatchAttempts <= maxAttempts + 1)
            && (o.orderStatus == Expired && o.dispatchAttempts % 2 == 0 ==> n == (maxAttempts + 1) / 2)
    ensures forall k :: 0 <= k < |w.epochs| ==> |w.epochs[k]| <= (maxAttempts + 1) / 2
  {
    ReachableInv(maxAttempts, w);
    AttemptFacts(maxAttempts, w.rec.order, |Current(w.epochs)|);
    EpochsAreShort(maxAttempts, w.epochs);
  }

  /** The attempts test on entry to `handleAssignDriver` never fires: the read always goes on to look for drivers. */
  lemma EntryGuardIsDead(maxAttempts: int, w: World)
    requires maxAttempts >= 1 && Reachable(maxAttempts, w)
    ensures var o := w.rec.order;
            Step(maxAttempts, w, ReadForAssign)
            == if o.deleted || o.orderStatus != Pending then w else Start(w, Assigning(o))
  {
    ReachableInv(maxAttempts, w);
  }

  /**
   * The configured number is documented as that of dispatch attempts before an
   * order expires, but no epoch ever makes that many offers, unless it is one.
   */
  lemma OffersFallShort(maxAttempts: int, w: World)
    requires maxAttempts >= 2 && Reachable(maxAttempts, w)
    ensures forall k :: 0 <= k < |w.epochs| ==> |w.epochs[k]| < maxAttempts
  {
    AttemptArithmetic(maxAttempts, w);
  }

  lemma {:induction false} OffersPartition(offers: seq<Offer>)
    ensures |offers| == CountIn(offers, Open) + CountIn(offers, Accepted) + CountIn(offers, Rejected)
                        + CountIn(offers, TimedOut) + CountIn(offers, Withdrawn)
  {
    if offers != [] {
      OffersPartition(offers[..|offers| - 1]);
    }
  }

  lemma {:induction false} EpochsPartition(epochs: seq<seq<Offer>>)
    ensures TotalOffers(epochs) == CountAll(epochs, Open) + CountAll(epochs, Accepted) + CountAll(epochs, Rejected)
                                   + CountAll(epochs, TimedOut) + CountAll(epochs, Withdrawn)
  {
    if epochs != [] {
      EpochsPartition(epochs[..|epochs| - 1]);
      OffersPartition(Current(epochs));
    }
  }

  /**
   * Each offer is resolved exactly once, whatever races: in the log, and, read
   * off the audit trail alone, as many offers as accepts, refusals and timeouts
   * (back to PENDING or to EXPIRED) and cancellations, plus one if one is open.
   */
  lemma OffersResolvedOnce(maxAttempts: int, w: World)
    requires maxAttempts >= 1 && Reachable(maxAttempts, w)
    ensures var open := if w.rec.order.orderStatus == DriverAssigned then 1 else 0;
            var h := w.rec.history;
            && TotalOffers(w.epochs) == CountAll(w.epochs, Accepted) + CountAll(w.epochs, Rejected)
                                        + CountAll(w.epochs, TimedOut) + CountAll(w.epochs, Withdrawn) + open
            && CountEdge(h, Pending, DriverAssigned)
               == CountEdge(h, DriverAssigned, DriverArriving) + CountEdge(h, DriverAssigned, Pending)
                  + CountEdge(h, DriverAssigned, Expired) + CountEdge(h, DriverAssigned, Cancelled) + open
            && TotalOffers(w.epochs) == CountEdge(h, Pending, DriverAssigned)
            && CountAll(w.epochs, Accepted) == CountEdge(h, DriverAssigned, DriverArriving)
  {
    ReachableInv(maxAttempts, w);
    EpochsPartition(w.epochs);
  }

  lemma TrackKeepsResolved(maxAttempts: int, o: Order, o': Order, epochs: seq<seq<Offer>>, how: Resolution,
                           k: nat, i: nat)
    requires epochs != [] && LegalWrite(maxAttempts, o, o', how) && AssigneeOk(o, epochs)
    requires k < |epochs| && i < |epochs[k]|
    ensures var e := Track(epochs, o, o', how);
            && k < |e| && i < |e[k]| && e[k][i].driver == epochs[k][i].driver
            && (epochs[k][i].resolution != Open ==> e[k][i] == epochs[k][i])
  {
    TrackedOffers(maxAttempts, o, o', epochs, how);
  }

  /** A resolution, once recorded, is never changed, and no offer is ever taken out of the log. */
  lemma ResolutionsAreFinal(maxAttempts: int, w: World, e: Event, k: nat, i: nat)
    requires maxAttempts >= 1 && Reachable(maxAttempts, w)
    requires k < |w.epochs| && i < |w.epochs[k]|
    ensures var w' := Step(maxAttempts, w, e);
            && k < |w'.epochs| && i < |w'.epochs[k]|
            && w'.epochs[k][i].driver == w.epochs[k][i].driver
            && (w.epochs[k][i].resolution != Open ==> w'.epochs[k][i] == w.epochs[k][i])
  {
    ReachableInv(maxAttempts, w);
    StepHasShape(maxAttempts, w, e);
    var w' := Step(maxAttempts, w, e);
    if actorId, how :| TrackedWrite(maxAttempts, w, w', actorId, how) {
      TrackKeepsResolved(maxAttempts, w.rec.order, w'.rec.order, w.epochs, how, k, i);
    }
  }

  // ----- termination

  /**
   * From creation or the last reset on, the order is written at most
   * 2 * ceil(M / 2) + 3 times, whatever the duplication of jobs.
   */
  lemma WritesBounded(maxAttempts: int, w: World)
    requires maxAttempts >= 1 && Reachable(maxAttempts, w)
    ensures SinceReset(w.rec.history) <= 2 * ((maxAttempts + 1) / 2) + 3
  {
    ReachableInv(maxAttempts, w);
  }

  lemma RankBounded(maxAttempts: int, w: World)
    requires maxAttempts >= 1 && Reachable(maxAttempts, w)
    ensures 0 <= Rank(maxAttempts, w.rec.order) <= 2 * ((maxAttempts + 1) / 2) + 3
  {
    ReachableInv(maxAttempts, w);
    AttemptFacts(maxAttempts, w.rec.order, |Current(w.epochs)|);
  }

  /** The ranking behind the bound: a step that adds to the history lowers it, or resets the order. */
  lemma RankStep(maxAttempts: int, w: World, e: Event)
    requires maxAttempts >= 1 && Reachable(maxAttempts, w)
    ensures var w' := Step(maxAttempts, w, e);
            var rank, rank' := Rank(maxAttempts, w.rec.order), Rank(maxAttempts, w'.rec.order);
            && 0 <= rank' <= 2 * ((maxAttempts + 1) / 2) + 3
            && (w'.rec.history == w.rec.history ==> rank' == rank)
            && (w'.rec.history != w.rec.history && !e.CommitReassign? ==> rank' < rank)
            && (w'.rec.history != w.rec.history && e.CommitReassign? ==> w.rec.order.orderStatus == Expired)
  {
    var w' := Step(maxAttempts, w, e);
    ReachableStep(maxAttempts, w, e);
    RankBounded(maxAttempts, w');
    ReachableInv(maxAttempts, w);
    StepHasShape(maxAttempts, w, e);
    if actorId, how :| TrackedWrite(maxAttempts, w, w', actorId, how) {
      RankDecreases(maxAttempts, w.rec.order, w'.rec.order, how, |Current(w.epochs)|);
      FinalStatesStay(maxAttempts, w, e);
      if e.CommitReassign? {
        OptimisticWritesAreSound(maxAttempts, w, e);
      }
    }
  }

  // ----- timeouts

  predicate TakesEffect(maxAttempts: int, w: World, job: TimeoutJob) {
    TimeoutTx(maxAttempts, w.rec, job.driverId).1 != Skip
  }

  /** The offer a timeout job was created for. */
  function OwnOffer(w: World, job: TimeoutJob): Offer
    requires JobOk(job, w.epochs)
  {
    w.epochs[job.epoch][job.index]
  }

  lemma TimeoutOnCurrent(maxAttempts: int, w: World, job: TimeoutJob)
    requires OffersOk(w.rec.order, w.epochs) && AssigneeOk(w.rec.order, w.epochs)
    requires job in w.jobs && JobOk(job, w.epochs) && job.epoch == |w.epochs| - 1
    ensures TakesEffect(maxAttempts, w, job) <==> OwnOffer(w, job).resolution == Open && !w.rec.order.deleted
    ensures var w' := Step(maxAttempts, w, DeliverTimeout(job));
            if TakesEffect(maxAttempts, w, job)
            then w'.epochs == w.epochs[job.epoch := w.epochs[job.epoch][job.index := Offer(job.driverId, TimedOut)]]
            else w' == w
  {
    var cur := Current(w.epochs);
    TimeoutWrites(maxAttempts, w.rec, job.driverId);
    if TakesEffect(maxAttempts, w, job) {
      assert DistinctDrivers(cur);
      assert cur[|cur| - 1].driver == cur[job.index].driver;
      assert job.index == |cur| - 1;
      assert ResolveLast(cur, TimedOut) == cur[job.index := Offer(job.driverId, TimedOut)];
    }
  }

  /**
   * Among the offers of its own epoch a timeout job takes effect only on the one
   * it was created for: exactly while that offer is open, which it then ends and
   * nothing else; late, repeated and overtaken timeouts change nothing.
   */
  lemma TimeoutHitsItsOwnOffer(maxAttempts: int, w: World, job: TimeoutJob)
    requires maxAttempts >= 1 && Reachable(maxAttempts, w)
    requires job in w.jobs && job.epoch == |w.epochs| - 1
    ensures JobOk(job, w.epochs)
    ensures TakesEffect(maxAttempts, w, job) <==> OwnOffer(w, job).resolution == Open && !w.rec.order.deleted
    ensures var w' := Step(maxAttempts, w, DeliverTimeout(job));
            if TakesEffect(maxAttempts, w, job)
            then w'.epochs == w.epochs[job.epoch := w.epochs[job.epoch][job.index := Offer(job.driverId, TimedOut)]]
            else w' == w
  {
    ReachableInv(maxAttempts, w);
    assert JobOk(job, w.epochs);
    TimeoutOnCurrent(maxAttempts, w, job);
  }

  /** So a timeout that takes effect ends its own offer exactly when no reset came between. */
  lemma TimeoutMisfiresAcrossResets(maxAttempts: int, w: World, job: TimeoutJob)
    requires maxAttempts >= 1 && Reachable(maxAttempts, w)
    requires job in w.jobs && TakesEffect(maxAttempts, w, job)
    ensures JobOk(job, w.epochs)
    ensures OwnOffer(w, job).resolution == Open <==> job.epoch == |w.epochs| - 1
  {
    ReachableInv(maxAttempts, w);
    assert JobOk(job, w.epochs);
    if job.epoch == |w.epochs| - 1 {
      TimeoutHitsItsOwnOffer(maxAttempts, w, job);
    }
  }

  // ----- a timeout that outlives its epoch

  function StepAll(maxAttempts: int, w: World, es: seq<Event>): World
    decreases |es|
  {
    if es == [] then w else StepAll(maxAttempts, Step(maxAttempts, w, es[0]), es[1..])
  }

  lemma {:induction false} ReachableSteps(maxAttempts: int, w: World, es: seq<Event>)
    requires Reachable(maxAttempts, w)
    ensures Reachable(maxAttempts, StepAll(maxAttempts, w, es))
    decreases |es|
  {
    if es != [] {
      ReachableStep(maxAttempts, w, es[0]);
      ReachableSteps(maxAttempts, Step(maxAttempts, w, es[0]), es[1..]);
    }
  }

  lemma StepAllFour(maxAttempts: int, w: World, a: Event, b: Event, c: Event, d: Event)
    ensures StepAll(maxAttempts, w, [a, b, c, d])
            == Step(maxAttempts, Step(maxAttempts, Step(maxAttempts, Step(maxAttempts, w, a), b), c), d)
  {
    var w1 := Step(maxAttempts, w, a);
    var w2 := Step(maxAttempts, w1, b);
    var w3 := Step(maxAttempts, w2, c);
    assert [a, b, c, d][1..] == [b, c, d] && [b, c, d][1..] == [c, d] && [c, d][1..] == [d] && [d][1..] == [];
    assert StepAll(maxAttempts, w3, [d]) == Step(maxAttempts, w3, d);
    assert StepAll(maxAttempts, w2, [c, d]) == StepAll(maxAttempts, w3, [d]);
    assert StepAll(maxAttempts, w1, [b, c, d]) == StepAll(maxAttempts, w2, [c, d]);
  }

  predicate LastEdge(r: Record, a: OrderStatus, b: OrderStatus) {
    && r.history != []
    && r.history[|r.history| - 1].previousStatus == Some(a)
    && r.history[|r.history| - 1].newStatus == b
  }

  /** The order waits for a driver, may be offered once more, and has not been offered to `d`. */
  predicate Offerable(maxAttempts: int, o: Order, d: DriverId) {
    o.orderStatus == Pending && !o.deleted && o.dispatchAttempts < maxAttempts && d !in o.attemptedDriverIds
  }

  function OfferedTo(o: Order, d: DriverId): Order {
    o.(assignedDriverId := Some(d), orderStatus := DriverAssigned, dispatchAttempts := o.dispatchAttempts + 1,
       version := o.version + 1, attemptedDriverIds := Distinct(NonEmpty(o.attemptedDriverIds)) + [d])
  }

  function NextJob(w: World, d: DriverId): TimeoutJob {
    TimeoutJob(d, if w.epochs == [] then 0 else |w.epochs| - 1, |Current(w.epochs)|)
  }

  function OfferEvents(w: World, d: DriverId): seq<Event> {
    [ReadForAssign, FindCandidates(w.rec.order, [d]), LockAndAssign([d], {d}), AddTimeoutJob(NextJob(w, d))]
  }

  lemma LoneAssign(r: Record, d: DriverId)
    requires r.order.orderStatus == Pending && !r.order.deleted && d !in r.order.attemptedDriverIds
    ensures AssignTx(r, [d], {d}) == (Save(r, Pending, OfferedTo(r.order, d), SYSTEM), Some(d))
  {
    assert FirstFree([d], Distinct(NonEmpty(r.order.attemptedDriverIds)), {d}) == Some(d);
  }

  lemma ReadSteps(maxAttempts: int, w: World, d: DriverId)
    requires Offerable(maxAttempts, w.rec.order, d)
    ensures var o := w.rec.order;
            var w' := Step(maxAttempts, Step(maxAttempts, w, ReadForAssign), FindCandidates(o, [d]));
            w'.rec == w.rec && w'.epochs == w.epochs && w'.jobs == w.jobs && Locking([d]) in w'.inFlight
  {
    assert Step(maxAttempts, w, ReadForAssign) == Start(w, Assigning(w.rec.order));
  }

  /** `w'` is `w` after an offer to `d` whose timeout has been scheduled. */
  predicate OfferMade(w: World, w': World, d: DriverId) {
    && w'.rec == Save(w.rec, Pending, OfferedTo(w.rec.order, d), SYSTEM)
    && w'.epochs == SetCurrent(w.epochs, Current(w.epochs) + [Offer(d, Open)])
    && w'.jobs == w.jobs + {NextJob(w, d)}
  }

  lemma LockSteps(maxAttempts: int, w: World, d: DriverId)
    requires Offerable(maxAttempts, w.rec.order, d) && Locking([d]) in w.inFlight
    ensures var offered := Step(maxAttempts, w, LockAndAssign([d], {d}));
            OfferMade(w, Step(maxAttempts, offered, AddTimeoutJob(NextJob(w, d))), d)
  {
    LoneAssign(w.rec, d);
    var offered := Commit(Finish(w, Locking([d])), Save(w.rec, Pending, OfferedTo(w.rec.order, d), SYSTEM), Open);
    assert Step(maxAttempts, w, LockAndAssign([d], {d})) == Start(offered, Scheduling(NextJob(w, d)));
  }

  lemma OfferSteps(maxAttempts: int, w: World, d: DriverId)
    requires Offerable(maxAttempts, w.rec.order, d)
    ensures OfferMade(w, StepAll(maxAttempts, w, OfferEvents(w, d)), d)
  {
    var o := w.rec.order;
    StepAllFour(maxAttempts, w, ReadForAssign, FindCandidates(o, [d]), LockAndAssign([d], {d}),
                AddTimeoutJob(NextJob(w, d)));
    ReadSteps(maxAttempts, w, d);
    LockSteps(maxAttempts, Step(maxAttempts, Step(maxAttempts, w, ReadForAssign), FindCandidates(o, [d])), d);
  }

  /** Any waiting order can be offered to any driver who has not had it yet. */
  lemma OfferReached(maxAttempts: int, w: World, d: DriverId) returns (w': World)
    requires Offerable(maxAttempts, w.rec.order, d) && Reachable(maxAttempts, w)
    ensures Reachable(maxAttempts, w') && OfferMade(w, w', d)
  {
    w' := StepAll(maxAttempts, w, OfferEvents(w, d));
    OfferSteps(maxAttempts, w, d);
    ReachableSteps(maxAttempts, w, OfferEvents(w, d));
  }

  lemma UpdateSteps(maxAttempts: int, w: World, newStatus: OrderStatus, user: JwtUser)
    requires !w.rec.order.deleted && UpdateCheck(w.rec.order, newStatus, user) == Pass
    ensures Step(maxAttempts, w, ReadForUpdate(newStatus, user)) == Start(w, Updating(w.rec.order, newStatus, user))
  {
  }

  lemma UpdateCommits(maxAttempts: int, w: World, s: Order, newStatus: OrderStatus, user: JwtUser)
    requires Updating(s, newStatus, user) in w.inFlight
    ensures var w' := Step(maxAttempts, w, CommitUpdate(s, newStatus, user));
            w'.rec == UpdateTx(w.rec, s, newStatus, user.userId).0 && w'.jobs == w.jobs
    ensures w.rec.order.orderStatus !in {DriverAssigned, Expired} && newStatus != DriverAssigned ==>
              Step(maxAttempts, w, CommitUpdate(s, newStatus, user)).epochs == w.epochs
  {
  }

  /** Any update that the checks admit can be carried out. */
  lemma UpdateReached(maxAttempts: int, w: World, newStatus: OrderStatus, user: JwtUser) returns (w': World)
    requires Reachable(maxAttempts, w) && !w.rec.order.deleted && UpdateCheck(w.rec.order, newStatus, user) == Pass
    ensures Reachable(maxAttempts, w') && w'.jobs == w.jobs
    ensures w'.rec == UpdateTx(w.rec, w.rec.order, newStatus, user.userId).0
    ensures w.rec.order.orderStatus !in {DriverAssigned, Expired} && newStatus != DriverAssigned ==>
              w'.epochs == w.epochs
  {
    var o := w.rec.order;
    UpdateSteps(maxAttempts, w, newStatus, user);
    ReachableStep(maxAttempts, w, ReadForUpdate(newStatus, user));
    var reading := Start(w, Updating(o, newStatus, user));
    UpdateCommits(maxAttempts, reading, o, newStatus, user);
    ReachableStep(maxAttempts, reading, CommitUpdate(o, newStatus, user));
    w' := Step(maxAttempts, reading, CommitUpdate(o, newStatus, user));
  }

  lemma ResetSteps(maxAttempts: int, w: World, admin: JwtUser)
    requires w.rec.order.orderStatus == Expired && !w.rec.order.deleted
    ensures Step(maxAttempts, w, ReadForReassign(admin)) == Start(w, Reassigning(w.rec.order, admin))
  {
  }

  lemma ResetCommits(maxAttempts: int, w: World, s: Order, admin: JwtUser)
    requires Reassigning(s, admin) in w.inFlight
    ensures var w' := Step(maxAttempts, w, CommitReassign(s, admin));
            && w'.rec == ReassignTx(w.rec, s, admin.userId).0
            && w'.jobs == w.jobs
            && w'.epochs == Track(w.epochs, w.rec.order, w'.rec.order, Open)
  {
  }

  /** Any live EXPIRED order can be reset by an administrator: a fresh epoch. */
  lemma ResetReached(maxAttempts: int, w: World, admin: JwtUser) returns (w': World)
    requires Reachable(maxAttempts, w) && w.rec.order.orderStatus == Expired && !w.rec.order.deleted
    ensures Reachable(maxAttempts, w') && w'.jobs == w.jobs && w'.epochs == w.epochs + [[]]
    ensures w'.rec == ReassignTx(w.rec, w.rec.order, admin.userId).0 && LastEdge(w'.rec, Expired, Pending)
  {
    var o := w.rec.order;
    ResetSteps(maxAttempts, w, admin);
    ReachableStep(maxAttempts, w, ReadForReassign(admin));
    var reading := Start(w, Reassigning(o, admin));
    ResetCommits(maxAttempts, reading, o, admin);
    ReachableStep(maxAttempts, reading, CommitReassign(o, admin));
    w' := Step(maxAttempts, reading, CommitReassign(o, admin));
  }

  /** An open offer can be rejected by its driver. */
  lemma RejectReached(maxAttempts: int, w: World, d: DriverId) returns (w': World)
    requires Reachable(maxAttempts, w) && Awaits(w.rec.order, d)
    ensures Reachable(maxAttempts, w') && w'.jobs == w.jobs
    ensures w'.rec == RejectTx(maxAttempts, w.rec, d).0
    ensures w'.epochs == SetCurrent(w.epochs, ResolveLast(Current(w.epochs), Rejected))
    ensures LastEdge(w'.rec, DriverAssigned, w'.rec.order.orderStatus)
  {
    ReachableStep(maxAttempts, w, RejectDispatch(d));
    w' := Step(maxAttempts, w, RejectDispatch(d));
  }

  lemma InitReachable(maxAttempts: int, customerId: string, vehincleType: VehincleType)
    ensures Reachable(maxAttempts, Init(customerId, vehincleType))
  {
    assert Init(customerId, vehincleType) == Run(maxAttempts, customerId, vehincleType, []);
  }

  lemma FirstOffer(maxAttempts: int, customerId: string, d: DriverId) returns (w: World)
    requires maxAttempts >= 1
    ensures Reachable(maxAttempts, w) && Awaits(w.rec.order, d) && w.rec.order.dispatchAttempts == 1
    ensures w.epochs == [[Offer(d, Open)]] && w.jobs == {TimeoutJob(d, 0, 0)}
  {
    InitReachable(maxAttempts, customerId, Car);
    w := OfferReached(maxAttempts, Init(customerId, Car), d);
    assert SetCurrent([[]], [Offer(d, Open)]) == [[Offer(d, Open)]];
    assert [] + [Offer(d, Open)] == [Offer(d, Open)];
  }

  /** A first offer, rejected: of two attempts configured both are used up. */
  lemma FirstOfferRejected(maxAttempts: int, customerId: string, d: DriverId) returns (w: World)
    requires maxAttempts >= 1
    ensures Reachable(maxAttempts, w) && !w.rec.order.deleted
    ensures w.rec.order.orderStatus == if maxAttempts <= 2 then Expired else Pending
    ensures LastEdge(w.rec, DriverAssigned, w.rec.order.orderStatus)
    ensures w.epochs == [[Offer(d, Rejected)]] && w.jobs == {TimeoutJob(d, 0, 0)}
  {
    var offered := FirstOffer(maxAttempts, customerId, d);
    w := RejectReached(maxAttempts, offered, d);
    assert ResolveLast([Offer(d, Open)], Rejected) == [Offer(d, Rejected)];
  }

  /**
   * Safety stops at a reset: a timeout of an earlier epoch, whose own offer was
   * rejected long ago, can end the new offer to the same driver.
   */
  lemma StaleTimeoutExists(customerId: string, d: DriverId, admin: JwtUser) returns (w: World, job: TimeoutJob)
    ensures Reachable(1, w) && job in w.jobs && TakesEffect(1, w, job)
    ensures JobOk(job, w.epochs) && OwnOffer(w, job).resolution == Rejected
  {
    job := TimeoutJob(d, 0, 0);
    var rejected := FirstOfferRejected(1, customerId, d);
    var reset := ResetReached(1, rejected, admin);
    w := OfferReached(1, reset, d);
    assert w.epochs[0] == [Offer(d, Rejected)];
  }

  /** The three edges beside the transition table are all taken by some run. */
  lemma DispatchEdgesOccur(customerId: string, d: DriverId, admin: JwtUser)
    returns (returned: World, expired: World, reset: World)
    ensures Reachable(3, returned) && LastEdge(returned.rec, DriverAssigned, Pending)
    ensures Reachable(1, expired) && LastEdge(expired.rec, DriverAssigned, Expired)
    ensures Reachable(1, reset) && LastEdge(reset.rec, Expired, Pending)
  {
    returned := FirstOfferRejected(3, customerId, d);
    expired := FirstOfferRejected(1, customerId, d);
    reset := ResetReached(1, expired, admin);
  }
}
