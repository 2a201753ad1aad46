/**
 * The bounds on offers and on writes are reached, for every number of attempts:
 * by an order that every driver but the last rejects, and the last delivers.
 */
module ProtocolBounds {
  import opened Wrappers
  import opened Orders
  import opened NearestDrivers
  import opened Transactions
  import opened Protocol
  import opened ProtocolInvariant
  import opened ProtocolTheorems

  /** As many drivers as are needed, all different. */
  function Name(i: nat): (d: DriverId)
    ensures |d| == i + 1
  {
    if i == 0 then "d" else Name(i - 1) + "d"
  }

  ghost predicate Unasked(attempted: seq<string>, n: nat) {
    forall i: nat :: i >= n ==> Name(i) !in attempted
  }

  /** After `n` offers, all rejected: still PENDING, and nobody from driver `n` on has been asked. */
  ghost predicate Refused(maxAttempts: int, w: World, n: nat) {
    && Reachable(maxAttempts, w)
    && AwaitsDriver(w.rec.order)
    && w.rec.order.dispatchAttempts == 2 * n
    && Unasked(w.rec.order.attemptedDriverIds, n)
    && w.epochs != [] && |Current(w.epochs)| == n
    && SinceReset(w.rec.history) == 2 * n
  }

  lemma SaveCounts(r: Record, previous: OrderStatus, order: Order, actorId: string)
    requires previous != Expired
    ensures SinceReset(Save(r, previous, order, actorId).history) == SinceReset(r.history) + 1
  {
    var h := Save(r, previous, order, actorId).history;
    assert h[..|h| - 1] == r.history;
  }

  lemma UnaskedAfter(attempted: seq<string>, n: nat)
    requires Unasked(attempted, n)
    ensures Unasked(Distinct(NonEmpty(attempted)) + [Name(n)] + [Name(n)], n + 1)
    ensures Unasked(Distinct(NonEmpty(attempted)) + [Name(n)], n + 1)
  {
    forall i: nat | i >= n + 1
      ensures Name(i) !in Distinct(NonEmpty(attempted)) + [Name(n)] + [Name(n)]
    {
      assert Name(i) != Name(n);
    }
  }

  /** One more offer: to driver `n`. */
  ghost predicate Asked(maxAttempts: int, w: World, n: nat) {
    && Reachable(maxAttempts, w)
    && Awaits(w.rec.order, Name(n))
    && w.rec.order.dispatchAttempts == 2 * n + 1
    && Unasked(w.rec.order.attemptedDriverIds + [Name(n)], n + 1)
    && w.epochs != [] && |Current(w.epochs)| == n + 1
    && SinceReset(w.rec.history) == 2 * n + 1
  }

  lemma Ask(maxAttempts: int, w: World, n: nat) returns (w': World)
    requires Refused(maxAttempts, w, n) && 2 * n < maxAttempts
    ensures Asked(maxAttempts, w', n)
  {
    w' := OfferReached(maxAttempts, w, Name(n));
    UnaskedAfter(w.rec.order.attemptedDriverIds, n);
    SaveCounts(w.rec, Pending, OfferedTo(w.rec.order, Name(n)), SYSTEM);
    CurrentOfSetCurrent(w.epochs, Current(w.epochs) + [Offer(Name(n), Open)]);
  }

  lemma Refuse(maxAttempts: int, w: World, n: nat) returns (w': World)
    requires Asked(maxAttempts, w, n) && 2 * n + 2 < maxAttempts
    ensures Refused(maxAttempts, w', n + 1)
  {
    w' := RejectReached(maxAttempts, w, Name(n));
    SaveCounts(w.rec, DriverAssigned, w'.rec.order, Name(n));
    CurrentOfSetCurrent(w.epochs, ResolveLast(Current(w.epochs), Rejected));
  }

  lemma {:induction false} RefusedAll(maxAttempts: int, customerId: string, vehincleType: VehincleType, n: nat)
    returns (w: World)
    requires n == 0 || 2 * n < maxAttempts
    ensures Refused(maxAttempts, w, n)
  {
    if n == 0 {
      w := Init(customerId, vehincleType);
      InitReachable(maxAttempts, customerId, vehincleType);
    } else {
      w := RefusedAll(maxAttempts, customerId, vehincleType, n - 1);
      w := Ask(maxAttempts, w, n - 1);
      w := Refuse(maxAttempts, w, n - 1);
    }
  }

  /** The order has got to `status` with driver `d`, after `offers` offers and `writes` writes. */
  ghost predicate Underway(maxAttempts: int, w: World, status: OrderStatus, d: DriverId, offers: nat, writes: nat) {
    && Reachable(maxAttempts, w)
    && w.rec.order.orderStatus == status && w.rec.order.assignedDriverId == Some(d) && !w.rec.order.deleted
    && |Current(w.epochs)| == offers
    && SinceReset(w.rec.history) == writes
  }

  lemma Accept(maxAttempts: int, w: World, n: nat) returns (w': World)
    requires Asked(maxAttempts, w, n)
    ensures Underway(maxAttempts, w', DriverArriving, Name(n), n + 1, 2 * n + 2)
  {
    var d := Name(n);
    ReachableStep(maxAttempts, w, AcceptDispatch(d));
    w' := Step(maxAttempts, w, AcceptDispatch(d));
    SaveCounts(w.rec, DriverAssigned, w'.rec.order, d);
    CurrentOfSetCurrent(w.epochs, ResolveLast(Current(w.epochs), Accepted));
  }

  lemma Advance(maxAttempts: int, w: World, next: OrderStatus, d: DriverId, offers: nat, writes: nat)
    returns (w': World)
    requires Underway(maxAttempts, w, w.rec.order.orderStatus, d, offers, writes)
    requires (w.rec.order.orderStatus, next) in {
               (DriverArriving, PickedUp), (PickedUp, InTransit), (InTransit, Delivered)}
    ensures Underway(maxAttempts, w', next, d, offers, writes + 1)
  {
    var driver := JwtUser("driver", DriverRole, Some(d));
    UpdateCheckExact(w.rec.order, next, driver);
    w' := UpdateReached(maxAttempts, w, next, driver);
    SaveCounts(w.rec, w.rec.order.orderStatus, w'.rec.order, "driver");
  }

  /**
   * Both bounds are exact: whatever the number M of attempts configured, some
   * order makes ceil(M / 2) offers and is written 2 * ceil(M / 2) + 3 times
   * since its creation.
   */
  lemma BoundsAreReached(maxAttempts: int, customerId: string, vehincleType: VehincleType) returns (w: World)
    requires maxAttempts >= 1
    ensures Reachable(maxAttempts, w) && w.rec.order.orderStatus == Delivered
    ensures |Current(w.epochs)| == (maxAttempts + 1) / 2
    ensures SinceReset(w.rec.history) == 2 * ((maxAttempts + 1) / 2) + 3
  {
    var n := (maxAttempts + 1) / 2 - 1;
    var d := Name(n);
    w := RefusedAll(maxAttempts, customerId, vehincleType, n);
    w := Ask(maxAttempts, w, n);
    w := Accept(maxAttempts, w, n);
    w := Advance(maxAttempts, w, PickedUp, d, n + 1, 2 * n + 2);
    w := Advance(maxAttempts, w, InTransit, d, n + 1, 2 * n + 3);
    w := Advance(maxAttempts, w, Delivered, d, n + 1, 2 * n + 4);
  }
}
