/**
 * Running handlers to completion is one of the interleavings: whatever state an
 * order reaches in a run of `Runtime`, some run of `Protocol` reaches too. So
 * everything proved of the interleaved protocol holds of the services.
 */
module Refinement {
  import opened Wrappers
  import opened Orders
  import opened Transactions
  import P = Protocol
  import opened ProtocolTheorems
  import R = Runtime
  import RuntimeTheorems

  ghost predicate JobFor(w: P.World, d: DriverId) {
    exists job :: job in w.jobs && job.driverId == d
  }

  /** The world of one order agrees with the system: same row, and a job for every timeout that waits. */
  ghost predicate Simulates(w: P.World, s: R.System, id: string) {
    && id in s.orders
    && w.rec == s.orders[id]
    && forall d: DriverId :: R.DispatchTimeout(id, d) in s.pending ==> JobFor(w, d)
  }

  /** The order that an event handles, if it handles one. */
  function Handled(e: R.Event): Option<string> {
    match e
    case RunAssign(x, _, _) => Some(x)
    case RunTimeout(x, _) => Some(x)
    case Accept(x, _, _) => Some(x)
    case Reject(x, _, _) => Some(x)
    case UpdateStatus(x, _, _) => Some(x)
    case Reassign(x, _) => Some(x)
    case SoftDelete(x) => Some(x)
    case _ => None
  }

  lemma OtherRowsKept(maxAttempts: int, s: R.System, e: R.Event, id: string)
    requires id in s.orders && Handled(e) != Some(id)
    ensures var s' := R.Step(maxAttempts, s, e); id in s'.orders && s'.orders[id] == s.orders[id]
  {
  }

  /** Only an assignment of the order itself makes a timeout for it wait. */
  lemma NoNewTimeouts(maxAttempts: int, s: R.System, e: R.Event, id: string, d: DriverId)
    requires e.RunAssign? ==> e.id != id
    requires R.DispatchTimeout(id, d) in R.Step(maxAttempts, s, e).pending
    ensures R.DispatchTimeout(id, d) in s.pending
  {
  }

  /** A world that keeps its jobs and has the new row simulates the new state, unless a timeout was added. */
  lemma SameJobs(maxAttempts: int, s: R.System, e: R.Event, id: string, w: P.World, w': P.World)
    requires Simulates(w, s, id) && (e.RunAssign? ==> e.id != id)
    requires var s' := R.Step(maxAttempts, s, e); id in s'.orders && w'.rec == s'.orders[id]
    requires w.jobs <= w'.jobs
    ensures Simulates(w', R.Step(maxAttempts, s, e), id)
  {
    forall d: DriverId | R.DispatchTimeout(id, d) in R.Step(maxAttempts, s, e).pending
      ensures JobFor(w', d)
    {
      NoNewTimeouts(maxAttempts, s, e, id, d);
      assert JobFor(w, d);
      var job :| job in w.jobs && job.driverId == d;
      assert job in w'.jobs;
    }
  }

  /** The row after an answer, an update, a reassignment or a deletion. */
  function RowAfterEvent(maxAttempts: int, r: Record, e: R.Event): Record {
    match e
    case RunTimeout(_, driverId) => TimeoutTx(maxAttempts, r, driverId).0
    case Accept(_, driverId, _) => AcceptTx(r, driverId).0
    case Reject(_, driverId, _) => RejectTx(maxAttempts, r, driverId).0
    case UpdateStatus(_, newStatus, user) =>
      if r.order.deleted || UpdateCheck(r.order, newStatus, user).Fail? then r
      else UpdateTx(r, r.order, newStatus, user.userId).0
    case Reassign(_, user) =>
      if r.order.deleted || r.order.orderStatus != Expired then r else ReassignTx(r, r.order, user.userId).0
    case SoftDelete(_) =>
      if r.order.deleted || Active(r.order.orderStatus) then r else DeleteTx(r)
    case _ => r
  }

  lemma HandledRow(maxAttempts: int, s: R.System, e: R.Event, id: string)
    requires id in s.orders && Handled(e) == Some(id) && !e.RunAssign?
    requires e.RunTimeout? ==> R.DispatchTimeout(id, e.driverId) in s.pending
    ensures var s' := R.Step(maxAttempts, s, e);
            id in s'.orders && s'.orders[id] == RowAfterEvent(maxAttempts, s.orders[id], e)
  {
  }

  /** `expireOrder`, for a handler that has decided to call it. */
  lemma Expires(maxAttempts: int, w: P.World) returns (w': P.World)
    requires Reachable(maxAttempts, w) && P.Expiring in w.inFlight
    ensures Reachable(maxAttempts, w') && w'.rec == ExpireTx(w.rec) && w'.jobs == w.jobs
  {
    ReachableStep(maxAttempts, w, P.LockAndExpire);
    w' := P.Step(maxAttempts, w, P.LockAndExpire);
  }

  /** The locked assignment, for a handler that holds its candidates, and what follows it. */
  lemma Assigns(maxAttempts: int, w: P.World, candidates: seq<DriverId>, lockable: set<DriverId>) returns (w': P.World)
    requires Reachable(maxAttempts, w) && P.Locking(candidates) in w.inFlight
    ensures Reachable(maxAttempts, w') && w.jobs <= w'.jobs
    ensures var (r, driver) := AssignTx(w.rec, candidates, lockable);
            match driver
            case None => w'.rec == ExpireTx(r)
            case Some(d) => w'.rec == r && JobFor(w', d)
  {
    var (r, driver) := AssignTx(w.rec, candidates, lockable);
    ReachableStep(maxAttempts, w, P.LockAndAssign(candidates, lockable));
    w' := P.Step(maxAttempts, w, P.LockAndAssign(candidates, lockable));
    match driver
    case None =>
      assert P.Expiring in w'.inFlight && w'.rec == w.rec;
      w' := Expires(maxAttempts, w');
    case Some(d) =>
      var job := P.TimeoutJob(d, if w.epochs == [] then 0 else |w.epochs| - 1, |P.Current(w.epochs)|);
      assert P.Scheduling(job) in w'.inFlight;
      ReachableStep(maxAttempts, w', P.AddTimeoutJob(job));
      w' := P.Step(maxAttempts, w', P.AddTimeoutJob(job));
      assert job in w'.jobs;
  }

  /** `handleAssignDriver` from the read to the last write. */
  lemma AssignHandler(maxAttempts: int, w: P.World, candidates: seq<DriverId>, lockable: set<DriverId>)
    returns (w': P.World)
    requires Reachable(maxAttempts, w)
    ensures Reachable(maxAttempts, w') && w.jobs <= w'.jobs
    ensures var (r, driver) := R.AssignOrExpire(maxAttempts, w.rec, candidates, lockable);
            w'.rec == r && (driver.Some? ==> JobFor(w', driver.value))
  {
    w' := w;
    var o := w.rec.order;
    if !o.deleted && !ShouldSkipAssignment(o) {
      ReachableStep(maxAttempts, w, P.ReadForAssign);
      var read := P.Step(maxAttempts, w, P.ReadForAssign);
      if o.dispatchAttempts >= maxAttempts {
        w' := Expires(maxAttempts, read);
      } else {
        assert read == P.Start(w, P.Assigning(o));
        ReachableStep(maxAttempts, read, P.FindCandidates(o, candidates));
        var found := P.Step(maxAttempts, read, P.FindCandidates(o, candidates));
        if candidates == [] {
          w' := Expires(maxAttempts, found);
        } else {
          w' := Assigns(maxAttempts, found, candidates, lockable);
        }
      }
    }
  }

  lemma AssignSimulated(maxAttempts: int, s: R.System, e: R.Event, id: string, w: P.World) returns (w': P.World)
    requires Reachable(maxAttempts, w) && Simulates(w, s, id) && e.RunAssign? && e.id == id
    ensures Reachable(maxAttempts, w') && Simulates(w', R.Step(maxAttempts, s, e), id)
  {
    var s' := R.Step(maxAttempts, s, e);
    w' := w;
    if R.AssignDriver(id) in s.pending {
      w' := AssignHandler(maxAttempts, w, e.candidates, e.lockable);
      var (r, driver) := R.AssignOrExpire(maxAttempts, s.orders[id], e.candidates, e.lockable);
      forall d: DriverId | R.DispatchTimeout(id, d) in s'.pending
        ensures JobFor(w', d)
      {
        if driver != Some(d) {
          assert JobFor(w, d);
          var job :| job in w.jobs && job.driverId == d;
          assert job in w'.jobs;
        }
      }
    }
  }

  lemma TimeoutSimulated(maxAttempts: int, s: R.System, e: R.Event, id: string, w: P.World) returns (w': P.World)
    requires Reachable(maxAttempts, w) && Simulates(w, s, id) && e.RunTimeout? && e.id == id
    ensures Reachable(maxAttempts, w') && Simulates(w', R.Step(maxAttempts, s, e), id)
  {
    w' := w;
    if R.DispatchTimeout(id, e.driverId) in s.pending {
      assert JobFor(w, e.driverId);
      var job :| job in w.jobs && job.driverId == e.driverId;
      ReachableStep(maxAttempts, w, P.DeliverTimeout(job));
      w' := P.Step(maxAttempts, w, P.DeliverTimeout(job));
      HandledRow(maxAttempts, s, e, id);
      SameJobs(maxAttempts, s, e, id, w, w');
    }
  }

  /** Accepting and rejecting are one locked transaction each. */
  lemma AnswerHandler(maxAttempts: int, w: P.World, e: R.Event) returns (w': P.World)
    requires Reachable(maxAttempts, w) && (e.Accept? || e.Reject?)
    ensures Reachable(maxAttempts, w') && w'.jobs == w.jobs
    ensures w'.rec == if e.Accept? then AcceptTx(w.rec, e.driverId).0 else RejectTx(maxAttempts, w.rec, e.driverId).0
  {
    var step := if e.Accept? then P.AcceptDispatch(e.driverId) else P.RejectDispatch(e.driverId);
    ReachableStep(maxAttempts, w, step);
    w' := P.Step(maxAttempts, w, step);
  }

  lemma UpdateHandler(maxAttempts: int, w: P.World, newStatus: OrderStatus, user: JwtUser) returns (w': P.World)
    requires Reachable(maxAttempts, w)
    ensures Reachable(maxAttempts, w') && w'.jobs == w.jobs
    ensures var o := w.rec.order;
            w'.rec == if o.deleted || UpdateCheck(o, newStatus, user).Fail? then w.rec
                      else UpdateTx(w.rec, o, newStatus, user.userId).0
  {
    var o := w.rec.order;
    w' := w;
    if !o.deleted && UpdateCheck(o, newStatus, user).Pass? {
      w' := UpdateReached(maxAttempts, w, newStatus, user);
    }
  }

  lemma ReassignHandler(maxAttempts: int, w: P.World, user: JwtUser) returns (w': P.World)
    requires Reachable(maxAttempts, w)
    ensures Reachable(maxAttempts, w') && w'.jobs == w.jobs
    ensures var o := w.rec.order;
            w'.rec == if o.deleted || o.orderStatus != Expired then w.rec else ReassignTx(w.rec, o, user.userId).0
  {
    var o := w.rec.order;
    w' := w;
    if !o.deleted && o.orderStatus == Expired {
      w' := ResetReached(maxAttempts, w, user);
    }
  }

  lemma DeleteSteps(maxAttempts: int, w: P.World)
    requires !w.rec.order.deleted && !Active(w.rec.order.orderStatus)
    ensures P.Step(maxAttempts, w, P.ReadForDelete) == P.Start(w, P.Deleting(w.rec.order))
  {
  }

  lemma DeleteCommits(maxAttempts: int, w: P.World, s: Order)
    requires P.Deleting(s) in w.inFlight
    ensures var w' := P.Step(maxAttempts, w, P.CommitDelete(s)); w'.rec == DeleteTx(w.rec) && w'.jobs == w.jobs
  {
  }

  lemma DeleteHandler(maxAttempts: int, w: P.World) returns (w': P.World)
    requires Reachable(maxAttempts, w)
    ensures Reachable(maxAttempts, w') && w'.jobs == w.jobs
    ensures var o := w.rec.order;
            w'.rec == if o.deleted || Active(o.orderStatus) then w.rec else DeleteTx(w.rec)
  {
    var o := w.rec.order;
    w' := w;
    if !o.deleted && !Active(o.orderStatus) {
      DeleteSteps(maxAttempts, w);
      ReachableStep(maxAttempts, w, P.ReadForDelete);
      var reading := P.Start(w, P.Deleting(o));
      DeleteCommits(maxAttempts, reading, o);
      ReachableStep(maxAttempts, reading, P.CommitDelete(o));
      w' := P.Step(maxAttempts, reading, P.CommitDelete(o));
    }
  }

  /** The handlers of HTTP requests, as steps of the protocol: a read and a write, or one locked transaction. */
  lemma RequestHandler(maxAttempts: int, w: P.World, e: R.Event) returns (w': P.World)
    requires Reachable(maxAttempts, w)
    requires e.Accept? || e.Reject? || e.UpdateStatus? || e.Reassign? || e.SoftDelete?
    ensures Reachable(maxAttempts, w') && w'.jobs == w.jobs
    ensures w'.rec == RowAfterEvent(maxAttempts, w.rec, e)
  {
    match e
    case UpdateStatus(_, newStatus, user) => w' := UpdateHandler(maxAttempts, w, newStatus, user);
    case Reassign(_, user) => w' := ReassignHandler(maxAttempts, w, user);
    case SoftDelete(_) => w' := DeleteHandler(maxAttempts, w);
    case _ => w' := AnswerHandler(maxAttempts, w, e);
  }

  /** Each handler, run to completion, is a sequence of steps of the interleaved protocol. */
  lemma StepSimulated(maxAttempts: int, s: R.System, e: R.Event, id: string, w: P.World) returns (w': P.World)
    requires Reachable(maxAttempts, w) && Simulates(w, s, id)
    ensures Reachable(maxAttempts, w') && Simulates(w', R.Step(maxAttempts, s, e), id)
  {
    w' := w;
    if Handled(e) != Some(id) {
      OtherRowsKept(maxAttempts, s, e, id);
      SameJobs(maxAttempts, s, e, id, w, w);
    } else if e.RunAssign? {
      w' := AssignSimulated(maxAttempts, s, e, id, w);
    } else if e.RunTimeout? {
      w' := TimeoutSimulated(maxAttempts, s, e, id, w);
    } else {
      w' := RequestHandler(maxAttempts, w, e);
      HandledRow(maxAttempts, s, e, id);
      SameJobs(maxAttempts, s, e, id, w, w');
    }
  }

  /** Every state of an order in a run of the services is a state of the order in some run of the protocol. */
  lemma {:induction false} RuntimeRefinesProtocol(maxAttempts: int, es: seq<R.Event>, id: string) returns (w: P.World)
    requires id in RuntimeTheorems.RunAll(maxAttempts, es).orders
    ensures Reachable(maxAttempts, w) && Simulates(w, RuntimeTheorems.RunAll(maxAttempts, es), id)
    decreases |es|
  {
    var front := es[..|es| - 1];
    var s := RuntimeTheorems.RunAll(maxAttempts, front);
    var e := es[|es| - 1];
    if id in s.orders {
      w := RuntimeRefinesProtocol(maxAttempts, front, id);
      w := StepSimulated(maxAttempts, s, e, id, w);
    } else {
      w := P.Init(e.customerId, e.vehincleType);
      assert w == P.Run(maxAttempts, e.customerId, e.vehincleType, []);
    }
  }

  /** For instance: the audit trail, the attempt counter and the bound on writes, for every order of every run. */
  lemma RuntimeOrdersAreSound(maxAttempts: int, es: seq<R.Event>, id: string)
    requires maxAttempts >= 1 && id in RuntimeTheorems.RunAll(maxAttempts, es).orders
    ensures var r := RuntimeTheorems.RunAll(maxAttempts, es).orders[id];
            && P.AuditOk(r)
            && P.SinceReset(r.history) <= 2 * ((maxAttempts + 1) / 2) + 3
            && (r.order.orderStatus == Pending ==>
                  r.order.dispatchAttempts % 2 == 0 && r.order.dispatchAttempts < maxAttempts)
            && (r.order.orderStatus == DriverAssigned ==>
                  r.order.dispatchAttempts % 2 == 1 && r.order.dispatchAttempts <= maxAttempts)
  {
    var w := RuntimeRefinesProtocol(maxAttempts, es, id);
    AuditTrailExact(maxAttempts, w);
    WritesBounded(maxAttempts, w);
    AttemptArithmetic(maxAttempts, w);
  }
}
