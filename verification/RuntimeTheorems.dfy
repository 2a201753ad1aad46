/**
 * With handlers that run to completion no open offer is without its timeout and
 * no dispatch work is lost, exactly as long as no needed job is added under an
 * id that the queue still retains.
 */
module RuntimeTheorems {
  import opened Wrappers
  import opened Orders
  import opened NearestDrivers
  import opened Transactions
  import opened Outbox
  import opened Runtime

  predicate SoundAt(s: System, id: string) {
    && KeyOk(s, id)
    && (id in s.orders ==> OfferTimed(s, id, s.orders[id].order) && WorkKept(s, id, s.orders[id].order))
  }

  lemma SoundPointwise(s: System)
    ensures Sound(s) <==> s.pending !! s.retained && forall id :: SoundAt(s, id)
  {
    if s.pending !! s.retained && forall id :: SoundAt(s, id) {
      forall id | id in s.orders
        ensures OfferTimed(s, id, s.orders[id].order) && WorkKept(s, id, s.orders[id].order)
      {
        assert SoundAt(s, id);
      }
      forall id | id in s.timeoutKeys
        ensures KeyOk(s, id)
      {
        assert SoundAt(s, id);
      }
    }
  }

  /** Between `s` and `s'` no order but `id` has changed, lost a waiting job or owing outbox row, or got another key. */
  ghost predicate OnlyTouches(s: System, s': System, id: string) {
    && (forall x :: x != id && x in s'.orders ==> x in s.orders && s'.orders[x] == s.orders[x])
    && (forall job: Job :: job.orderId != id && job in s.pending ==> job in s'.pending)
    && (forall x :: x != id && OwesDispatch(s.outbox, x) ==> OwesDispatch(s'.outbox, x))
    && (forall x :: x != id && x in s'.timeoutKeys ==> x in s.timeoutKeys && s'.timeoutKeys[x] == s.timeoutKeys[x])
    && (forall x :: x != id && x in s.orders ==> x in s'.orders)
  }

  lemma OthersStaySound(s: System, s': System, id: string, x: string)
    requires SoundAt(s, x) && OnlyTouches(s, s', id) && x != id
    ensures SoundAt(s', x)
  {
  }

  lemma SoundByTouch(s: System, s': System, id: string)
    requires Sound(s) && OnlyTouches(s, s', id)
    ensures Sound(s') <==> s'.pending !! s'.retained && SoundAt(s', id)
  {
    SoundPointwise(s);
    SoundPointwise(s');
    forall x | x != id
      ensures SoundAt(s', x)
    {
      OthersStaySound(s, s', id, x);
    }
  }

  // ----- one event at a time

  lemma CreateKeeps(maxAttempts: int, s: System, e: Event)
    requires Sound(s) && e.Create?
    ensures Sound(Step(maxAttempts, s, e))
  {
    var s' := Step(maxAttempts, s, e);
    if FreshId(s, e.id) {
      forall x | OwesDispatch(s.outbox, x)
        ensures OwesDispatch(s'.outbox, x)
      {
        var i :| 0 <= i < |s.outbox| && Unfinished(s.outbox[i], x);
        assert s'.outbox[i] == s.outbox[i];
      }
      assert Unfinished(s'.outbox[|s.outbox|], e.id);
      SoundByTouch(s, s', e.id);
    }
  }

  lemma AssignOutcome(maxAttempts: int, r: Record, candidates: seq<DriverId>, lockable: set<DriverId>)
    ensures var (r', driver) := AssignOrExpire(maxAttempts, r, candidates, lockable);
            && !LivePending(r'.order)
            && (driver.Some? ==>
                  && !r'.order.deleted && r'.order.orderStatus == DriverAssigned
                  && r'.order.assignedDriverId == driver)
            && (driver.None? ==> r' == r || r'.order.orderStatus == Expired)
  {
  }

  lemma RunAssignTouches(maxAttempts: int, s: System, e: Event)
    requires s.pending !! s.retained && e.RunAssign?
    ensures var s' := Step(maxAttempts, s, e); OnlyTouches(s, s', e.id) && s'.pending !! s'.retained
  {
  }

  lemma RunAssignAt(maxAttempts: int, s: System, e: Event)
    requires s.pending !! s.retained && e.RunAssign? && SoundAt(s, e.id)
    requires AssignDriver(e.id) in s.pending && e.id in s.orders
    ensures SoundAt(Step(maxAttempts, s, e), e.id) <==> !AddIsLost(maxAttempts, s, e)
  {
    var s' := Step(maxAttempts, s, e);
    AssignOutcome(maxAttempts, s.orders[e.id], e.candidates, e.lockable);
    var (r, driver) := AssignOrExpire(maxAttempts, s.orders[e.id], e.candidates, e.lockable);
    assert s'.orders[e.id] == r;
    if driver.Some? {
      var job := DispatchTimeout(e.id, driver.value);
      assert s'.timeoutKeys[e.id] == job;
      assert job in s'.pending <==> job !in s.retained;
      assert OfferTimed(s', e.id, r.order) <==> job in s'.pending;
      assert SoundAt(s', e.id) <==> job in s'.pending;
    } else if r.order.orderStatus == DriverAssigned {
      var own :| own in s.pending && own.DispatchTimeout? && own.orderId == e.id
                 && r.order.assignedDriverId == Some(own.driverId);
      assert own in s'.pending;
    }
  }

  lemma RunAssignKeeps(maxAttempts: int, s: System, e: Event)
    requires Sound(s) && e.RunAssign?
    ensures Sound(Step(maxAttempts, s, e)) <==> !AddIsLost(maxAttempts, s, e)
  {
    var s' := Step(maxAttempts, s, e);
    SoundPointwise(s);
    RunAssignTouches(maxAttempts, s, e);
    SoundByTouch(s, s', e.id);
    if AssignDriver(e.id) in s.pending && e.id in s.orders {
      RunAssignAt(maxAttempts, s, e);
    }
  }

  lemma TouchesTwice(s: System, t: System, u: System, id: string)
    requires OnlyTouches(s, t, id) && OnlyTouches(t, u, id)
    ensures OnlyTouches(s, u, id)
  {
  }

  lemma AddTouches(s: System, job: Job)
    ensures OnlyTouches(s, Add(s, job), job.orderId)
    ensures s.pending !! s.retained ==> Add(s, job).pending !! Add(s, job).retained
  {
  }

  lemma RunTimeoutTouches(maxAttempts: int, s: System, e: Event)
    requires s.pending !! s.retained && e.RunTimeout?
    ensures var s' := Step(maxAttempts, s, e); OnlyTouches(s, s', e.id) && s'.pending !! s'.retained
  {
    var job := DispatchTimeout(e.id, e.driverId);
    if job in s.pending && e.id in s.orders {
      var (r, result) := TimeoutTx(maxAttempts, s.orders[e.id], e.driverId);
      var t := SetRecord(Begin(s, job), e.id, r);
      var u := if result == Skip then t else t.(timeoutKeys := s.timeoutKeys - {e.id});
      var v := if result == TimeoutRedispatch then Add(u, AssignDriver(e.id)) else u;
      assert OnlyTouches(s, u, e.id);
      AddTouches(u, AssignDriver(e.id));
      TouchesTwice(s, u, v, e.id);
      assert Step(maxAttempts, s, e) == Finish(v, job);
    }
  }

  lemma RunTimeoutAt(maxAttempts: int, s: System, e: Event)
    requires s.pending !! s.retained && e.RunTimeout? && SoundAt(s, e.id)
    requires DispatchTimeout(e.id, e.driverId) in s.pending && e.id in s.orders
    ensures SoundAt(Step(maxAttempts, s, e), e.id) <==> !AddIsLost(maxAttempts, s, e)
  {
    var s' := Step(maxAttempts, s, e);
    var o := s.orders[e.id].order;
    var (r, result) := TimeoutTx(maxAttempts, s.orders[e.id], e.driverId);
    assert s'.orders[e.id] == r;
    if result == Skip && o.orderStatus == DriverAssigned {
      var own :| own in s.pending && own.DispatchTimeout? && own.orderId == e.id
                 && o.assignedDriverId == Some(own.driverId);
      assert own in s'.pending;
    }
  }

  lemma RunTimeoutKeeps(maxAttempts: int, s: System, e: Event)
    requires Sound(s) && e.RunTimeout?
    ensures Sound(Step(maxAttempts, s, e)) <==> !AddIsLost(maxAttempts, s, e)
  {
    var s' := Step(maxAttempts, s, e);
    SoundPointwise(s);
    RunTimeoutTouches(maxAttempts, s, e);
    SoundByTouch(s, s', e.id);
    if DispatchTimeout(e.id, e.driverId) in s.pending && e.id in s.orders {
      RunTimeoutAt(maxAttempts, s, e);
    }
  }

  lemma AcceptTouches(maxAttempts: int, s: System, e: Event)
    requires s.pending !! s.retained && e.Accept? && KeyOk(s, e.id)
    ensures var s' := Step(maxAttempts, s, e); OnlyTouches(s, s', e.id) && s'.pending !! s'.retained
  {
  }

  lemma AcceptAt(maxAttempts: int, s: System, e: Event)
    requires e.Accept? && SoundAt(s, e.id) && e.id in s.orders
    ensures SoundAt(Step(maxAttempts, s, e), e.id)
  {
    assert Step(maxAttempts, s, e).orders[e.id] == AcceptTx(s.orders[e.id], e.driverId).0;
  }

  lemma AcceptKeeps(maxAttempts: int, s: System, e: Event)
    requires Sound(s) && e.Accept?
    ensures Sound(Step(maxAttempts, s, e))
  {
    SoundPointwise(s);
    AcceptTouches(maxAttempts, s, e);
    SoundByTouch(s, Step(maxAttempts, s, e), e.id);
    if e.id in s.orders {
      AcceptAt(maxAttempts, s, e);
    }
  }

  lemma RejectTouches(maxAttempts: int, s: System, e: Event)
    requires s.pending !! s.retained && e.Reject? && KeyOk(s, e.id)
    ensures var s' := Step(maxAttempts, s, e); OnlyTouches(s, s', e.id) && s'.pending !! s'.retained
  {
  }

  lemma RejectAt(maxAttempts: int, s: System, e: Event)
    requires s.pending !! s.retained && e.Reject? && SoundAt(s, e.id) && e.id in s.orders
    ensures SoundAt(Step(maxAttempts, s, e), e.id) <==> !AddIsLost(maxAttempts, s, e)
  {
    var s' := Step(maxAttempts, s, e);
    var (r, result) := RejectTx(maxAttempts, s.orders[e.id], e.driverId);
    assert s'.orders[e.id] == r;
    if result == Ok(RejectRedispatch) {
      assert AssignDriver(e.id) in s'.pending <==> AssignDriver(e.id) !in s.retained;
    }
  }

  lemma RejectKeeps(maxAttempts: int, s: System, e: Event)
    requires Sound(s) && e.Reject?
    ensures Sound(Step(maxAttempts, s, e)) <==> !AddIsLost(maxAttempts, s, e)
  {
    SoundPointwise(s);
    RejectTouches(maxAttempts, s, e);
    SoundByTouch(s, Step(maxAttempts, s, e), e.id);
    if e.id in s.orders {
      RejectAt(maxAttempts, s, e);
    }
  }

  /** `updateStatus` and `softDelete` write the row and nothing else. */
  lemma RowWriteTouches(maxAttempts: int, s: System, e: Event)
    requires s.pending !! s.retained && (e.UpdateStatus? || e.SoftDelete?)
    ensures var s' := Step(maxAttempts, s, e); OnlyTouches(s, s', e.id) && s'.pending !! s'.retained
  {
  }

  lemma RowWriteAt(maxAttempts: int, s: System, e: Event)
    requires (e.UpdateStatus? || e.SoftDelete?) && SoundAt(s, e.id) && e.id in s.orders
    ensures SoundAt(Step(maxAttempts, s, e), e.id)
  {
    if e.UpdateStatus? {
      UpdateCheckExact(s.orders[e.id].order, e.newStatus, e.user);
    }
  }

  lemma RowWriteKeeps(maxAttempts: int, s: System, e: Event)
    requires Sound(s) && (e.UpdateStatus? || e.SoftDelete?)
    ensures Sound(Step(maxAttempts, s, e))
  {
    SoundPointwise(s);
    RowWriteTouches(maxAttempts, s, e);
    SoundByTouch(s, Step(maxAttempts, s, e), e.id);
    if e.id in s.orders {
      RowWriteAt(maxAttempts, s, e);
    }
  }

  lemma ReassignTouches(maxAttempts: int, s: System, e: Event)
    requires s.pending !! s.retained && e.Reassign?
    ensures var s' := Step(maxAttempts, s, e); OnlyTouches(s, s', e.id) && s'.pending !! s'.retained
  {
  }

  lemma ReassignAt(maxAttempts: int, s: System, e: Event)
    requires s.pending !! s.retained && e.Reassign? && SoundAt(s, e.id) && e.id in s.orders
    ensures SoundAt(Step(maxAttempts, s, e), e.id) <==> !AddIsLost(maxAttempts, s, e)
  {
    var s' := Step(maxAttempts, s, e);
    if s' != s {
      assert AssignDriver(e.id) in s'.pending <==> AssignDriver(e.id) !in s.retained;
    }
  }

  lemma ReassignKeeps(maxAttempts: int, s: System, e: Event)
    requires Sound(s) && e.Reassign?
    ensures Sound(Step(maxAttempts, s, e)) <==> !AddIsLost(maxAttempts, s, e)
  {
    SoundPointwise(s);
    ReassignTouches(maxAttempts, s, e);
    SoundByTouch(s, Step(maxAttempts, s, e), e.id);
    if e.id in s.orders {
      ReassignAt(maxAttempts, s, e);
    }
  }

  /** The order that an outbox row is about, if it is about one. */
  function RowOrder(row: OutboxEvent): string {
    if row.payload.Some? then row.payload.value else ""
  }

  lemma OutboxRowTouches(maxAttempts: int, s: System, e: Event)
    requires s.pending !! s.retained && e.OutboxRow? && e.i < |s.outbox| && s.outbox[e.i].status == OutboxPending
    ensures var s' := Step(maxAttempts, s, e); OnlyTouches(s, s', RowOrder(s.outbox[e.i])) && s'.pending !! s'.retained
  {
    var s' := Step(maxAttempts, s, e);
    forall x | x != RowOrder(s.outbox[e.i]) && OwesDispatch(s.outbox, x)
      ensures OwesDispatch(s'.outbox, x)
    {
      var i :| 0 <= i < |s.outbox| && Unfinished(s.outbox[i], x);
      assert s'.outbox[i] == s.outbox[i];
    }
  }

  /** A row that owes nothing may be left out. */
  lemma OwedByOthers(outbox: seq<OutboxEvent>, i: nat, row: OutboxEvent, id: string)
    requires i < |outbox| && !Unfinished(row, id)
    ensures OwesDispatch(outbox[i := row], id) <==> OwesDispatch(outbox[..i] + outbox[i + 1..], id)
  {
    var a, b := outbox[i := row], outbox[..i] + outbox[i + 1..];
    if OwesDispatch(a, id) {
      var k :| 0 <= k < |a| && Unfinished(a[k], id);
      assert b[if k < i then k else k - 1] == a[k];
    }
    if OwesDispatch(b, id) {
      var k :| 0 <= k < |b| && Unfinished(b[k], id);
      assert a[if k < i then k else k + 1] == b[k];
    }
  }

  /** A row that is not marked PROCESSED goes on to owe what it owed. */
  lemma StillOwed(outbox: seq<OutboxEvent>, i: nat, luck: Luck, id: string)
    requires i < |outbox| && !(Triggers(outbox[i], luck) && MarkedProcessed(outbox[i], luck))
    requires OwesDispatch(outbox, id)
    ensures OwesDispatch(outbox[i := Saved(outbox[i], luck)], id)
  {
    var k :| 0 <= k < |outbox| && Unfinished(outbox[k], id);
    assert Unfinished(outbox[i := Saved(outbox[i], luck)][k], id);
  }

  lemma OutboxRowAt(maxAttempts: int, s: System, e: Event)
    requires s.pending !! s.retained && e.OutboxRow? && e.i < |s.outbox| && s.outbox[e.i].status == OutboxPending
    requires SoundAt(s, RowOrder(s.outbox[e.i]))
    ensures SoundAt(Step(maxAttempts, s, e), RowOrder(s.outbox[e.i])) <==> !AddIsLost(maxAttempts, s, e)
  {
    var s' := Step(maxAttempts, s, e);
    var id := RowOrder(s.outbox[e.i]);
    var row := s.outbox[e.i];
    if Triggers(row, e.luck) && MarkedProcessed(row, e.luck) {
      OwedByOthers(s.outbox, e.i, Saved(row, e.luck), id);
    } else if OwesDispatch(s.outbox, id) {
      StillOwed(s.outbox, e.i, e.luck, id);
    }
  }

  lemma OutboxRowKeeps(maxAttempts: int, s: System, e: Event)
    requires Sound(s) && e.OutboxRow?
    ensures Sound(Step(maxAttempts, s, e)) <==> !AddIsLost(maxAttempts, s, e)
  {
    if e.i < |s.outbox| && s.outbox[e.i].status == OutboxPending {
      SoundPointwise(s);
      OutboxRowTouches(maxAttempts, s, e);
      SoundByTouch(s, Step(maxAttempts, s, e), RowOrder(s.outbox[e.i]));
      OutboxRowAt(maxAttempts, s, e);
    }
  }

  lemma QuietKeeps(maxAttempts: int, s: System, e: Event)
    requires Sound(s) && (e.KeyExpires? || e.Evict?)
    ensures Sound(Step(maxAttempts, s, e))
  {
    var s' := Step(maxAttempts, s, e);
    var id := if e.KeyExpires? then e.id else e.job.orderId;
    assert SoundAt(s, id);
    SoundByTouch(s, s', id);
  }

  /**
   * The exact condition: an event keeps every open offer timed and every live
   * PENDING order served if and only if it does not lose a needed job to an id
   * that the queue still retains.
   */
  lemma StepKeepsWork(maxAttempts: int, s: System, e: Event)
    requires Sound(s)
    ensures Sound(Step(maxAttempts, s, e)) <==> !AddIsLost(maxAttempts, s, e)
  {
    match e
    case Create(_, _, _) => CreateKeeps(maxAttempts, s, e);
    case RunAssign(_, _, _) => RunAssignKeeps(maxAttempts, s, e);
    case RunTimeout(_, _) => RunTimeoutKeeps(maxAttempts, s, e);
    case Accept(_, _, _) => AcceptKeeps(maxAttempts, s, e);
    case Reject(_, _, _) => RejectKeeps(maxAttempts, s, e);
    case UpdateStatus(_, _, _) => RowWriteKeeps(maxAttempts, s, e);
    case Reassign(_, _) => ReassignKeeps(maxAttempts, s, e);
    case SoftDelete(_) => RowWriteKeeps(maxAttempts, s, e);
    case OutboxRow(_, _) => OutboxRowKeeps(maxAttempts, s, e);
    case KeyExpires(_) => QuietKeeps(maxAttempts, s, e);
    case Evict(_) => QuietKeeps(maxAttempts, s, e);
  }

  // ----- passes of the outbox worker

  /** Rows later in the batch are as they were when the batch was selected. */
  lemma {:induction false} BatchRows(s: System, batch: seq<nat>, luck: nat -> Luck)
    requires PendingPlaces(s.outbox, batch)
    ensures HandleRows(s, batch, luck).outbox == HandleAll(s.outbox, batch, luck)
  {
    if batch != [] {
      var n := |batch| - 1;
      BatchRows(s, batch[..n], luck);
      Untouched(s.outbox, batch[..n], luck, batch[n]);
    }
  }

  lemma {:induction false} NextOfBatch(s: System, batch: seq<nat>, luck: nat -> Luck, j: nat)
    requires PendingPlaces(s.outbox, batch) && j < |batch|
    ensures var i := batch[j]; var now := HandleRows(s, batch[..j], luck);
            && i < |now.outbox| && now.outbox[i] == s.outbox[i]
            && HandleRows(s, batch[..j + 1], luck) == HandleCopy(now, i, s.outbox[i], luck(i))
  {
    assert batch[..j + 1][..j] == batch[..j];
    BatchRows(s, batch[..j], luck);
    Untouched(s.outbox, batch[..j], luck, batch[j]);
  }

  /** What a pass does to the outbox of the whole system is what `Outbox` proves about passes. */
  lemma PassOnOutbox(s: System, luck: nat -> Luck)
    ensures OutboxPass(s, luck).outbox == OnePass(s.outbox, luck)
  {
    BatchRows(s, Batch(s.outbox, 0, BATCH_SIZE), luck);
  }

  /** Row `i` asks for the job, and the queue is reached. */
  predicate AsksFor(row: OutboxEvent, luck: Luck, job: Job) {
    row.eventType == "dispatch.trigger" && row.payload.Some? && luck.triggerOk && job == AssignDriver(row.payload.value)
  }

  ghost predicate Asked(rows: seq<OutboxEvent>, batch: seq<nat>, luck: nat -> Luck, job: Job)
    requires forall j :: 0 <= j < |batch| ==> batch[j] < |rows|
  {
    exists j :: 0 <= j < |batch| && AsksFor(rows[batch[j]], luck(batch[j]), job)
  }

  lemma AskedStep(rows: seq<OutboxEvent>, batch: seq<nat>, luck: nat -> Luck, job: Job)
    requires batch != [] && forall j :: 0 <= j < |batch| ==> batch[j] < |rows|
    ensures var n := |batch| - 1;
            Asked(rows, batch, luck, job)
            <==> Asked(rows, batch[..n], luck, job) || AsksFor(rows[batch[n]], luck(batch[n]), job)
  {
    var n := |batch| - 1;
    if Asked(rows, batch[..n], luck, job) {
      var j :| 0 <= j < n && AsksFor(rows[batch[..n][j]], luck(batch[..n][j]), job);
      assert batch[j] == batch[..n][j];
    }
    if Asked(rows, batch, luck, job) {
      var j :| 0 <= j < |batch| && AsksFor(rows[batch[j]], luck(batch[j]), job);
      assert j < n ==> batch[..n][j] == batch[j];
    }
  }

  lemma {:induction false} BatchJobs(s: System, batch: seq<nat>, luck: nat -> Luck, job: Job)
    requires PendingPlaces(s.outbox, batch)
    ensures var s' := HandleRows(s, batch, luck);
            && s' == s.(pending := s'.pending, outbox := s'.outbox)
            && (job in s'.pending <==> job in s.pending || (job !in s.retained && Asked(s.outbox, batch, luck, job)))
  {
    if batch != [] {
      var n := |batch| - 1;
      BatchJobs(s, batch[..n], luck, job);
      AskedStep(s.outbox, batch, luck, job);
      NextOfBatch(s, batch, luck, n);
      assert batch[..n + 1] == batch;
    }
  }

  /** A row whose turn it is asks for the job. */
  ghost predicate AskedInTurn(rows: seq<OutboxEvent>, luck: nat -> Luck, job: Job) {
    exists i: nat :: InTurn(rows, i) && AsksFor(rows[i], luck(i), job)
  }

  lemma AskedByBatch(rows: seq<OutboxEvent>, luck: nat -> Luck, job: Job)
    ensures Asked(rows, Batch(rows, 0, BATCH_SIZE), luck, job) <==> AskedInTurn(rows, luck, job)
  {
    var batch := Batch(rows, 0, BATCH_SIZE);
    if Asked(rows, batch, luck, job) {
      var j :| 0 <= j < |batch| && AsksFor(rows[batch[j]], luck(batch[j]), job);
      BatchExactly(rows, batch[j]);
    }
    if AskedInTurn(rows, luck, job) {
      var i: nat :| InTurn(rows, i) && AsksFor(rows[i], luck(i), job);
      BatchExactly(rows, i);
      var j :| 0 <= j < |batch| && batch[j] == i;
    }
  }

  /** The jobs after a pass: those before it, and those that a row in turn asked for, unless retained. */
  lemma PassJobs(s: System, luck: nat -> Luck, job: Job)
    ensures var s' := OutboxPass(s, luck);
            && s' == s.(pending := s'.pending, outbox := s'.outbox)
            && (job in s'.pending <==>
                  job in s.pending || (job !in s.retained && AskedInTurn(s.outbox, luck, job)))
  {
    BatchJobs(s, Batch(s.outbox, 0, BATCH_SIZE), luck, job);
    AskedByBatch(s.outbox, luck, job);
  }

  // ----- whole runs

  function RunAll(maxAttempts: int, es: seq<Event>): System {
    if es == [] then EMPTY_SYSTEM else Step(maxAttempts, RunAll(maxAttempts, es[..|es| - 1]), es[|es| - 1])
  }

  function PassEvents(batch: seq<nat>, luck: nat -> Luck): seq<Event> {
    seq(|batch|, j requires 0 <= j < |batch| => OutboxRow(batch[j], luck(batch[j])))
  }

  lemma RunOneMore(maxAttempts: int, es: seq<Event>, e: Event)
    ensures RunAll(maxAttempts, es + [e]) == Step(maxAttempts, RunAll(maxAttempts, es), e)
  {
    assert (es + [e])[..|es|] == es;
  }

  lemma OneMoreRow(maxAttempts: int, es: seq<Event>, i: nat, luck: Luck)
    ensures RunAll(maxAttempts, es + [OutboxRow(i, luck)]) == HandleOutboxRow(RunAll(maxAttempts, es), i, luck)
  {
    RunOneMore(maxAttempts, es, OutboxRow(i, luck));
  }

  lemma OneMoreEvent(es: seq<Event>, batch: seq<nat>, luck: nat -> Luck)
    requires batch != []
    ensures var n := |batch| - 1;
            es + PassEvents(batch, luck) == es + PassEvents(batch[..n], luck) + [OutboxRow(batch[n], luck(batch[n]))]
  {
  }

  /** A pass is a stretch of a run: one event for each row of its batch. */
  lemma {:induction false} PassIsRun(maxAttempts: int, es: seq<Event>, batch: seq<nat>, luck: nat -> Luck)
    ensures HandleRows(RunAll(maxAttempts, es), batch, luck) == RunAll(maxAttempts, es + PassEvents(batch, luck))
    decreases |batch|
  {
    if batch == [] {
      assert es + PassEvents(batch, luck) == es;
    } else {
      var n := |batch| - 1;
      PassIsRun(maxAttempts, es, batch[..n], luck);
      OneMoreEvent(es, batch, luck);
      OneMoreRow(maxAttempts, es + PassEvents(batch[..n], luck), batch[n], luck(batch[n]));
    }
  }

  /** No event of the run loses a needed job; so it is in every run if finished ids can be used again. */
  predicate NoAddLost(maxAttempts: int, es: seq<Event>) {
    es != [] ==>
      && NoAddLost(maxAttempts, es[..|es| - 1])
      && !AddIsLost(maxAttempts, RunAll(maxAttempts, es[..|es| - 1]), es[|es| - 1])
  }

  ghost predicate AlwaysSound(maxAttempts: int, es: seq<Event>) {
    forall k :: 0 <= k <= |es| ==> Sound(RunAll(maxAttempts, es[..k]))
  }

  lemma AlwaysSoundStep(maxAttempts: int, es: seq<Event>)
    requires es != []
    ensures AlwaysSound(maxAttempts, es)
            <==> AlwaysSound(maxAttempts, es[..|es| - 1]) && Sound(RunAll(maxAttempts, es))
  {
    var front := es[..|es| - 1];
    assert es[..|es|] == es;
    assert forall k :: 0 <= k <= |front| ==> front[..k] == es[..k];
  }

  /** Offers stay timed and work stays kept throughout a run exactly when the run loses no needed job. */
  lemma {:induction false} RunKeepsWork(maxAttempts: int, es: seq<Event>)
    ensures NoAddLost(maxAttempts, es) <==> AlwaysSound(maxAttempts, es)
  {
    if es != [] {
      var front := es[..|es| - 1];
      RunKeepsWork(maxAttempts, front);
      AlwaysSoundStep(maxAttempts, es);
      if AlwaysSound(maxAttempts, front) {
        assert front[..|front|] == front;
        StepKeepsWork(maxAttempts, RunAll(maxAttempts, front), es[|es| - 1]);
      }
    }
  }

  /** In particular, when every job is added under an id that the queue has forgotten. */
  lemma {:induction false} ReusableIdsLoseNothing(maxAttempts: int, es: seq<Event>)
    requires forall k :: 0 <= k < |es| ==>
               var s := RunAll(maxAttempts, es[..k]);
               var added := AddedJob(maxAttempts, s, es[k]);
               added.Some? ==> added.value !in s.retained
    ensures Sound(RunAll(maxAttempts, es))
  {
    if es != [] {
      var front := es[..|es| - 1];
      assert forall k :: 0 <= k < |front| ==> front[..k] == es[..k] && front[k] == es[k];
      ReusableIdsLoseNothing(maxAttempts, front);
      assert front == es[..|front|];
      StepKeepsWork(maxAttempts, RunAll(maxAttempts, front), es[|es| - 1]);
    }
  }

  // ----- what is lost, and what is cleaned up

  const ALL_WELL := Luck(true, true, true)

  lemma LoneCandidate(r: Record, d: DriverId)
    requires r.order.orderStatus == Pending && !r.order.deleted && r.order.attemptedDriverIds == []
    ensures AssignTx(r, [d], {d}).1 == Some(d)
    ensures var o := AssignTx(r, [d], {d}).0.order;
            o.orderStatus == DriverAssigned && !o.deleted && o.assignedDriverId == Some(d)
            && o.dispatchAttempts == r.order.dispatchAttempts + 1
  {
    assert FirstFree([d], [], {d}) == Some(d);
    assert Distinct(NonEmpty([])) == [];
  }

  /** Created, and handed to the queue by the outbox. */
  lemma CreatedAndQueued(id: string, customerId: string) returns (s: System)
    ensures s == Step(3, Step(3, EMPTY_SYSTEM, Create(id, customerId, Car)), OutboxRow(0, ALL_WELL))
    ensures s.orders == map[id := CreateOrder(customerId, Car)]
    ensures s.pending == {AssignDriver(id)} && s.retained == {} && s.outbox == [NewRow(id).(status := OutboxProcessed)]
  {
    var s1 := Step(3, EMPTY_SYSTEM, Create(id, customerId, Car));
    assert s1.outbox == [NewRow(id)] && s1.orders == map[id := CreateOrder(customerId, Car)];
    s := Step(3, s1, OutboxRow(0, ALL_WELL));
  }

  /** Offered to the only candidate. */
  lemma OfferedOnce(s: System, id: string, customerId: string, d: DriverId) returns (s': System)
    requires s.orders == map[id := CreateOrder(customerId, Car)] && s.pending == {AssignDriver(id)} && s.retained == {}
    ensures s' == Step(3, s, RunAssign(id, [d], {d}))
    ensures s'.pending == {DispatchTimeout(id, d)} && s'.retained == {AssignDriver(id)} && s'.outbox == s.outbox
    ensures id in s'.orders
    ensures var o := s'.orders[id].order;
            o.orderStatus == DriverAssigned && !o.deleted && o.assignedDriverId == Some(d) && o.dispatchAttempts == 1
  {
    LoneCandidate(s.orders[id], d);
    s' := Step(3, s, RunAssign(id, [d], {d}));
  }

  /** The driver lets the offer time out, and the redispatch is ignored. */
  lemma RedispatchIgnored(s: System, id: string, d: DriverId) returns (s': System)
    requires s.pending == {DispatchTimeout(id, d)} && s.retained == {AssignDriver(id)} && id in s.orders
    requires var o := s.orders[id].order;
             o.orderStatus == DriverAssigned && !o.deleted && o.assignedDriverId == Some(d) && o.dispatchAttempts == 1
    requires !OwesDispatch(s.outbox, id)
    ensures s' == Step(3, s, RunTimeout(id, d))
    ensures id in s'.orders && LivePending(s'.orders[id].order) && s'.pending == {} && s'.outbox == s.outbox
    ensures AddIsLost(3, s, RunTimeout(id, d))
  {
    s' := Step(3, s, RunTimeout(id, d));
    assert TimeoutTx(3, s.orders[id], d).1 == TimeoutRedispatch;
  }

  /**
   * The loss does happen, on the first redispatch of any order: the finished
   * assign job is still retained when the timeout asks for another, so the order
   * stays PENDING with no job, and with nothing left in the outbox.
   */
  lemma DispatchWorkLost(id: string, customerId: string, d: DriverId) returns (es: seq<Event>, s: System)
    ensures es == [Create(id, customerId, Car), OutboxRow(0, ALL_WELL), RunAssign(id, [d], {d}), RunTimeout(id, d)]
    ensures s == RunAll(3, es)
    ensures id in s.orders && LivePending(s.orders[id].order) && s.pending == {} && !OwesDispatch(s.outbox, id)
    ensures !NoAddLost(3, es)
  {
    var a, b, c, e := Create(id, customerId, Car), OutboxRow(0, ALL_WELL), RunAssign(id, [d], {d}), RunTimeout(id, d);
    es := [a, b, c, e];
    assert es[..3] == [a, b, c] && [a, b, c][..2] == [a, b] && [a, b][..1] == [a] && [a][..0] == [];
    assert RunAll(3, [a]) == Step(3, EMPTY_SYSTEM, a);
    var s2 := CreatedAndQueued(id, customerId);
    assert RunAll(3, [a, b]) == s2;
    var s3 := OfferedOnce(s2, id, customerId, d);
    assert RunAll(3, [a, b, c]) == s3;
    s := RedispatchIgnored(s3, id, d);
  }

  /** An accepted or rejected offer whose key is alive leaves no timeout job behind, if the queue lets it go. */
  lemma AnswerCancelsTimeout(maxAttempts: int, s: System, e: Event)
    requires Sound(s) && (e.Accept? || e.Reject?) && e.removeOk
    requires e.id in s.orders && e.id in s.timeoutKeys
    requires Step(maxAttempts, s, e).orders[e.id] != s.orders[e.id]
    ensures var s' := Step(maxAttempts, s, e);
            DispatchTimeout(e.id, e.driverId) !in s'.pending && e.id !in s'.timeoutKeys
  {
    assert KeyOk(s, e.id);
  }
}
