/**
 * The outbox worker. A pass takes the oldest PENDING rows, ten at most, and
 * handles them one by one; a row that fails five times is given up.
 */
module Outbox {
  import opened Wrappers

  datatype OutboxStatus = OutboxPending | OutboxProcessed | OutboxFailed

  /** `payload` is the order id, when the stored payload has the shape of a dispatch trigger. */
  datatype OutboxEvent = OutboxEvent(eventType: string, payload: Option<string>, status: OutboxStatus, attempts: nat)

  const BATCH_SIZE := 10
  const MAX_ATTEMPTS := 5
  const DISPATCH_TRIGGER := "dispatch.trigger"

  /** How the calls made for one row turn out: the queue, the first save, the save in the handler of errors. */
  datatype Luck = Luck(triggerOk: bool, saveOk: bool, secondSaveOk: bool)

  predicate Triggers(row: OutboxEvent, luck: Luck) {
    row.eventType == DISPATCH_TRIGGER && row.payload.Some? && luck.triggerOk
  }

  /** The row after a failed attempt. */
  function Failure(row: OutboxEvent): OutboxEvent {
    row.(attempts := row.attempts + 1,
         status := if row.attempts + 1 >= MAX_ATTEMPTS then OutboxFailed else row.status)
  }

  /** The row as `handleRow` leaves it in the database, or `None` if no save got through. */
  function RowAfter(row: OutboxEvent, luck: Luck): Option<OutboxEvent> {
    if row.eventType == DISPATCH_TRIGGER && !Triggers(row, luck) then
      if luck.secondSaveOk then Some(Failure(row)) else None
    else
      var processed := row.(status := OutboxProcessed);
      if luck.saveOk then Some(processed)
      else if luck.secondSaveOk then Some(Failure(processed))
      else None
  }

  // ----- overlapping workers

  /** The table, the copies that workers hold since they read them, and the orders that were triggered. */
  datatype Table = Table(rows: map<nat, OutboxEvent>, copies: multiset<(nat, OutboxEvent)>, triggered: set<string>)

  datatype TableEvent =
    | InsertRow(id: nat, orderId: string)
    | FetchRow(id: nat)
    | FinishRow(id: nat, copy: OutboxEvent, luck: Luck)

  function NewRow(orderId: string): OutboxEvent {
    OutboxEvent(DISPATCH_TRIGGER, Some(orderId), OutboxPending, 0)
  }

  function TableStep(t: Table, e: TableEvent): Table {
    match e
    case InsertRow(id, orderId) =>
      if id in t.rows then t else t.(rows := t.rows[id := NewRow(orderId)])
    case FetchRow(id) =>
      if id in t.rows && t.rows[id].status == OutboxPending
      then t.(copies := t.copies + multiset{(id, t.rows[id])})
      else t
    case FinishRow(id, copy, luck) =>
      if (id, copy) !in t.copies then t
      else
        var saved := RowAfter(copy, luck);
        Table(if saved.Some? then t.rows[id := saved.value] else t.rows,
              t.copies - multiset{(id, copy)},
              if Triggers(copy, luck) then t.triggered + {copy.payload.value} else t.triggered)
  }

  function TableRun(es: seq<TableEvent>): Table {
    if es == [] then Table(map[], multiset{}, {}) else TableStep(TableRun(es[..|es| - 1]), es[|es| - 1])
  }

  predicate RowOk(row: OutboxEvent, triggered: set<string>) {
    && (row.status == OutboxPending ==> row.attempts < MAX_ATTEMPTS)
    && (row.status == OutboxFailed ==> row.attempts == MAX_ATTEMPTS)
    && (row.status == OutboxProcessed && row.eventType == DISPATCH_TRIGGER ==>
          row.payload.Some? && row.payload.value in triggered)
  }

  lemma HandledRowOk(row: OutboxEvent, luck: Luck, triggered: set<string>)
    requires RowOk(row, triggered) && row.status == OutboxPending
    requires Triggers(row, luck) ==> row.payload.value in triggered
    ensures var saved := RowAfter(row, luck); saved.Some? ==> RowOk(saved.value, triggered)
  {
  }

  /**
   * Any number of workers may hold copies of the same rows and save them whole,
   * in any order, with any save failing: a PENDING row has attempts left, a
   * FAILED one has used exactly five, and a PROCESSED trigger was triggered.
   */
  lemma {:induction false} OverlappingWorkersKeepRows(es: seq<TableEvent>)
    ensures var t := TableRun(es);
            && (forall id :: id in t.rows ==> RowOk(t.rows[id], t.triggered))
            && (forall c :: c in t.copies ==> RowOk(c.1, t.triggered) && c.1.status == OutboxPending)
  {
    if es != [] {
      OverlappingWorkersKeepRows(es[..|es| - 1]);
      var t := TableRun(es[..|es| - 1]);
      var e := es[|es| - 1];
      var t' := TableStep(t, e);
      assert t.triggered <= t'.triggered;
      if e.FinishRow? && (e.id, e.copy) in t.copies {
        HandledRowOk(e.copy, e.luck, t'.triggered);
      }
    }
  }

  // ----- one worker

  /** Places of PENDING rows, in ascending order. */
  predicate PendingPlaces(rows: seq<OutboxEvent>, batch: seq<nat>) {
    && (forall j :: 0 <= j < |batch| ==> batch[j] < |rows| && rows[batch[j]].status == OutboxPending)
    && (forall j, k :: 0 <= j < k < |batch| ==> batch[j] < batch[k])
  }

  /** The places of the first `budget` PENDING rows at or after place `from`; rows stand in order of creation. */
  function Batch(rows: seq<OutboxEvent>, from: nat, budget: nat): (r: seq<nat>)
    requires from <= |rows|
    ensures PendingPlaces(rows, r)
    ensures forall j :: 0 <= j < |r| ==> from <= r[j]
    ensures |r| <= budget
    ensures |r| < budget ==> forall i :: from <= i < |rows| && rows[i].status == OutboxPending ==> i in r
    decreases |rows| - from
  {
    if from == |rows| || budget == 0 then []
    else if rows[from].status == OutboxPending then
      var rest := Batch(rows, from + 1, budget - 1);
      assert forall j :: 1 <= j < |[from] + rest| ==> ([from] + rest)[j] == rest[j - 1];
      [from] + rest
    else Batch(rows, from + 1, budget)
  }

  /** No row outside the batch is older than one inside: the worker goes in order of creation. */
  lemma {:induction false} OldestFirst(rows: seq<OutboxEvent>, from: nat, budget: nat, i: nat, j: nat)
    requires from <= i < |rows| && rows[i].status == OutboxPending && i !in Batch(rows, from, budget)
    requires j in Batch(rows, from, budget)
    ensures j < i
    decreases |rows| - from
  {
    if rows[from].status == OutboxPending {
      if j != from {
        OldestFirst(rows, from + 1, budget - 1, i, j);
      }
    } else {
      OldestFirst(rows, from + 1, budget, i, j);
    }
  }

  function PendingCount(rows: seq<OutboxEvent>): nat {
    if rows == [] then 0
    else PendingCount(rows[..|rows| - 1]) + (if rows[|rows| - 1].status == OutboxPending then 1 else 0)
  }

  lemma {:induction false} PendingCountFirst(rows: seq<OutboxEvent>)
    requires rows != []
    ensures PendingCount(rows) == (if rows[0].status == OutboxPending then 1 else 0) + PendingCount(rows[1..])
  {
    var n := |rows| - 1;
    if n > 0 {
      PendingCountFirst(rows[..n]);
      assert rows[..n][1..] == rows[1..][..n - 1];
      assert rows[1..][n - 1] == rows[n];
    } else {
      assert rows[..0] == [] && rows[1..] == [];
    }
  }

  lemma {:induction false} InBatch(rows: seq<OutboxEvent>, from: nat, budget: nat, i: nat)
    requires from <= i < |rows|
    ensures i in Batch(rows, from, budget) <==>
              rows[i].status == OutboxPending && PendingCount(rows[from..i]) < budget
    decreases i - from
  {
    if i > from {
      InBatch(rows, from + 1, if budget > 0 && rows[from].status == OutboxPending then budget - 1 else budget, i);
      PendingCountFirst(rows[from..i]);
      assert rows[from..i][1..] == rows[from + 1..i];
    }
  }

  /** A pass handles exactly the PENDING rows with fewer than ten older ones. */
  predicate InTurn(rows: seq<OutboxEvent>, i: nat) {
    i < |rows| && rows[i].status == OutboxPending && PendingCount(rows[..i]) < 10
  }

  lemma BatchExactly(rows: seq<OutboxEvent>, i: nat)
    requires i < |rows|
    ensures i in Batch(rows, 0, BATCH_SIZE) <==> InTurn(rows, i)
  {
    InBatch(rows, 0, BATCH_SIZE, i);
    assert rows[0..i] == rows[..i];
  }

  /** The row as it stands in the table after it was handled: unchanged, if no save got through. */
  function Saved(row: OutboxEvent, luck: Luck): OutboxEvent {
    var after := RowAfter(row, luck);
    if after.Some? then after.value else row
  }

  /** No row stays as it was for want of a save: the one in the handler of errors gets through. */
  ghost predicate SavesHold(luck: nat -> Luck) {
    forall i :: luck(i).secondSaveOk
  }

  function HandleAll(rows: seq<OutboxEvent>, batch: seq<nat>, luck: nat -> Luck): (r: seq<OutboxEvent>)
    requires forall j :: 0 <= j < |batch| ==> batch[j] < |rows|
    ensures |r| == |rows|
  {
    if batch == [] then rows
    else
      var i := batch[|batch| - 1];
      var before := HandleAll(rows, batch[..|batch| - 1], luck);
      before[i := Saved(before[i], luck(i))]
  }

  /** One pass; `luck(i)` says how the calls made for row `i` turn out. */
  function OnePass(rows: seq<OutboxEvent>, luck: nat -> Luck): (r: seq<OutboxEvent>)
    ensures |r| == |rows|
  {
    HandleAll(rows, Batch(rows, 0, BATCH_SIZE), luck)
  }

  lemma {:induction false} Untouched(rows: seq<OutboxEvent>, batch: seq<nat>, luck: nat -> Luck, i: nat)
    requires forall j :: 0 <= j < |batch| ==> batch[j] < |rows| && batch[j] != i
    requires i < |rows|
    ensures HandleAll(rows, batch, luck)[i] == rows[i]
  {
    if batch != [] {
      Untouched(rows, batch[..|batch| - 1], luck, i);
    }
  }

  function Weight(row: OutboxEvent): int {
    if row.status == OutboxPending then MAX_ATTEMPTS - row.attempts else 0
  }

  /** Attempts that the PENDING rows have left, all together. */
  function Potential(rows: seq<OutboxEvent>): int {
    if rows == [] then 0 else Potential(rows[..|rows| - 1]) + Weight(rows[|rows| - 1])
  }

  predicate AttemptsLeft(rows: seq<OutboxEvent>) {
    forall i :: 0 <= i < |rows| && rows[i].status == OutboxPending ==> rows[i].attempts < MAX_ATTEMPTS
  }

  lemma {:induction false} PotentialOfUpdate(rows: seq<OutboxEvent>, i: nat, row: OutboxEvent)
    requires i < |rows|
    ensures Potential(rows[i := row]) == Potential(rows) - Weight(rows[i]) + Weight(row)
  {
    var n := |rows| - 1;
    if i < n {
      PotentialOfUpdate(rows[..n], i, row);
      assert rows[i := row][..n] == rows[..n][i := row];
    } else {
      assert rows[i := row][..n] == rows[..n];
    }
  }

  lemma {:induction false} PotentialBounds(rows: seq<OutboxEvent>)
    requires AttemptsLeft(rows)
    ensures PendingCount(rows) <= Potential(rows) <= MAX_ATTEMPTS * PendingCount(rows)
  {
    if rows != [] {
      PotentialBounds(rows[..|rows| - 1]);
    }
  }

  lemma {:induction false} HandleAllRows(rows: seq<OutboxEvent>, batch: seq<nat>, luck: nat -> Luck, i: nat)
    requires PendingPlaces(rows, batch) && i < |rows|
    ensures HandleAll(rows, batch, luck)[i] == if i in batch then Saved(rows[i], luck(i)) else rows[i]
  {
    if batch != [] {
      var n := |batch| - 1;
      HandleAllRows(rows, batch[..n], luck, i);
      assert batch == batch[..n] + [batch[n]];
    }
  }

  lemma SavedLowers(row: OutboxEvent, luck: Luck)
    requires row.status == OutboxPending && row.attempts < MAX_ATTEMPTS && luck.secondSaveOk
    ensures Weight(Saved(row, luck)) <= Weight(row) - 1
  {
  }

  lemma {:induction false} HandleAllLowers(rows: seq<OutboxEvent>, batch: seq<nat>, luck: nat -> Luck)
    requires PendingPlaces(rows, batch) && AttemptsLeft(rows) && SavesHold(luck)
    ensures Potential(HandleAll(rows, batch, luck)) <= Potential(rows) - |batch|
  {
    if batch != [] {
      var n := |batch| - 1;
      var i := batch[n];
      HandleAllLowers(rows, batch[..n], luck);
      Untouched(rows, batch[..n], luck, i);
      PotentialOfUpdate(HandleAll(rows, batch[..n], luck), i, Saved(rows[i], luck(i)));
      SavedLowers(rows[i], luck(i));
    }
  }

  /** What a pass does, row by row, and to the potential. */
  lemma HandleAllEffect(rows: seq<OutboxEvent>, batch: seq<nat>, luck: nat -> Luck)
    requires PendingPlaces(rows, batch)
    requires AttemptsLeft(rows)
    ensures var r := HandleAll(rows, batch, luck);
            && (forall i :: 0 <= i < |rows| ==> r[i] == if i in batch then Saved(rows[i], luck(i)) else rows[i])
            && (SavesHold(luck) ==> Potential(r) <= Potential(rows) - |batch|)
  {
    forall i | 0 <= i < |rows|
      ensures HandleAll(rows, batch, luck)[i] == if i in batch then Saved(rows[i], luck(i)) else rows[i]
    {
      HandleAllRows(rows, batch, luck, i);
    }
    if SavesHold(luck) {
      HandleAllLowers(rows, batch, luck);
    }
  }

  lemma {:induction false} PendingCountMonotone(rows: seq<OutboxEvent>, rows': seq<OutboxEvent>)
    requires |rows'| == |rows|
    requires forall i :: 0 <= i < |rows| && rows'[i].status == OutboxPending ==> rows[i].status == OutboxPending
    ensures PendingCount(rows') <= PendingCount(rows)
  {
    if rows != [] {
      var n := |rows| - 1;
      PendingCountMonotone(rows[..n], rows'[..n]);
    }
  }

  /** A full batch of ascending places needs as many PENDING rows. */
  lemma {:induction false} BatchCovers(rows: seq<OutboxEvent>, batch: seq<nat>)
    requires PendingPlaces(rows, batch)
    ensures |batch| <= PendingCount(rows)
  {
    if batch != [] {
      var n := |rows| - 1;
      var last := batch[|batch| - 1];
      if last == n {
        BatchCovers(rows[..n], batch[..|batch| - 1]);
      } else {
        BatchCovers(rows[..n], batch);
      }
    }
  }

  lemma SavedRow(row: OutboxEvent, luck: Luck)
    requires row.status == OutboxPending && row.attempts < MAX_ATTEMPTS && luck.secondSaveOk
    ensures Saved(row, luck).status == OutboxPending ==>
              Saved(row, luck).attempts == row.attempts + 1 < MAX_ATTEMPTS
  {
  }

  /** If all PENDING rows are in an ascending batch, there are no more of them than places in the batch. */
  lemma {:induction false} PendingAreIn(rows: seq<OutboxEvent>, batch: seq<nat>)
    requires forall j, k :: 0 <= j < k < |batch| ==> batch[j] < batch[k]
    requires forall j :: 0 <= j < |batch| ==> batch[j] < |rows|
    requires forall i :: 0 <= i < |rows| && rows[i].status == OutboxPending ==> i in batch
    ensures PendingCount(rows) <= |batch|
  {
    if rows != [] {
      var n := |rows| - 1;
      if batch != [] && batch[|batch| - 1] == n {
        assert forall i :: i in batch ==> i == n || i in batch[..|batch| - 1];
        PendingAreIn(rows[..n], batch[..|batch| - 1]);
      } else {
        PendingAreIn(rows[..n], batch);
      }
    }
  }

  /** A row still PENDING after a pass; if less than a batch was PENDING, it has failed once more. */
  lemma PassRow(rows: seq<OutboxEvent>, luck: nat -> Luck, i: nat)
    requires AttemptsLeft(rows) && SavesHold(luck) && i < |rows| && OnePass(rows, luck)[i].status == OutboxPending
    ensures var row' := OnePass(rows, luck)[i];
            && rows[i].status == OutboxPending
            && rows[i].attempts <= row'.attempts < MAX_ATTEMPTS
            && (PendingCount(rows) < BATCH_SIZE ==> row'.attempts == rows[i].attempts + 1)
  {
    var batch := Batch(rows, 0, BATCH_SIZE);
    HandleAllRows(rows, batch, luck, i);
    if i in batch {
      SavedRow(rows[i], luck(i));
    } else {
      BatchCovers(rows, batch);
    }
  }

  lemma PassLowers(rows: seq<OutboxEvent>, luck: nat -> Luck)
    requires AttemptsLeft(rows) && SavesHold(luck) && PendingCount(rows) >= BATCH_SIZE
    ensures Potential(OnePass(rows, luck)) <= Potential(rows) - BATCH_SIZE
  {
    var batch := Batch(rows, 0, BATCH_SIZE);
    HandleAllLowers(rows, batch, luck);
    if |batch| < BATCH_SIZE {
      PendingAreIn(rows, batch);
    }
  }

  lemma OnePassEffect(rows: seq<OutboxEvent>, luck: nat -> Luck)
    requires AttemptsLeft(rows) && SavesHold(luck)
    ensures var r := OnePass(rows, luck);
            && (forall i :: 0 <= i < |rows| && r[i].status == OutboxPending ==>
                  && rows[i].status == OutboxPending
                  && rows[i].attempts <= r[i].attempts < MAX_ATTEMPTS
                  && (PendingCount(rows) < BATCH_SIZE ==> r[i].attempts == rows[i].attempts + 1))
            && (PendingCount(rows) >= BATCH_SIZE ==> Potential(r) <= Potential(rows) - BATCH_SIZE)
  {
    var r := OnePass(rows, luck);
    forall i | 0 <= i < |rows| && r[i].status == OutboxPending
      ensures rows[i].status == OutboxPending && rows[i].attempts <= r[i].attempts < MAX_ATTEMPTS
      ensures PendingCount(rows) < BATCH_SIZE ==> r[i].attempts == rows[i].attempts + 1
    {
      PassRow(rows, luck, i);
    }
    if PendingCount(rows) >= BATCH_SIZE {
      PassLowers(rows, luck);
    }
  }

  /** How the calls made for each row turn out in pass `p`. */
  function InPass(luck: (nat, nat) -> Luck, p: nat): nat -> Luck {
    (i: nat) => luck(p, i)
  }

  ghost predicate SavesAlwaysHold(luck: (nat, nat) -> Luck) {
    forall p, i :: luck(p, i).secondSaveOk
  }

  lemma SavesHoldInPass(luck: (nat, nat) -> Luck, p: nat)
    requires SavesAlwaysHold(luck)
    ensures SavesHold(InPass(luck, p))
  {
  }

  /** The table after `passes` passes. */
  function After(rows: seq<OutboxEvent>, luck: (nat, nat) -> Luck, passes: nat): (r: seq<OutboxEvent>)
    ensures |r| == |rows|
  {
    if passes == 0 then rows
    else OnePass(After(rows, luck, passes - 1), InPass(luck, passes - 1))
  }

  // ----- one row, pass by pass

  /** The row asks for a dispatch and gets none: its payload is malformed, or the queue fails. */
  predicate DispatchFails(row: OutboxEvent, luck: Luck) {
    row.eventType == "dispatch.trigger" && !(row.payload.Some? && luck.triggerOk)
  }

  /** A pass that does not reach the row leaves it as it is. */
  lemma PassedOver(rows: seq<OutboxEvent>, luck: nat -> Luck, i: nat)
    requires i < |rows| && !InTurn(rows, i)
    ensures OnePass(rows, luck)[i] == rows[i]
  {
    BatchExactly(rows, i);
    HandleAllRows(rows, Batch(rows, 0, BATCH_SIZE), luck, i);
  }

  /** The row after an attempt that failed; the fifth is the last. */
  function OneMoreAttempt(row: OutboxEvent, status: OutboxStatus): OutboxEvent {
    row.(attempts := row.attempts + 1, status := if row.attempts + 1 >= 5 then OutboxFailed else status)
  }

  /** What a pass makes of a row whose turn it is, for every outcome of the calls. */
  lemma TurnTaken(rows: seq<OutboxEvent>, luck: nat -> Luck, i: nat)
    requires InTurn(rows, i)
    ensures var row, l := rows[i], luck(i);
            var row' := OnePass(rows, luck)[i];
            if DispatchFails(row, l) then row' == if l.secondSaveOk then OneMoreAttempt(row, OutboxPending) else row
            else if l.saveOk then row' == row.(status := OutboxProcessed)
            else row' == if l.secondSaveOk then OneMoreAttempt(row, OutboxProcessed) else row
  {
    BatchExactly(rows, i);
    HandleAllRows(rows, Batch(rows, 0, BATCH_SIZE), luck, i);
  }

  /** The pass reaches row `i`, whose dispatch fails, and this is saved. */
  predicate FailsIn(rows: seq<OutboxEvent>, luck: nat -> Luck, i: nat) {
    InTurn(rows, i) && DispatchFails(rows[i], luck(i)) && luck(i).secondSaveOk
  }

  lemma AfterNext(rows: seq<OutboxEvent>, luck: (nat, nat) -> Luck, p: nat)
    ensures After(rows, luck, p + 1) == OnePass(After(rows, luck, p), InPass(luck, p))
  {
  }

  lemma FailedOnce(rows: seq<OutboxEvent>, luck: nat -> Luck, i: nat)
    requires FailsIn(rows, luck, i)
    ensures OnePass(rows, luck)[i] == OneMoreAttempt(rows[i], OutboxPending)
  {
    TurnTaken(rows, luck, i);
  }

  /** In each of the first `k` passes row `i` is reached, its dispatch fails, and this is saved. */
  predicate FailsFor(rows: seq<OutboxEvent>, luck: (nat, nat) -> Luck, i: nat, k: nat) {
    k > 0 ==> FailsFor(rows, luck, i, k - 1) && FailsIn(After(rows, luck, k - 1), InPass(luck, k - 1), i)
  }

  /**
   * A row whose dispatch keeps failing is tried until it has five attempts, not
   * fewer: a new row is PENDING with one more attempt after each of the first
   * four such passes, FAILED after the fifth, and no sixth pass reaches it.
   */
  lemma {:induction false} TriedFiveTimes(rows: seq<OutboxEvent>, luck: (nat, nat) -> Luck, i: nat, k: nat)
    requires i < |rows| && rows[i].status == OutboxPending && rows[i].attempts < 5
    requires FailsFor(rows, luck, i, k)
    ensures rows[i].attempts + k <= 5
    ensures After(rows, luck, k)[i]
            == rows[i].(attempts := rows[i].attempts + k,
                        status := if rows[i].attempts + k < 5 then OutboxPending else OutboxFailed)
  {
    if k > 0 {
      TriedFiveTimes(rows, luck, i, k - 1);
      AfterNext(rows, luck, k - 1);
      FailedOnce(After(rows, luck, k - 1), InPass(luck, k - 1), i);
    }
  }

  /** The first pass in which all goes well makes it PROCESSED, with the failed attempts on record. */
  lemma RetriedWithSuccess(rows: seq<OutboxEvent>, luck: (nat, nat) -> Luck, i: nat, k: nat)
    requires i < |rows| && rows[i].status == OutboxPending && rows[i].attempts < 5
    requires FailsFor(rows, luck, i, k) && InTurn(After(rows, luck, k), i)
    requires !DispatchFails(After(rows, luck, k)[i], luck(k, i)) && luck(k, i).saveOk
    ensures rows[i].attempts + k < 5
    ensures After(rows, luck, k + 1)[i] == rows[i].(attempts := rows[i].attempts + k, status := OutboxProcessed)
  {
    TriedFiveTimes(rows, luck, i, k);
    AfterNext(rows, luck, k);
    TurnTaken(After(rows, luck, k), InPass(luck, k), i);
  }

  // ----- draining

  lemma {:induction false} CrowdedPasses(rows: seq<OutboxEvent>, luck: (nat, nat) -> Luck, p: nat)
    requires AttemptsLeft(rows) && SavesAlwaysHold(luck)
    ensures AttemptsLeft(After(rows, luck, p))
    ensures || PendingCount(After(rows, luck, p)) < BATCH_SIZE
            || Potential(After(rows, luck, p)) <= Potential(rows) - BATCH_SIZE * p
  {
    if p > 0 {
      CrowdedPasses(rows, luck, p - 1);
      var before := After(rows, luck, p - 1);
      SavesHoldInPass(luck, p - 1);
      OnePassEffect(before, InPass(luck, p - 1));
      PendingCountMonotone(before, After(rows, luck, p));
    }
  }

  /** Less than a batch is PENDING, and all of it has failed `j` times or more. */
  predicate Sparse(rows: seq<OutboxEvent>, j: nat) {
    && AttemptsLeft(rows)
    && PendingCount(rows) < BATCH_SIZE
    && (forall i :: 0 <= i < |rows| && rows[i].status == OutboxPending ==> rows[i].attempts >= j)
  }

  lemma SparsePass(rows: seq<OutboxEvent>, luck: nat -> Luck, j: nat)
    requires Sparse(rows, j) && SavesHold(luck)
    ensures Sparse(OnePass(rows, luck), j + 1)
  {
    OnePassEffect(rows, luck);
    PendingCountMonotone(rows, OnePass(rows, luck));
  }

  lemma SparseNext(rows: seq<OutboxEvent>, luck: (nat, nat) -> Luck, p: nat, j: nat)
    requires Sparse(After(rows, luck, p), j) && SavesAlwaysHold(luck)
    ensures Sparse(After(rows, luck, p + 1), j + 1)
  {
    AfterNext(rows, luck, p);
    SavesHoldInPass(luck, p);
    SparsePass(After(rows, luck, p), InPass(luck, p), j);
  }

  /** Step by step from `p`. */
  lemma {:induction false} StepByStep(good: (nat, nat) -> bool, p: nat, j: nat)
    requires good(p, 0)
    requires forall q: nat, i: nat, q': nat, i': nat :: good(q, i) && q' == q + 1 && i' == i + 1 ==> good(q', i')
    ensures good(p + j, j)
    decreases j
  {
    if j > 0 {
      StepByStep(good, p, j - 1);
    }
  }

  lemma SparsePasses(rows: seq<OutboxEvent>, luck: (nat, nat) -> Luck, p: nat, j: nat)
    requires Sparse(After(rows, luck, p), 0) && SavesAlwaysHold(luck)
    ensures Sparse(After(rows, luck, p + j), j)
  {
    var good := (q: nat, i: nat) => Sparse(After(rows, luck, q), i);
    forall q: nat, i: nat, q': nat, i': nat | good(q, i) && q' == q + 1 && i' == i + 1
      ensures good(q', i')
    {
      SparseNext(rows, luck, q, i);
    }
    StepByStep(good, p, j);
  }

  predicate Drained(rows: seq<OutboxEvent>) {
    forall i :: 0 <= i < |rows| ==> rows[i].status != OutboxPending
  }

  lemma SparseIsDrained(rows: seq<OutboxEvent>)
    requires Sparse(rows, MAX_ATTEMPTS)
    ensures Drained(rows)
  {
  }

  lemma SparseDrains(rows: seq<OutboxEvent>, luck: (nat, nat) -> Luck, p: nat, q: nat)
    requires Sparse(After(rows, luck, p), 0) && SavesAlwaysHold(luck) && q == p + MAX_ATTEMPTS
    ensures Drained(After(rows, luck, q))
  {
    SparsePasses(rows, luck, p, MAX_ATTEMPTS);
    SparseIsDrained(After(rows, luck, q));
  }

  /** After half as many passes as rows are PENDING, less than a batch is left. */
  lemma CrowdThins(rows: seq<OutboxEvent>, luck: (nat, nat) -> Luck)
    requires AttemptsLeft(rows) && SavesAlwaysHold(luck)
    ensures Sparse(After(rows, luck, PendingCount(rows) / 2), 0)
  {
    var p := PendingCount(rows) / 2;
    CrowdedPasses(rows, luck, p);
    PotentialBounds(rows);
    PotentialBounds(After(rows, luck, p));
  }

  /**
   * The drain bound: with one worker and no new rows, N PENDING rows are all
   * PROCESSED or FAILED after N / 2 + 5 passes, whichever triggers and first
   * saves fail.
   */
  lemma OutboxDrains(rows: seq<OutboxEvent>, luck: (nat, nat) -> Luck)
    requires AttemptsLeft(rows) && SavesAlwaysHold(luck)
    ensures Drained(After(rows, luck, PendingCount(rows) / 2 + MAX_ATTEMPTS))
  {
    var p := PendingCount(rows) / 2;
    CrowdThins(rows, luck);
    SparseDrains(rows, luck, p, p + MAX_ATTEMPTS);
  }
}
