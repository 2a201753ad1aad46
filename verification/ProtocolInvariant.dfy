/**
 * The invariant of `Protocol` is inductive. Every transaction that changes the
 * row performs one of the legal writes below, and every legal write keeps each
 * part of the invariant.
 */
module ProtocolInvariant {
  import opened Wrappers
  import opened Orders
  import opened NearestDrivers
  import opened Transactions
  import opened Protocol

  /** The row with only its status changed, as `updateStatus` and `acceptDispatch` leave it. */
  predicate OnlyStatus(o: Order, o': Order) {
    o' == o.(orderStatus := o'.orderStatus, version := o.version + 1)
  }

  /** The writes of the row that occur, each with the way in which it ends an open offer. */
  ghost predicate LegalWrite(maxAttempts: int, o: Order, o': Order, how: Resolution) {
    && o'.version == o.version + 1
    && o' == o.(orderStatus := o'.orderStatus, assignedDriverId := o'.assignedDriverId, version := o'.version,
                dispatchAttempts := o'.dispatchAttempts, attemptedDriverIds := o'.attemptedDriverIds)
    && match o.orderStatus
       case Pending =>
         || (&& o'.orderStatus == DriverAssigned
             && o'.assignedDriverId.Some?
             && var d := o'.assignedDriverId.value;
                && d != "" && d !in o.attemptedDriverIds
                && o'.dispatchAttempts == o.dispatchAttempts + 1
                && o'.attemptedDriverIds == Distinct(NonEmpty(o.attemptedDriverIds)) + [d])
         || (&& o'.orderStatus == Expired
             && o'.assignedDriverId == None
             && o'.dispatchAttempts == o.dispatchAttempts + 1
             && o'.attemptedDriverIds == o.attemptedDriverIds)
         || (o'.orderStatus == Cancelled && OnlyStatus(o, o'))
       case DriverAssigned =>
         || (&& o'.orderStatus == (if o'.dispatchAttempts >= maxAttempts then Expired else Pending)
             && how in {Rejected, TimedOut}
             && o'.assignedDriverId == None
             && o'.dispatchAttempts == o.dispatchAttempts + 1
             && o.assignedDriverId.Some?
             && o'.attemptedDriverIds
                == o.attemptedDriverIds + (if how == Rejected then [o.assignedDriverId.value] else []))
         || (o'.orderStatus == DriverArriving && how == Accepted && OnlyStatus(o, o'))
         || (o'.orderStatus == Cancelled && how == Withdrawn && OnlyStatus(o, o'))
       case Expired =>
         && o'.orderStatus == Pending
         && o'.assignedDriverId == None
         && o'.dispatchAttempts == 0
         && o'.attemptedDriverIds == []
       case _ =>
         o'.orderStatus in OrderTransitions(o.orderStatus) && OnlyStatus(o, o')
  }

  predicate SystemActs(entry: HistoryEntry) {
    entry.previousStatus == Some(Pending) && entry.newStatus != Cancelled ==> entry.actorId == SYSTEM
  }

  // ----- a legal write keeps each part of the invariant

  lemma AuditKept(maxAttempts: int, r: Record, o': Order, actorId: string, how: Resolution)
    requires AuditOk(r) && LegalWrite(maxAttempts, r.order, o', how)
    requires SystemActs(HistoryEntry(Some(r.order.orderStatus), o'.orderStatus, actorId))
    ensures AuditOk(Save(r, r.order.orderStatus, o', actorId))
  {
    var entry := HistoryEntry(Some(r.order.orderStatus), o'.orderStatus, actorId);
    assert LegalEntry(entry);
    assert (r.history + [entry])[..|r.history|] == r.history;
  }

  /** What a legal write does to the offers of the epoch that is current afterwards. */
  lemma TrackedOffers(maxAttempts: int, o: Order, o': Order, epochs: seq<seq<Offer>>, how: Resolution)
    requires epochs != [] && LegalWrite(maxAttempts, o, o', how)
    ensures var e := Track(epochs, o, o', how);
            if o.orderStatus == Expired then e == epochs + [[]]
            else
              && |e| == |epochs|
              && (forall k :: 0 <= k < |epochs| - 1 ==> e[k] == epochs[k])
              && Current(e) == (if o.orderStatus == DriverAssigned then ResolveLast(Current(epochs), how)
                                else if o'.orderStatus == DriverAssigned
                                then Current(epochs) + [Offer(o'.assignedDriverId.value, Open)]
                                else Current(epochs))
  {
  }

  lemma AttemptsKept(maxAttempts: int, o: Order, o': Order, how: Resolution, n: nat)
    requires maxAttempts >= 1
    requires AttemptsOk(maxAttempts, o, n) && LegalWrite(maxAttempts, o, o', how)
    requires o.orderStatus == DriverAssigned ==> n > 0
    ensures AttemptsOk(maxAttempts, o',
                       if o.orderStatus == Expired then 0 else if o'.orderStatus == DriverAssigned then n + 1 else n)
  {
  }

  lemma {:induction false} NonEmptyAll(s: seq<string>)
    requires "" !in s
    ensures NonEmpty(s) == s
  {
    if s != [] {
      NonEmptyAll(s[1..]);
    }
  }

  lemma {:induction false} DistinctAll(s: seq<string>)
    requires forall i, j :: 0 <= i < j < |s| ==> s[i] != s[j]
    ensures Distinct(s) == s
  {
    if s != [] {
      DistinctAll(s[..|s| - 1]);
    }
  }

  lemma DistinctAgain(s: seq<string>, x: string)
    requires x in s
    ensures Distinct(s + [x]) == Distinct(s)
  {
    assert (s + [x])[..|s|] == s;
  }

  lemma DistinctDriversAll(offers: seq<Offer>)
    requires DistinctDrivers(offers)
    ensures Distinct(Drivers(offers)) == Drivers(offers)
  {
    DistinctAll(Drivers(offers));
  }

  lemma LastRefusalAgain(offers: seq<Offer>)
    ensures Distinct(Drivers(offers) + LastRefusal(offers)) == Distinct(Drivers(offers))
  {
    if LastRefusal(offers) == [] {
      assert Drivers(offers) + [] == Drivers(offers);
    } else {
      var n := |offers| - 1;
      assert Drivers(offers)[n] == offers[n].driver;
      DistinctAgain(Drivers(offers), offers[n].driver);
    }
  }

  /** Rebuilding the attempted list from a set restores the list of drivers offered the order. */
  lemma RebuiltList(attempted: seq<string>, offers: seq<Offer>)
    requires AttemptedOk(attempted, offers) && DistinctDrivers(offers)
    ensures Distinct(NonEmpty(attempted)) == Drivers(offers)
  {
    NonEmptyAll(attempted);
    LastRefusalAgain(offers);
    DistinctDriversAll(offers);
  }

  lemma NewDriver(attempted: seq<string>, cur: seq<Offer>, d: string)
    requires AttemptedOk(attempted, cur) && DistinctDrivers(cur) && d !in attempted
    ensures DistinctDrivers(cur + [Offer(d, Open)])
  {
    assert forall i :: 0 <= i < |cur| ==> cur[i].driver == attempted[i];
  }

  lemma AttemptedGrows(attempted: seq<string>, attempted': seq<string>, cur: seq<Offer>, d: string)
    requires AttemptedOk(attempted, cur) && DistinctDrivers(cur)
    requires attempted' == Distinct(NonEmpty(attempted)) + [d] && d != "" && d !in attempted
    ensures AttemptedOk(attempted', cur + [Offer(d, Open)])
    ensures DistinctDrivers(cur + [Offer(d, Open)])
  {
    RebuiltList(attempted, cur);
    NewDriver(attempted, cur, d);
    assert Drivers(cur + [Offer(d, Open)]) == Drivers(cur) + [d];
    assert forall x :: x in Drivers(cur) ==> x in attempted;
  }

  lemma AttemptedResolved(attempted: seq<string>, cur: seq<Offer>, how: Resolution)
    requires AttemptedOk(attempted, cur) && DistinctDrivers(cur)
    requires cur != [] && cur[|cur| - 1].resolution == Open
    ensures AttemptedOk(attempted + (if how == Rejected then [cur[|cur| - 1].driver] else []), ResolveLast(cur, how))
    ensures DistinctDrivers(ResolveLast(cur, how))
  {
    var cur' := ResolveLast(cur, how);
    assert attempted == Drivers(cur);
    assert Drivers(cur') == Drivers(cur);
    assert attempted[|cur| - 1] == cur[|cur| - 1].driver;
  }

  lemma AttemptedKept(maxAttempts: int, o: Order, o': Order, how: Resolution, cur: seq<Offer>, cur': seq<Offer>)
    requires AttemptedOk(o.attemptedDriverIds, cur) && DistinctDrivers(cur) && LegalWrite(maxAttempts, o, o', how)
    requires o.orderStatus == DriverAssigned ==>
               cur != [] && cur[|cur| - 1].resolution == Open && o.assignedDriverId == Some(cur[|cur| - 1].driver)
    requires cur' == (if o.orderStatus == Expired then []
                      else if o.orderStatus == DriverAssigned then ResolveLast(cur, how)
                      else if o'.orderStatus == DriverAssigned then cur + [Offer(o'.assignedDriverId.value, Open)]
                      else cur)
    ensures AttemptedOk(o'.attemptedDriverIds, cur') && DistinctDrivers(cur')
  {
    if o.orderStatus == Pending && o'.orderStatus == DriverAssigned {
      AttemptedGrows(o.attemptedDriverIds, o'.attemptedDriverIds, cur, o'.assignedDriverId.value);
    } else if o.orderStatus == DriverAssigned {
      AttemptedResolved(o.attemptedDriverIds, cur, how);
      assert o'.attemptedDriverIds == o.attemptedDriverIds + (if how == Rejected then [cur[|cur| - 1].driver] else []);
    }
  }

  lemma OpenOffersKept(maxAttempts: int, o: Order, o': Order, epochs: seq<seq<Offer>>, how: Resolution)
    requires OffersOk(o, epochs) && LegalWrite(maxAttempts, o, o', how)
    requires o.orderStatus == DriverAssigned ==> Current(epochs) != []
    ensures var e := Track(epochs, o, o', how);
            && e != []
            && forall k, i :: 0 <= k < |e| && 0 <= i < |e[k]| && e[k][i].resolution == Open ==>
                 k == |e| - 1 && i == |e[k]| - 1 && o'.orderStatus == DriverAssigned
  {
    var e := Track(epochs, o, o', how);
    TrackedOffers(maxAttempts, o, o', epochs, how);
    assert o.orderStatus != Expired ==> forall k :: 0 <= k < |e| - 1 ==> e[k] == epochs[k];
  }

  lemma OffersKept(maxAttempts: int, o: Order, o': Order, epochs: seq<seq<Offer>>, how: Resolution)
    requires OffersOk(o, epochs) && AttemptedOk(o.attemptedDriverIds, Current(epochs))
    requires LegalWrite(maxAttempts, o, o', how)
    requires AssigneeOk(o, epochs)
    ensures OffersOk(o', Track(epochs, o, o', how))
    ensures AttemptedOk(o'.attemptedDriverIds, Current(Track(epochs, o, o', how)))
  {
    var e := Track(epochs, o, o', how);
    TrackedOffers(maxAttempts, o, o', epochs, how);
    AttemptedKept(maxAttempts, o, o', how, Current(epochs), Current(e));
    forall k | 0 <= k < |e|
      ensures DistinctDrivers(e[k])
    {
      if k < |epochs| - 1 { assert e[k] == epochs[k]; }
    }
    OpenOffersKept(maxAttempts, o, o', epochs, how);
  }

  lemma AssigneeKept(maxAttempts: int, o: Order, o': Order, epochs: seq<seq<Offer>>, how: Resolution)
    requires epochs != [] && AssigneeOk(o, epochs) && LegalWrite(maxAttempts, o, o', how)
    ensures AssigneeOk(o', Track(epochs, o, o', how))
  {
    TrackedOffers(maxAttempts, o, o', epochs, how);
  }

  lemma EpochSizesKept(maxAttempts: int, o: Order, o': Order, epochs: seq<seq<Offer>>, how: Resolution)
    requires maxAttempts >= 1 && epochs != []
    requires AttemptsOk(maxAttempts, o, |Current(epochs)|) && EpochSizesOk(maxAttempts, epochs)
    requires LegalWrite(maxAttempts, o, o', how)
    ensures EpochSizesOk(maxAttempts, Track(epochs, o, o', how))
  {
    var e := Track(epochs, o, o', how);
    TrackedOffers(maxAttempts, o, o', epochs, how);
    forall k | 0 <= k < |e|
      ensures 2 * |e[k]| <= maxAttempts + 1
    {
      if k < |epochs| - 1 { assert e[k] == epochs[k]; }
    }
  }

  lemma CurrentOfSetCurrent(epochs: seq<seq<Offer>>, offers: seq<Offer>)
    requires epochs != []
    ensures var e := SetCurrent(epochs, offers);
            |e| == |epochs| && Current(e) == offers && e[..|e| - 1] == epochs[..|epochs| - 1]
            && forall k :: 0 <= k < |epochs| - 1 ==> e[k] == epochs[k]
  {
  }

  lemma CountAllSetCurrent(epochs: seq<seq<Offer>>, offers: seq<Offer>, how: Resolution)
    requires epochs != []
    ensures CountAll(SetCurrent(epochs, offers), how)
            == CountAll(epochs, how) - CountIn(Current(epochs), how) + CountIn(offers, how)
    ensures TotalOffers(SetCurrent(epochs, offers)) == TotalOffers(epochs) - |Current(epochs)| + |offers|
  {
    CurrentOfSetCurrent(epochs, offers);
  }

  lemma CountInResolve(offers: seq<Offer>, how: Resolution, x: Resolution)
    requires offers != []
    ensures CountIn(ResolveLast(offers, how), x)
            == CountIn(offers, x)
               - (if offers[|offers| - 1].resolution == x then 1 else 0)
               + (if how == x then 1 else 0)
  {
    assert ResolveLast(offers, how)[..|offers| - 1] == offers[..|offers| - 1];
  }

  lemma CountInAppend(offers: seq<Offer>, offer: Offer, x: Resolution)
    ensures CountIn(offers + [offer], x) == CountIn(offers, x) + (if offer.resolution == x then 1 else 0)
  {
    assert (offers + [offer])[..|offers|] == offers;
  }

  lemma CountAllTrack(o: Order, o': Order, epochs: seq<seq<Offer>>, how: Resolution, x: Resolution)
    requires epochs != [] && o.version != o'.version
    requires o.orderStatus == DriverAssigned ==>
               Current(epochs) != [] && LastOffer(epochs).resolution == Open && o'.orderStatus != DriverAssigned
    requires o'.orderStatus == DriverAssigned ==> o'.assignedDriverId.Some?
    ensures CountAll(Track(epochs, o, o', how), x) == CountAll(epochs, x)
              + (if o.orderStatus == DriverAssigned && how == x then 1 else 0)
              - (if o.orderStatus == DriverAssigned && x == Open then 1 else 0)
              + (if o'.orderStatus == DriverAssigned && x == Open then 1 else 0)
    ensures TotalOffers(Track(epochs, o, o', how))
            == TotalOffers(epochs) + (if o'.orderStatus == DriverAssigned then 1 else 0)
    ensures |Track(epochs, o, o', how)|
            == |epochs| + (if o.orderStatus == Expired && o'.orderStatus != DriverAssigned then 1 else 0)
  {
    var cur := Current(epochs);
    if o.orderStatus == DriverAssigned {
      CountAllSetCurrent(epochs, ResolveLast(cur, how), x);
      CountInResolve(cur, how, x);
    } else if o'.orderStatus == DriverAssigned {
      var offer := Offer(o'.assignedDriverId.value, Open);
      CountAllSetCurrent(epochs, cur + [offer], x);
      CountInAppend(cur, offer, x);
    } else if o.orderStatus == Expired {
      var e := epochs + [[]];
      assert e[..|e| - 1] == epochs && Current(e) == [];
    }
  }

  lemma CountEdgeAppend(h: seq<HistoryEntry>, entry: HistoryEntry, a: OrderStatus, b: OrderStatus)
    ensures CountEdge(h + [entry], a, b)
            == CountEdge(h, a, b) + (if entry.previousStatus == Some(a) && entry.newStatus == b then 1 else 0)
  {
    assert (h + [entry])[..|h|] == h;
  }

  /** The part of a legal write that the counts depend on. */
  predicate CountedWrite(o: Order, o': Order, how: Resolution) {
    && o.version != o'.version
    && (o'.orderStatus == DriverAssigned ==> o.orderStatus == Pending && o'.assignedDriverId.Some?)
    && (o.orderStatus == Expired ==> o'.orderStatus == Pending)
    && (o.orderStatus == DriverAssigned ==>
          || (o'.orderStatus == DriverArriving && how == Accepted)
          || (o'.orderStatus in {Pending, Expired} && how in {Rejected, TimedOut})
          || (o'.orderStatus == Cancelled && how == Withdrawn))
  }

  lemma ResolutionsKept(r: Record, epochs: seq<seq<Offer>>, o': Order, entry: HistoryEntry, how: Resolution)
    requires ResolutionsOk(r.history, epochs) && CountedWrite(r.order, o', how)
    requires epochs != [] && AssigneeOk(r.order, epochs)
    requires entry.previousStatus == Some(r.order.orderStatus) && entry.newStatus == o'.orderStatus
    ensures ResolutionsOk(r.history + [entry], Track(epochs, r.order, o', how))
  {
    CountEdgeAppend(r.history, entry, DriverAssigned, DriverArriving);
    CountAllTrack(r.order, o', epochs, how, Accepted);
    CountEdgeAppend(r.history, entry, DriverAssigned, Cancelled);
    CountAllTrack(r.order, o', epochs, how, Withdrawn);
    CountEdgeAppend(r.history, entry, DriverAssigned, Pending);
    CountEdgeAppend(r.history, entry, DriverAssigned, Expired);
    CountAllTrack(r.order, o', epochs, how, Rejected);
    CountAllTrack(r.order, o', epochs, how, TimedOut);
  }

  /** Both sides of each equation of `CountsOk` move alike. */
  lemma CountsKept(r: Record, epochs: seq<seq<Offer>>, o': Order, actorId: string, how: Resolution)
    requires CountsOk(r, epochs) && CountedWrite(r.order, o', how)
    requires epochs != [] && AssigneeOk(r.order, epochs)
    ensures CountsOk(Save(r, r.order.orderStatus, o', actorId), Track(epochs, r.order, o', how))
  {
    var entry := HistoryEntry(Some(r.order.orderStatus), o'.orderStatus, actorId);
    CountEdgeAppend(r.history, entry, Expired, Pending);
    CountEdgeAppend(r.history, entry, Pending, DriverAssigned);
    CountAllTrack(r.order, o', epochs, how, Open);
    ResolutionsKept(r, epochs, o', entry, how);
  }

  /** Every write except the reset strictly lowers the rank. */
  lemma RankDecreases(maxAttempts: int, o: Order, o': Order, how: Resolution, n: nat)
    requires AttemptsOk(maxAttempts, o, n) && LegalWrite(maxAttempts, o, o', how)
    ensures o.orderStatus != Expired ==> 0 <= Rank(maxAttempts, o') < Rank(maxAttempts, o)
    ensures o.orderStatus == Expired ==> Rank(maxAttempts, o') == 2 * ((maxAttempts + 1) / 2) + 3
  {
  }

  lemma BudgetKept(maxAttempts: int, r: Record, o': Order, actorId: string, how: Resolution, n: nat)
    requires BudgetOk(maxAttempts, r)
    requires AttemptsOk(maxAttempts, r.order, n) && LegalWrite(maxAttempts, r.order, o', how)
    ensures BudgetOk(maxAttempts, Save(r, r.order.orderStatus, o', actorId))
  {
    var r' := Save(r, r.order.orderStatus, o', actorId);
    assert r'.history[..|r'.history| - 1] == r.history;
    RankDecreases(maxAttempts, r.order, o', how, n);
  }

  lemma WriteKeepsGood(maxAttempts: int, r: Record, epochs: seq<seq<Offer>>, o': Order, actorId: string,
                       how: Resolution)
    requires maxAttempts >= 1
    requires Good(maxAttempts, r, epochs) && LegalWrite(maxAttempts, r.order, o', how)
    requires SystemActs(HistoryEntry(Some(r.order.orderStatus), o'.orderStatus, actorId))
    ensures Good(maxAttempts, Save(r, r.order.orderStatus, o', actorId), Track(epochs, r.order, o', how))
  {
    var o := r.order;
    var cur := Current(epochs);
    AuditKept(maxAttempts, r, o', actorId, how);
    TrackedOffers(maxAttempts, o, o', epochs, how);
    AttemptsKept(maxAttempts, o, o', how, |cur|);
    OffersKept(maxAttempts, o, o', epochs, how);
    AssigneeKept(maxAttempts, o, o', epochs, how);
    EpochSizesKept(maxAttempts, o, o', epochs, how);
    CountsKept(r, epochs, o', actorId, how);
    BudgetKept(maxAttempts, r, o', actorId, how, |cur|);
  }

  // ----- every transaction that writes performs a legal write

  /** `r'` is `r` after one legal write that a history entry records. */
  ghost predicate Writes(maxAttempts: int, r: Record, r': Record, actorId: string, how: Resolution) {
    && !r.order.deleted
    && LegalWrite(maxAttempts, r.order, r'.order, how)
    && SystemActs(HistoryEntry(Some(r.order.orderStatus), r'.order.orderStatus, actorId))
    && r' == Save(r, r.order.orderStatus, r'.order, actorId)
  }

  /** An offer that waits for the answer of this driver. */
  predicate Awaits(o: Order, driverId: DriverId) {
    !o.deleted && o.orderStatus == DriverAssigned && o.assignedDriverId == Some(driverId)
  }

  predicate AwaitsDriver(o: Order) {
    !o.deleted && o.orderStatus == Pending
  }

  lemma AssignWrites(maxAttempts: int, r: Record, candidates: seq<DriverId>, lockable: set<DriverId>)
    ensures var (r', driver) := AssignTx(r, candidates, lockable);
            if driver.None? then r' == r
            else Writes(maxAttempts, r, r', SYSTEM, Open) && r.order.orderStatus == Pending
                 && r'.order.orderStatus == DriverAssigned && r'.order.assignedDriverId == driver
  {
    FirstFreeIsFirst(candidates, Distinct(NonEmpty(r.order.attemptedDriverIds)), lockable);
  }

  lemma ExpireWrites(maxAttempts: int, r: Record)
    ensures if AwaitsDriver(r.order)
            then Writes(maxAttempts, r, ExpireTx(r), SYSTEM, Open) && ExpireTx(r).order.orderStatus == Expired
            else ExpireTx(r) == r
  {
  }

  lemma TimeoutWrites(maxAttempts: int, r: Record, driverId: DriverId)
    ensures var (r', result) := TimeoutTx(maxAttempts, r, driverId);
            && (result != Skip <==> Awaits(r.order, driverId))
            && if result == Skip then r' == r
               else
                 && Writes(maxAttempts, r, r', SYSTEM, TimedOut)
                 && r'.order.orderStatus == (if result == TimeoutExpired then Expired else Pending)
  {
  }

  lemma AcceptWrites(maxAttempts: int, r: Record, driverId: DriverId)
    ensures var (r', result) := AcceptTx(r, driverId);
            && (result == Ok(DispatchAccepted) <==> Awaits(r.order, driverId))
            && if result == Ok(DispatchAccepted)
               then Writes(maxAttempts, r, r', driverId, Accepted) && r'.order.orderStatus == DriverArriving
               else r' == r
  {
  }

  lemma RejectWrites(maxAttempts: int, r: Record, driverId: DriverId)
    ensures var (r', result) := RejectTx(maxAttempts, r, driverId);
            && (result in {Ok(RejectExpired), Ok(RejectRedispatch)} <==> Awaits(r.order, driverId))
            && if Awaits(r.order, driverId) then
                 && Writes(maxAttempts, r, r', driverId, Rejected)
                 && r'.order.orderStatus == (if result == Ok(RejectExpired) then Expired else Pending)
               else r' == r
  {
  }

  lemma UpdateWrites(maxAttempts: int, r: Record, s: Order, newStatus: OrderStatus, user: JwtUser)
    requires Behind(s, r.order) && UpdateCheck(s, newStatus, user) == Pass
    ensures var (r', result) := UpdateTx(r, s, newStatus, user.userId);
            && (result.Ok? <==> s == r.order)
            && if result.Err? then r' == r
               else
                 && Writes(maxAttempts, r, r', user.userId, if newStatus == DriverArriving then Accepted else Withdrawn)
                 && r'.order.orderStatus == newStatus
  {
    UpdateCheckExact(s, newStatus, user);
  }

  lemma ReassignWrites(maxAttempts: int, r: Record, s: Order, user: JwtUser)
    requires Behind(s, r.order) && s.orderStatus == Expired
    ensures var (r', result) := ReassignTx(r, s, user.userId);
            && (result.Ok? <==> s == r.order)
            && if result.Err? then r' == r else Writes(maxAttempts, r, r', user.userId, Open)
  {
  }

  // ----- one step

  ghost predicate TrackedWrite(maxAttempts: int, w: World, w': World, actorId: string, how: Resolution) {
    && Writes(maxAttempts, w.rec, w'.rec, actorId, how)
    && w'.epochs == Track(w.epochs, w.rec.order, w'.rec.order, how)
  }

  /** What a step does to the row: nothing, a soft delete, or one legal write that the offer log follows. */
  ghost predicate StepShape(maxAttempts: int, w: World, w': World) {
    || (w'.rec == w.rec && w'.epochs == w.epochs)
    || (w'.rec == DeleteTx(w.rec) && w'.epochs == w.epochs)
    || exists actorId, how :: TrackedWrite(maxAttempts, w, w', actorId, how)
  }

  lemma CommitHasShape(maxAttempts: int, w: World, u: World, rec: Record, actorId: string, how: Resolution)
    requires u.rec == w.rec && u.epochs == w.epochs
    requires rec == w.rec || Writes(maxAttempts, w.rec, rec, actorId, how)
    ensures StepShape(maxAttempts, w, Commit(u, rec, how))
  {
    if rec != w.rec {
      assert TrackedWrite(maxAttempts, w, Commit(u, rec, how), actorId, how);
    }
  }

  lemma AssignStepHasShape(maxAttempts: int, w: World, candidates: seq<DriverId>, lockable: set<DriverId>)
    ensures StepShape(maxAttempts, w, Step(maxAttempts, w, LockAndAssign(candidates, lockable)))
  {
    AssignWrites(maxAttempts, w.rec, candidates, lockable);
    if Locking(candidates) in w.inFlight && AssignTx(w.rec, candidates, lockable).1.Some? {
      assert TrackedWrite(maxAttempts, w, Step(maxAttempts, w, LockAndAssign(candidates, lockable)), SYSTEM, Open);
    }
  }

  lemma SystemStepHasShape(maxAttempts: int, w: World, e: Event)
    requires e.LockAndExpire? || e.DeliverTimeout?
    ensures StepShape(maxAttempts, w, Step(maxAttempts, w, e))
  {
    if e.LockAndExpire? {
      ExpireWrites(maxAttempts, w.rec);
      CommitHasShape(maxAttempts, w, Finish(w, Expiring), ExpireTx(w.rec), SYSTEM, Open);
    } else {
      TimeoutWrites(maxAttempts, w.rec, e.job.driverId);
      CommitHasShape(maxAttempts, w, w, TimeoutTx(maxAttempts, w.rec, e.job.driverId).0, SYSTEM, TimedOut);
    }
  }

  lemma AnswerStepHasShape(maxAttempts: int, w: World, e: Event)
    requires e.AcceptDispatch? || e.RejectDispatch?
    ensures StepShape(maxAttempts, w, Step(maxAttempts, w, e))
  {
    if e.AcceptDispatch? {
      AcceptWrites(maxAttempts, w.rec, e.driverId);
      CommitHasShape(maxAttempts, w, w, AcceptTx(w.rec, e.driverId).0, e.driverId, Accepted);
    } else {
      RejectWrites(maxAttempts, w.rec, e.driverId);
      CommitHasShape(maxAttempts, w, w, RejectTx(maxAttempts, w.rec, e.driverId).0, e.driverId, Rejected);
    }
  }

  lemma UpdateStepHasShape(maxAttempts: int, w: World, s: Order, newStatus: OrderStatus, user: JwtUser)
    requires Updating(s, newStatus, user) in w.inFlight ==>
               HandlerOk(maxAttempts, w.rec.order, w.epochs, Updating(s, newStatus, user))
    ensures StepShape(maxAttempts, w, Step(maxAttempts, w, CommitUpdate(s, newStatus, user)))
  {
    var h := Updating(s, newStatus, user);
    if h in w.inFlight {
      UpdateWrites(maxAttempts, w.rec, s, newStatus, user);
      CommitHasShape(maxAttempts, w, Finish(w, h), UpdateTx(w.rec, s, newStatus, user.userId).0, user.userId,
                     if newStatus == DriverArriving then Accepted else Withdrawn);
    }
  }

  lemma ReassignStepHasShape(maxAttempts: int, w: World, s: Order, user: JwtUser)
    requires Reassigning(s, user) in w.inFlight ==> HandlerOk(maxAttempts, w.rec.order, w.epochs, Reassigning(s, user))
    ensures StepShape(maxAttempts, w, Step(maxAttempts, w, CommitReassign(s, user)))
  {
    var h := Reassigning(s, user);
    if h in w.inFlight {
      ReassignWrites(maxAttempts, w.rec, s, user);
      CommitHasShape(maxAttempts, w, Finish(w, h), ReassignTx(w.rec, s, user.userId).0, user.userId, Open);
    }
  }

  lemma OtherStepHasShape(maxAttempts: int, w: World, e: Event)
    requires e.ReadForAssign? || e.FindCandidates? || e.AddTimeoutJob? || e.ReadForUpdate? || e.ReadForReassign?
             || e.ReadForDelete? || e.CommitDelete?
    ensures StepShape(maxAttempts, w, Step(maxAttempts, w, e))
  {
  }

  lemma StepHasShape(maxAttempts: int, w: World, e: Event)
    requires Inv(maxAttempts, w)
    ensures StepShape(maxAttempts, w, Step(maxAttempts, w, e))
  {
    match e
    case LockAndAssign(candidates, lockable) => AssignStepHasShape(maxAttempts, w, candidates, lockable);
    case LockAndExpire => SystemStepHasShape(maxAttempts, w, e);
    case DeliverTimeout(_) => SystemStepHasShape(maxAttempts, w, e);
    case AcceptDispatch(_) => AnswerStepHasShape(maxAttempts, w, e);
    case RejectDispatch(_) => AnswerStepHasShape(maxAttempts, w, e);
    case CommitUpdate(s, newStatus, user) => UpdateStepHasShape(maxAttempts, w, s, newStatus, user);
    case CommitReassign(s, user) => ReassignStepHasShape(maxAttempts, w, s, user);
    case _ => OtherStepHasShape(maxAttempts, w, e);
  }

  lemma JobsKept(maxAttempts: int, o: Order, o': Order, epochs: seq<seq<Offer>>, how: Resolution, job: TimeoutJob)
    requires epochs != [] && LegalWrite(maxAttempts, o, o', how) && JobOk(job, epochs)
    ensures JobOk(job, Track(epochs, o, o', how))
  {
    TrackedOffers(maxAttempts, o, o', epochs, how);
  }

  lemma DeleteKeepsHistory(maxAttempts: int, r: Record, epochs: seq<seq<Offer>>)
    requires AuditOk(r) && CountsOk(r, epochs) && BudgetOk(maxAttempts, r)
    ensures AuditOk(DeleteTx(r)) && CountsOk(DeleteTx(r), epochs) && BudgetOk(maxAttempts, DeleteTx(r))
  {
  }

  lemma DeleteKeepsOffers(o: Order, epochs: seq<seq<Offer>>)
    requires OffersOk(o, epochs) && AssigneeOk(o, epochs)
    ensures OffersOk(o.(deleted := true), epochs) && AssigneeOk(o.(deleted := true), epochs)
  {
  }

  lemma DeleteKeepsGood(maxAttempts: int, r: Record, epochs: seq<seq<Offer>>)
    requires Good(maxAttempts, r, epochs)
    ensures Good(maxAttempts, DeleteTx(r), epochs)
  {
    DeleteKeepsHistory(maxAttempts, r, epochs);
    DeleteKeepsOffers(r.order, epochs);
  }

  lemma ShapeKeepsGood(maxAttempts: int, w: World, w': World)
    requires maxAttempts >= 1 && Inv(maxAttempts, w) && StepShape(maxAttempts, w, w')
    ensures Good(maxAttempts, w'.rec, w'.epochs)
  {
    if actorId, how :| TrackedWrite(maxAttempts, w, w', actorId, how) {
      WriteKeepsGood(maxAttempts, w.rec, w.epochs, w'.rec.order, actorId, how);
    } else if w'.rec != w.rec {
      DeleteKeepsGood(maxAttempts, w.rec, w.epochs);
    }
  }

  lemma ShapeKeepsHandler(maxAttempts: int, w: World, w': World, h: Handler)
    requires Inv(maxAttempts, w) && StepShape(maxAttempts, w, w')
    requires HandlerOk(maxAttempts, w.rec.order, w.epochs, h)
    ensures HandlerOk(maxAttempts, w'.rec.order, w'.epochs, h)
  {
    if actorId, how :| TrackedWrite(maxAttempts, w, w', actorId, how) {
      if h.Scheduling? {
        JobsKept(maxAttempts, w.rec.order, w'.rec.order, w.epochs, how, h.job);
      }
    }
  }

  lemma ShapeKeepsJob(maxAttempts: int, w: World, w': World, job: TimeoutJob)
    requires Inv(maxAttempts, w) && StepShape(maxAttempts, w, w') && JobOk(job, w.epochs)
    ensures JobOk(job, w'.epochs)
  {
    if actorId, how :| TrackedWrite(maxAttempts, w, w', actorId, how) {
      JobsKept(maxAttempts, w.rec.order, w'.rec.order, w.epochs, how, job);
    }
  }

  /** The timeout job of a new offer points at that offer. */
  lemma AssignmentSchedules(maxAttempts: int, w: World, candidates: seq<DriverId>, lockable: set<DriverId>, h: Handler)
    requires w.epochs != []
    requires var w' := Step(maxAttempts, w, LockAndAssign(candidates, lockable));
             h in w'.inFlight && h !in w.inFlight
    ensures var w' := Step(maxAttempts, w, LockAndAssign(candidates, lockable));
            h == Expiring || (h.Scheduling? && JobOk(h.job, w'.epochs))
  {
    AssignWrites(maxAttempts, w.rec, candidates, lockable);
    var (rec, driver) := AssignTx(w.rec, candidates, lockable);
    if driver.Some? {
      TrackedOffers(maxAttempts, w.rec.order, rec.order, w.epochs, Open);
    }
  }

  /** Only reads, and the two steps in the middle of an assignment, start a handler. */
  lemma OthersStartNothing(maxAttempts: int, w: World, e: Event, h: Handler)
    requires !e.ReadForAssign? && !e.ReadForUpdate? && !e.ReadForReassign? && !e.ReadForDelete?
    requires !e.LockAndAssign? && !e.FindCandidates?
    requires h in Step(maxAttempts, w, e).inFlight
    ensures h in w.inFlight
  {
    match e
    case LockAndExpire =>
      assert Expiring in w.inFlight ==> h in Finish(w, Expiring).inFlight;
    case AddTimeoutJob(job) =>
      assert Scheduling(job) in w.inFlight ==> h in Finish(w, Scheduling(job)).inFlight;
    case CommitUpdate(s, newStatus, user) =>
      var u := Updating(s, newStatus, user);
      assert u in w.inFlight ==> h in Finish(w, u).inFlight;
    case CommitReassign(s, user) =>
      assert Reassigning(s, user) in w.inFlight ==> h in Finish(w, Reassigning(s, user)).inFlight;
    case CommitDelete(s) =>
      assert Deleting(s) in w.inFlight ==> h in Finish(w, Deleting(s)).inFlight;
    case _ =>
  }

  /** A handler that an unlocked read starts holds the row as it is. */
  lemma ReadStarts(maxAttempts: int, w: World, e: Event, h: Handler)
    requires e.ReadForAssign? || e.ReadForUpdate? || e.ReadForReassign? || e.ReadForDelete?
    requires h in Step(maxAttempts, w, e).inFlight && h !in w.inFlight
    ensures Step(maxAttempts, w, e).rec == w.rec && !w.rec.order.deleted
    ensures var o := w.rec.order;
            || h == Expiring
            || (h == Assigning(o) && o.orderStatus == Pending && o.dispatchAttempts < maxAttempts)
            || (h.Updating? && h.snapshot == o && UpdateCheck(o, h.newStatus, h.user) == Pass)
            || (h.Reassigning? && h.snapshot == o && o.orderStatus == Expired)
            || (h == Deleting(o) && !Active(o.orderStatus))
  {
  }

  /** A handler that a step starts is in order when it starts. */
  lemma NewHandlerOk(maxAttempts: int, w: World, e: Event, h: Handler)
    requires w.epochs != []
    requires h in Step(maxAttempts, w, e).inFlight && h !in w.inFlight
    ensures var w' := Step(maxAttempts, w, e); HandlerOk(maxAttempts, w'.rec.order, w'.epochs, h)
  {
    match e
    case LockAndAssign(candidates, lockable) =>
      AssignmentSchedules(maxAttempts, w, candidates, lockable, h);
    case FindCandidates(_, _) =>
      assert h.Expiring? || h.Locking?;
    case _ =>
      if e.ReadForAssign? || e.ReadForUpdate? || e.ReadForReassign? || e.ReadForDelete? {
        ReadStarts(maxAttempts, w, e, h);
      } else {
        OthersStartNothing(maxAttempts, w, e, h);
      }
  }

  lemma NewJob(maxAttempts: int, w: World, e: Event, job: TimeoutJob)
    requires job in Step(maxAttempts, w, e).jobs
    ensures job in w.jobs || Scheduling(job) in w.inFlight
  {
  }

  lemma StepKeepsHandlers(maxAttempts: int, w: World, e: Event)
    requires Inv(maxAttempts, w) && StepShape(maxAttempts, w, Step(maxAttempts, w, e))
    ensures var w' := Step(maxAttempts, w, e);
            forall h :: h in w'.inFlight ==> HandlerOk(maxAttempts, w'.rec.order, w'.epochs, h)
  {
    var w' := Step(maxAttempts, w, e);
    forall h | h in w'.inFlight
      ensures HandlerOk(maxAttempts, w'.rec.order, w'.epochs, h)
    {
      if h in w.inFlight {
        ShapeKeepsHandler(maxAttempts, w, w', h);
      } else {
        NewHandlerOk(maxAttempts, w, e, h);
      }
    }
  }

  lemma StepKeepsJobs(maxAttempts: int, w: World, e: Event)
    requires Inv(maxAttempts, w) && StepShape(maxAttempts, w, Step(maxAttempts, w, e))
    ensures var w' := Step(maxAttempts, w, e);
            forall job :: job in w'.jobs ==> JobOk(job, w'.epochs)
  {
    var w' := Step(maxAttempts, w, e);
    forall job | job in w'.jobs
      ensures JobOk(job, w'.epochs)
    {
      NewJob(maxAttempts, w, e, job);
      assert Scheduling(job) in w.inFlight ==> HandlerOk(maxAttempts, w.rec.order, w.epochs, Scheduling(job));
      ShapeKeepsJob(maxAttempts, w, w', job);
    }
  }

  lemma StepKeepsInv(maxAttempts: int, w: World, e: Event)
    requires maxAttempts >= 1 && Inv(maxAttempts, w)
    ensures Inv(maxAttempts, Step(maxAttempts, w, e))
  {
    StepHasShape(maxAttempts, w, e);
    ShapeKeepsGood(maxAttempts, w, Step(maxAttempts, w, e));
    StepKeepsHandlers(maxAttempts, w, e);
    StepKeepsJobs(maxAttempts, w, e);
  }

  lemma InitCounts(customerId: string, vehincleType: VehincleType)
    ensures CountsOk(CreateOrder(customerId, vehincleType), [[]])
  {
    var h := CreateOrder(customerId, vehincleType).history;
    var none: seq<seq<Offer>> := [[]];
    assert none[..0] == [] && Current(none) == [];
    assert forall how :: CountAll(none, how) == 0;
    assert h[..0] == [];
    assert forall a, b :: CountEdge(h, a, b) == 0;
  }

  lemma InitGood(maxAttempts: int, customerId: string, vehincleType: VehincleType)
    requires maxAttempts >= 1
    ensures Good(maxAttempts, CreateOrder(customerId, vehincleType), [[]])
  {
    InitCounts(customerId, vehincleType);
    assert AttemptedOk([], []);
    assert BudgetOk(maxAttempts, CreateOrder(customerId, vehincleType));
  }

  /** The invariant holds after every run. */
  lemma {:induction false} RunKeepsInv(maxAttempts: int, customerId: string, vehincleType: VehincleType, es: seq<Event>)
    requires maxAttempts >= 1
    ensures Inv(maxAttempts, Run(maxAttempts, customerId, vehincleType, es))
  {
    if es == [] {
      InitGood(maxAttempts, customerId, vehincleType);
    } else {
      RunKeepsInv(maxAttempts, customerId, vehincleType, es[..|es| - 1]);
      StepKeepsInv(maxAttempts, Run(maxAttempts, customerId, vehincleType, es[..|es| - 1]), es[|es| - 1]);
    }
  }
}
