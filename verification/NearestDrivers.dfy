/**
 * Which driver an assign job picks: the eligible drivers of an unlocked read,
 * nearest first, and then the first of them that the locked transaction may take.
 */
module NearestDrivers {
  import opened Wrappers
  import opened Orders

  datatype Driver = Driver(
    id: DriverId,
    onlineStatus: bool,
    isSuspended: bool,
    vehincleType: VehincleType,
    currentLatitude: Option<real>,
    currentLongitude: Option<real>)

  /** Distance from the pickup point of the order at hand; `calculateDistance` itself is not modelled. */
  type DistanceFrom = (real, real) -> real

  function NonEmpty(ids: seq<string>): (r: seq<string>)
    ensures forall id :: id in r <==> id in ids && id != ""
  {
    if ids == [] then [] else if ids[0] != "" then [ids[0]] + NonEmpty(ids[1..]) else NonEmpty(ids[1..])
  }

  /** The `where` clause of the unlocked driver query. */
  predicate InSnapshot(order: Order, d: Driver) {
    && d.onlineStatus
    && !d.isSuspended
    && d.vehincleType == order.vehincleType
    && d.currentLatitude.Some?
    && d.currentLongitude.Some?
    && d.id !in NonEmpty(order.attemptedDriverIds)
  }

  function Matching(order: Order, drivers: seq<Driver>): (r: seq<Driver>)
    ensures forall d :: d in r <==> d in drivers && InSnapshot(order, d)
  {
    if drivers == [] then []
    else if InSnapshot(order, drivers[0]) then [drivers[0]] + Matching(order, drivers[1..])
    else Matching(order, drivers[1..])
  }

  function Distance(dist: DistanceFrom, d: Driver): real {
    if d.currentLatitude.Some? && d.currentLongitude.Some?
    then dist(d.currentLatitude.value, d.currentLongitude.value)
    else 0.0
  }

  predicate SortedByDistance(dist: DistanceFrom, ds: seq<Driver>) {
    forall i, j :: 0 <= i < j < |ds| ==> Distance(dist, ds[i]) <= Distance(dist, ds[j])
  }

  function Insert(dist: DistanceFrom, d: Driver, ds: seq<Driver>): (r: seq<Driver>)
    ensures forall x :: x in r <==> x == d || x in ds
  {
    if ds == [] then [d]
    else if Distance(dist, d) <= Distance(dist, ds[0]) then [d] + ds
    else [ds[0]] + Insert(dist, d, ds[1..])
  }

  function SortByDistance(dist: DistanceFrom, ds: seq<Driver>): (r: seq<Driver>)
    ensures forall x :: x in r <==> x in ds
  {
    if ds == [] then [] else Insert(dist, ds[0], SortByDistance(dist, ds[1..]))
  }

  lemma {:induction false} InsertSorts(dist: DistanceFrom, d: Driver, ds: seq<Driver>)
    requires SortedByDistance(dist, ds)
    ensures SortedByDistance(dist, Insert(dist, d, ds))
  {
    if ds != [] && Distance(dist, d) > Distance(dist, ds[0]) {
      InsertSorts(dist, d, ds[1..]);
      var tail := Insert(dist, d, ds[1..]);
      forall j | 0 <= j < |tail|
        ensures Distance(dist, ds[0]) <= Distance(dist, tail[j])
      {
        assert tail[j] in tail;
        if tail[j] != d {
          var i :| 0 <= i < |ds[1..]| && ds[1..][i] == tail[j];
        }
      }
    }
  }

  lemma {:induction false} InsertAdds(dist: DistanceFrom, d: Driver, ds: seq<Driver>)
    ensures multiset(Insert(dist, d, ds)) == multiset{d} + multiset(ds)
  {
    if ds != [] {
      assert ds == [ds[0]] + ds[1..];
      InsertAdds(dist, d, ds[1..]);
    }
  }

  /** The sort returns every driver it was given, as often, and nearest first. */
  lemma {:induction false} SortedPermutation(dist: DistanceFrom, ds: seq<Driver>)
    ensures SortedByDistance(dist, SortByDistance(dist, ds))
    ensures multiset(SortByDistance(dist, ds)) == multiset(ds)
  {
    if ds != [] {
      SortedPermutation(dist, ds[1..]);
      InsertSorts(dist, ds[0], SortByDistance(dist, ds[1..]));
      InsertAdds(dist, ds[0], SortByDistance(dist, ds[1..]));
      assert ds == [ds[0]] + ds[1..];
    }
  }

  // findNearestEligibleDrivers
  function FindNearestEligibleDrivers(order: Order, drivers: seq<Driver>, dist: DistanceFrom): seq<Driver> {
    SortByDistance(dist, Matching(order, drivers))
  }

  function Ids(ds: seq<Driver>): (r: seq<DriverId>)
    ensures |r| == |ds|
    ensures forall i :: 0 <= i < |ds| ==> r[i] == ds[i].id
  {
    if ds == [] then [] else [ds[0].id] + Ids(ds[1..])
  }

  /** The drivers whose row the locked query returns: still eligible, and not locked by someone else. */
  function LockableDrivers(drivers: map<DriverId, Driver>, lockedElsewhere: set<DriverId>,
                           vehincleType: VehincleType): set<DriverId>
  {
    set id | id in drivers
             && id !in lockedElsewhere
             && drivers[id].onlineStatus
             && !drivers[id].isSuspended
             && drivers[id].vehincleType == vehincleType
  }

  /** The loop of `assignDriverWithLock`: the first candidate not yet attempted whose row can be locked. */
  function FirstFree(candidates: seq<DriverId>, attempted: seq<string>, lockable: set<DriverId>): Option<DriverId> {
    if candidates == [] then None
    else if candidates[0] !in attempted && candidates[0] in lockable then Some(candidates[0])
    else FirstFree(candidates[1..], attempted, lockable)
  }

  lemma {:induction false} FirstFreeIsFirst(candidates: seq<DriverId>, attempted: seq<string>, lockable: set<DriverId>)
    ensures match FirstFree(candidates, attempted, lockable)
            case None => forall c | c in candidates :: c in attempted || c !in lockable
            case Some(d) =>
              && d !in attempted && d in lockable
              && exists i :: 0 <= i < |candidates| && candidates[i] == d
                             && forall j | 0 <= j < i :: candidates[j] in attempted || candidates[j] !in lockable
  {
    if candidates != [] {
      var c := candidates[0];
      if c !in attempted && c in lockable {
        assert candidates[0] == c;
      } else {
        FirstFreeIsFirst(candidates[1..], attempted, lockable);
        match FirstFree(candidates[1..], attempted, lockable)
        case None =>
        case Some(d) =>
          var i :| 0 <= i < |candidates[1..]| && candidates[1..][i] == d
                   && forall j | 0 <= j < i :: candidates[1..][j] in attempted || candidates[1..][j] !in lockable;
          assert candidates[i + 1] == d;
          forall j | 0 <= j < i + 1
            ensures candidates[j] in attempted || candidates[j] !in lockable
          {
            if j > 0 { assert candidates[j] == candidates[1..][j - 1]; }
          }
      }
    }
  }

  /** A driver of the snapshot that the locked transaction could still take: not excluded there, and lockable. */
  predicate Takeable(snapshot: Order, excluded: seq<string>, drivers: seq<Driver>, lockable: set<DriverId>, d: Driver) {
    && d in drivers
    && InSnapshot(snapshot, d)
    && d.id !in excluded
    && d.id in lockable
  }

  /** A driver that can still be taken stands in the candidate list, at a place the loop would not skip. */
  lemma TakeableIsListed(snapshot: Order, excluded: seq<string>, drivers: seq<Driver>, dist: DistanceFrom,
                         lockable: set<DriverId>, y: Driver)
    returns (k: nat)
    requires Takeable(snapshot, excluded, drivers, lockable, y)
    ensures var ds := FindNearestEligibleDrivers(snapshot, drivers, dist);
            && k < |ds| && ds[k] == y
            && Ids(ds)[k] !in excluded
            && Ids(ds)[k] in lockable
  {
    var ds := FindNearestEligibleDrivers(snapshot, drivers, dist);
    assert y in ds;
    k :| 0 <= k < |ds| && ds[k] == y;
  }

  /** `d` can be taken, and no driver that can be taken is nearer. */
  ghost predicate NearestTakeable(snapshot: Order, excluded: seq<string>, drivers: seq<Driver>, dist: DistanceFrom,
                                  lockable: set<DriverId>, d: Driver)
  {
    && Takeable(snapshot, excluded, drivers, lockable, d)
    && forall y :: Takeable(snapshot, excluded, drivers, lockable, y) ==> Distance(dist, d) <= Distance(dist, y)
  }

  lemma ListedIsNearest(snapshot: Order, excluded: seq<string>, drivers: seq<Driver>, dist: DistanceFrom,
                        lockable: set<DriverId>, i: nat)
    requires var ids := Ids(FindNearestEligibleDrivers(snapshot, drivers, dist));
             && i < |ids| && ids[i] !in excluded && ids[i] in lockable
             && forall j | 0 <= j < i :: ids[j] in excluded || ids[j] !in lockable
    ensures var ds := FindNearestEligibleDrivers(snapshot, drivers, dist);
            i < |ds| && NearestTakeable(snapshot, excluded, drivers, dist, lockable, ds[i])
  {
    var ds := FindNearestEligibleDrivers(snapshot, drivers, dist);
    SortedPermutation(dist, Matching(snapshot, drivers));
    assert ds[i] in ds;
    forall y | Takeable(snapshot, excluded, drivers, lockable, y)
      ensures Distance(dist, ds[i]) <= Distance(dist, y)
    {
      var k := TakeableIsListed(snapshot, excluded, drivers, dist, lockable, y);
    }
  }

  /**
   * Nearest first, end to end: whatever the row and the drivers have become
   * since the unlocked read, the driver picked under the lock minimises the
   * snapshot distance among all snapshot candidates that can still be taken,
   * and none is picked only when there is no such candidate.
   */
  lemma NearestFirst(snapshot: Order, excluded: seq<string>, drivers: seq<Driver>, dist: DistanceFrom,
                     lockable: set<DriverId>)
    ensures
      match FirstFree(Ids(FindNearestEligibleDrivers(snapshot, drivers, dist)), excluded, lockable)
      case None => forall y :: !Takeable(snapshot, excluded, drivers, lockable, y)
      case Some(id) =>
        exists d: Driver :: d.id == id && NearestTakeable(snapshot, excluded, drivers, dist, lockable, d)
  {
    var ds := FindNearestEligibleDrivers(snapshot, drivers, dist);
    var ids := Ids(ds);
    FirstFreeIsFirst(ids, excluded, lockable);
    match FirstFree(ids, excluded, lockable)
    case None =>
      assert forall k | 0 <= k < |ids| :: ids[k] in ids;
      forall y
        ensures !Takeable(snapshot, excluded, drivers, lockable, y)
      {
        if Takeable(snapshot, excluded, drivers, lockable, y) {
          var k := TakeableIsListed(snapshot, excluded, drivers, dist, lockable, y);
        }
      }
    case Some(id) =>
      var i :| 0 <= i < |ids| && ids[i] == id
               && forall j | 0 <= j < i :: ids[j] in excluded || ids[j] !in lockable;
      ListedIsNearest(snapshot, excluded, drivers, dist, lockable, i);
  }
}
