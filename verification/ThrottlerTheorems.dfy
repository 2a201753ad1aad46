/** How much traffic the limiter lets through, over all runs of the script on one pair of keys. */
module ThrottlerTheorems {
  import opened Wrappers
  import opened Throttler

  predicate Admitted(p: Limits, ts: seq<int>, i: nat)
    requires i < |ts|
  {
    !ReplyTo(p, ts, i).isBlocked
  }

  /** What holds of the keys at any time `now` not before the last hit. */
  predicate KeysOk(p: Limits, k: Keys, now: int) {
    && (k.count.Present? ==> k.count.value >= 1 && k.count.expiresAt.Some? && k.count.expiresAt.value <= now + p.ttl)
    && (k.block.Present? ==> k.block.expiresAt.Some?)
    && (IsLive(k.block, now) && IsLive(k.count, now) ==> k.count.value > p.limit)
  }

  lemma {:induction false} RunKeepsKeys(p: Limits, ts: seq<int>, now: int)
    requires ValidLimits(p) && Clock(ts) && (ts != [] ==> ts[|ts| - 1] <= now)
    ensures KeysOk(p, After(p, ts), now)
  {
    if ts != [] {
      RunKeepsKeys(p, ts[..|ts| - 1], ts[|ts| - 1]);
    }
  }

  lemma KeysBefore(p: Limits, ts: seq<int>, i: nat)
    requires ValidLimits(p) && Clock(ts) && i < |ts|
    ensures KeysOk(p, After(p, ts[..i]), ts[i])
  {
    RunKeepsKeys(p, ts[..i], ts[i]);
  }

  /** Every report is consistent: a caller is blocked exactly when it is over the limit, and told for how long. */
  lemma ReportsConsistent(p: Limits, ts: seq<int>, i: nat)
    requires ValidLimits(p) && Clock(ts) && i < |ts|
    ensures var r := ReplyTo(p, ts, i);
            && (r.isBlocked <==> r.totalHits > p.limit)
            && (r.isBlocked <==> r.timeToBlockExpire >= 1)
            && r.totalHits >= 1 && r.timeToExpire >= 1
            && (!r.isBlocked ==> r.timeToExpire <= CeilSeconds(p.ttl) && r.timeToBlockExpire == 0)
  {
    KeysBefore(p, ts, i);
  }

  /** A present counter has an expiry, and a block in force means that the counter is gone or above the limit. */
  lemma KeysConsistent(p: Limits, ts: seq<int>, now: int)
    requires ValidLimits(p) && Clock(ts) && (ts != [] ==> ts[|ts| - 1] <= now)
    ensures var k := After(p, ts);
            && (IsLive(k.count, now) ==> Pttl(k.count, now) > 0)
            && (IsLive(k.block, now) ==> !IsLive(k.count, now) || k.count.value > p.limit)
  {
    RunKeepsKeys(p, ts, now);
  }

  /**
   * What a run does to any two keys, also ones that no sequence of hits leaves:
   * a counter that has lost its expiry gets one again, and a block without one
   * does not block.
   */
  lemma AnyKeys(p: Limits, k: Keys, now: int)
    requires ValidLimits(p)
    ensures var (k', r) := RunIncrement(p, k, now);
            if k.block.Present? && k.block.expiresAt.Some? && now < k.block.expiresAt.value then k' == k && r.isBlocked
            else
              && k'.count.Present?
              && k'.count.value == r.totalHits == (if IsLive(k.count, now) then k.count.value + 1 else 1)
              && k'.count.expiresAt == (if IsLive(k.count, now) && k.count.expiresAt.Some? && k.count.value != 0
                                        then k.count.expiresAt else Some(now + p.ttl))
              && r.isBlocked == (r.totalHits > p.limit)
              && k'.block == (if r.isBlocked then Present(1, Some(now + p.blockDuration)) else k.block)
  {
  }

  // ----- blocks

  /** Hit `i` is refused by the count, not by a block already in force: it sets the block. */
  predicate SetsBlock(p: Limits, ts: seq<int>, i: nat)
    requires i < |ts|
  {
    ReplyTo(p, ts, i).isBlocked && !IsLive(After(p, ts[..i]).block, ts[i])
  }

  lemma {:induction false} BlockStands(p: Limits, ts: seq<int>, i: nat, j: nat)
    requires ValidLimits(p) && Clock(ts) && i < j < |ts|
    requires SetsBlock(p, ts, i) && ts[j] < ts[i] + p.blockDuration
    ensures After(p, ts[..j]).block == Present(1, Some(ts[i] + p.blockDuration))
    decreases j
  {
    assert ts[..j][..j - 1] == ts[..j - 1];
    if j > i + 1 {
      BlockStands(p, ts, i, j - 1);
    } else {
      KeysBefore(p, ts, i);
    }
  }

  /** After a refusal that sets the block no hit is admitted for the whole block duration. */
  lemma {:induction false} BlockHolds(p: Limits, ts: seq<int>, i: nat, j: nat)
    requires ValidLimits(p) && Clock(ts) && i < j < |ts|
    requires SetsBlock(p, ts, i) && ts[j] < ts[i] + p.blockDuration
    ensures !Admitted(p, ts, j)
  {
    BlockStands(p, ts, i, j);
  }

  lemma CeilSecondsBounds(ms: int)
    ensures (CeilSeconds(ms) - 1) * 1000 < ms <= CeilSeconds(ms) * 1000
  {
  }

  /** What a refusal reports: the block it leaves ends within the reported second. */
  lemma RefusalReport(p: Limits, k: Keys, now: int)
    requires ValidLimits(p) && KeysOk(p, k, now) && RunIncrement(p, k, now).1.isBlocked
    ensures var (k', r) := RunIncrement(p, k, now);
            && IsLive(k'.block, now) && k'.block.expiresAt.Some?
            && now + (r.timeToBlockExpire - 1) * 1000 < k'.block.expiresAt.value <= now + r.timeToBlockExpire * 1000
  {
    CeilSecondsBounds(p.blockDuration);
    CeilSecondsBounds(Pttl(k.block, now));
  }

  lemma {:induction false} BlockStays(p: Limits, ts: seq<int>, i: nat, j: nat, e: int)
    requires ValidLimits(p) && i < j < |ts|
    requires var b := After(p, ts[..i + 1]).block; b.Present? && b.expiresAt == Some(e)
    requires forall k :: i <= k <= j ==> ts[k] < e
    ensures IsLive(After(p, ts[..j]).block, ts[j]) && After(p, ts[..j]).block.expiresAt == Some(e)
    decreases j
  {
    if j > i + 1 {
      BlockStays(p, ts, i, j - 1, e);
      assert ts[..j][..j - 1] == ts[..j - 1];
    }
  }

  /**
   * The reported time to wait is honest to the second: a refused caller who
   * comes back more than a second early is refused again, and one who is the
   * next to come, after waiting as told, finds no block.
   */
  lemma RetryAfterIsHonest(p: Limits, ts: seq<int>, i: nat, j: nat)
    requires ValidLimits(p) && Clock(ts) && i < j < |ts| && !Admitted(p, ts, i)
    ensures var wait := ReplyTo(p, ts, i).timeToBlockExpire;
            && (ts[j] <= ts[i] + (wait - 1) * 1000 ==> !Admitted(p, ts, j))
            && (j == i + 1 && ts[j] >= ts[i] + wait * 1000 ==> !IsLive(After(p, ts[..j]).block, ts[j]))
  {
    KeysBefore(p, ts, i);
    assert ts[..i + 1][..i] == ts[..i];
    RefusalReport(p, After(p, ts[..i]), ts[i]);
    var e := After(p, ts[..i + 1]).block.expiresAt.value;
    if ts[j] < e {
      BlockStays(p, ts, i, j, e);
    }
  }

  // ----- windows

  /** The start of the counting window that a counter belongs to. */
  function WindowOf(p: Limits, k: Keys): int {
    if k.count.Present? && k.count.expiresAt.Some? then k.count.expiresAt.value - p.ttl else 0
  }

  function WindowStart(p: Limits, ts: seq<int>, i: nat): int
    requires i < |ts|
  {
    WindowOf(p, After(p, ts[..i + 1]))
  }

  /** What one hit does, in terms of windows. */
  lemma HitEffect(p: Limits, k: Keys, now: int)
    requires ValidLimits(p) && KeysOk(p, k, now)
    ensures var (k', r) := RunIncrement(p, k, now);
            && (r.isBlocked && IsLive(k.block, now) ==> k' == k)
            && (!(IsLive(k.block, now)) ==>
                  && k'.count.Present?
                  && (r.isBlocked <==> k'.count.value > p.limit)
                  && WindowOf(p, k') <= now < WindowOf(p, k') + p.ttl
                  && if IsLive(k.count, now)
                     then k'.count.value == k.count.value + 1 && WindowOf(p, k') == WindowOf(p, k)
                     else k'.count.value == 1 && WindowOf(p, k') == now)
            && (!r.isBlocked ==> !IsLive(k.block, now))
  {
  }

  /** A hit is admitted within the ttl of its window's start. */
  lemma AdmittedInItsWindow(p: Limits, ts: seq<int>, i: nat)
    requires ValidLimits(p) && Clock(ts) && i < |ts| && Admitted(p, ts, i)
    ensures WindowStart(p, ts, i) <= ts[i] < WindowStart(p, ts, i) + p.ttl
  {
    KeysBefore(p, ts, i);
    assert ts[..i + 1][..i] == ts[..i];
    HitEffect(p, After(p, ts[..i]), ts[i]);
  }

  /** The counter of `k'` belongs to the window of `k`, or to one that starts a full ttl later. */
  predicate Succeeds(p: Limits, k: Keys, k': Keys) {
    && k.count.Present? && k'.count.Present?
    && (WindowOf(p, k') == WindowOf(p, k) || WindowOf(p, k') >= WindowOf(p, k) + p.ttl)
  }

  lemma WindowSucceeds(p: Limits, k: Keys, k': Keys, now: int)
    requires ValidLimits(p) && KeysOk(p, k', now) && Succeeds(p, k, k')
    ensures Succeeds(p, k, RunIncrement(p, k', now).0)
  {
    HitEffect(p, k', now);
  }

  lemma AfterNext(p: Limits, ts: seq<int>, i: nat)
    requires i < |ts|
    ensures After(p, ts[..i + 1]) == RunIncrement(p, After(p, ts[..i]), ts[i]).0
  {
    assert ts[..i + 1][..i] == ts[..i];
  }

  /** Counters are replaced only by counters of windows that start a full ttl later. */
  lemma {:induction false} WindowsSucceed(p: Limits, ts: seq<int>, i: nat, j: nat, k: Keys)
    requires ValidLimits(p) && Clock(ts) && i <= j <= |ts|
    requires k == After(p, ts[..i]) && k.count.Present?
    ensures Succeeds(p, k, After(p, ts[..j]))
    decreases j
  {
    if j > i {
      var m := j - 1;
      WindowsSucceed(p, ts, i, m, k);
      KeysBefore(p, ts, m);
      AfterNext(p, ts, m);
      WindowSucceeds(p, k, After(p, ts[..m]), ts[m]);
    }
  }

  /** Two windows that admit hits are the same or start at least a ttl apart. */
  lemma WindowsApart(p: Limits, ts: seq<int>, i: nat, j: nat)
    requires ValidLimits(p) && Clock(ts) && i < j < |ts| && Admitted(p, ts, i)
    ensures WindowStart(p, ts, j) == WindowStart(p, ts, i) || WindowStart(p, ts, j) >= WindowStart(p, ts, i) + p.ttl
  {
    KeysBefore(p, ts, i);
    assert ts[..i + 1][..i] == ts[..i];
    HitEffect(p, After(p, ts[..i]), ts[i]);
    WindowsSucceed(p, ts, i + 1, j + 1, After(p, ts[..i + 1]));
  }

  function AdmittedInWindow(p: Limits, ts: seq<int>, s: int): nat {
    if ts == [] then 0
    else
      var n := |ts| - 1;
      AdmittedInWindow(p, ts[..n], s) + (if Admitted(p, ts, n) && WindowStart(p, ts, n) == s then 1 else 0)
  }

  function Min(a: int, b: int): int {
    if a <= b then a else b
  }

  /** A counting window admits at most `limit` hits, those its counter has counted; later windows have not begun. */
  lemma {:induction false} WindowAdmitsLimit(p: Limits, ts: seq<int>, s: int)
    requires ValidLimits(p) && Clock(ts)
    ensures AdmittedInWindow(p, ts, s) <= p.limit
    ensures var k := After(p, ts);
            if k.count.Absent? then AdmittedInWindow(p, ts, s) == 0
            else
              && (s > WindowOf(p, k) ==> AdmittedInWindow(p, ts, s) == 0)
              && (s == WindowOf(p, k) ==> AdmittedInWindow(p, ts, s) == Min(k.count.value, p.limit))
  {
    if ts != [] {
      var n := |ts| - 1;
      WindowAdmitsLimit(p, ts[..n], s);
      KeysBefore(p, ts, n);
      assert ts[..n + 1] == ts;
      HitEffect(p, After(p, ts[..n]), ts[n]);
    }
  }

  /**
   * Exactly when a hit gets through: no block is in force and its window has
   * room. The report to an admitted caller is its rank in the window.
   */
  lemma AdmittedExactly(p: Limits, ts: seq<int>, i: nat)
    requires ValidLimits(p) && Clock(ts) && i < |ts|
    ensures Admitted(p, ts, i) <==>
              && !IsLive(After(p, ts[..i]).block, ts[i])
              && AdmittedInWindow(p, ts[..i], WindowStart(p, ts, i)) < p.limit
    ensures Admitted(p, ts, i) ==>
              ReplyTo(p, ts, i).totalHits == AdmittedInWindow(p, ts[..i], WindowStart(p, ts, i)) + 1
  {
    KeysBefore(p, ts, i);
    assert ts[..i + 1][..i] == ts[..i];
    HitEffect(p, After(p, ts[..i]), ts[i]);
    WindowAdmitsLimit(p, ts[..i], WindowStart(p, ts, i));
  }

  // ----- what callers are told

  /** Hits counted in a window: those that no block in force turned away at once. */
  function CountedInWindow(p: Limits, ts: seq<int>, s: int): nat {
    if ts == [] then 0
    else
      var n := |ts| - 1;
      var counted := !IsLive(After(p, ts[..n]).block, ts[n]) && WindowStart(p, ts, n) == s;
      CountedInWindow(p, ts[..n], s) + (if counted then 1 else 0)
  }

  /** The counter holds the number of hits counted in its window; later windows have not begun. */
  lemma {:induction false} CounterCounts(p: Limits, ts: seq<int>, s: int)
    requires ValidLimits(p) && Clock(ts)
    ensures var k := After(p, ts);
            if k.count.Absent? then CountedInWindow(p, ts, s) == 0
            else
              && (s > WindowOf(p, k) ==> CountedInWindow(p, ts, s) == 0)
              && (s == WindowOf(p, k) ==> CountedInWindow(p, ts, s) == k.count.value)
  {
    if ts != [] {
      var n := |ts| - 1;
      CounterCounts(p, ts[..n], s);
      KeysBefore(p, ts, n);
      assert ts[..n + 1] == ts;
      HitEffect(p, After(p, ts[..n]), ts[n]);
    }
  }

  /**
   * The number of hits reported, admitted or not: as many as were counted in the
   * window, this one included; and of a hit that a block turns away, as many as
   * its window has counted, or one more than the limit if the window is over.
   */
  lemma TotalHitsExact(p: Limits, ts: seq<int>, i: nat)
    requires ValidLimits(p) && Clock(ts) && i < |ts|
    ensures var k := After(p, ts[..i]);
            ReplyTo(p, ts, i).totalHits
            == if !IsLive(k.block, ts[i]) then CountedInWindow(p, ts[..i], WindowStart(p, ts, i)) + 1
               else if IsLive(k.count, ts[i]) then CountedInWindow(p, ts[..i], WindowOf(p, k))
               else p.limit + 1
  {
    var k := After(p, ts[..i]);
    KeysBefore(p, ts, i);
    assert ts[..i + 1][..i] == ts[..i];
    HitEffect(p, k, ts[i]);
    CounterCounts(p, ts[..i], WindowStart(p, ts, i));
    CounterCounts(p, ts[..i], WindowOf(p, k));
  }

  lemma ExpiryReported(p: Limits, k: Keys, now: int)
    requires ValidLimits(p) && KeysOk(p, k, now)
    ensures var (k', r) := RunIncrement(p, k, now);
            var ms := if IsLive(k.block, now) then Pttl(k.block, now) else WindowOf(p, k') + p.ttl - now;
            r.timeToExpire == CeilSeconds(ms)
  {
  }

  /**
   * The reported time to expire is right to the second: of a counted hit it is
   * the end of its window, and of a hit that a block turns away that of the block.
   */
  lemma TimeToExpireIsHonest(p: Limits, ts: seq<int>, i: nat)
    requires ValidLimits(p) && Clock(ts) && i < |ts|
    ensures var k := After(p, ts[..i]);
            var wait := ReplyTo(p, ts, i).timeToExpire;
            if IsLive(k.block, ts[i])
            then k.block.expiresAt.Some?
                 && ts[i] + (wait - 1) * 1000 < k.block.expiresAt.value <= ts[i] + wait * 1000
            else ts[i] + (wait - 1) * 1000 < WindowStart(p, ts, i) + p.ttl <= ts[i] + wait * 1000
  {
    var k := After(p, ts[..i]);
    KeysBefore(p, ts, i);
    assert ts[..i + 1][..i] == ts[..i];
    CeilSecondsBounds(Pttl(k.block, ts[i]));
    CeilSecondsBounds(WindowStart(p, ts, i) + p.ttl - ts[i]);
    ExpiryReported(p, k, ts[i]);
  }

  // ----- arbitrary intervals

  /** Hits admitted at times in [a, b). */
  function AdmittedIn(p: Limits, ts: seq<int>, a: int, b: int): nat {
    if ts == [] then 0
    else
      var n := |ts| - 1;
      AdmittedIn(p, ts[..n], a, b) + (if Admitted(p, ts, n) && a <= ts[n] < b then 1 else 0)
  }

  lemma MulMonotone(x: int, y: int, z: int)
    requires x <= y && 0 <= z
    ensures z * x <= z * y
  {
  }

  /** How many whole windows fit between `a` and `s`. */
  function WindowsBetween(p: Limits, a: int, s: int): int {
    if p.ttl >= 1 then (s - a) / p.ttl else 0
  }

  lemma QuotientBounds(x: int, t: int, q: int)
    requires t >= 1 && q == x / t
    ensures t * q <= x < t * q + t
  {
  }

  lemma WindowsBetweenGrow(p: Limits, a: int, s: int, s': int)
    requires ValidLimits(p) && s + p.ttl <= s'
    ensures WindowsBetween(p, a, s) + 1 <= WindowsBetween(p, a, s')
  {
    var q, q' := WindowsBetween(p, a, s), WindowsBetween(p, a, s');
    QuotientBounds(s - a, p.ttl, q);
    QuotientBounds(s' - a, p.ttl, q');
    if q' <= q {
      MulMonotone(q', q, p.ttl);
    }
  }

  lemma WindowsBetweenFew(p: Limits, a: int, s: int, intervals: nat)
    requires ValidLimits(p) && s < a + intervals * p.ttl
    ensures WindowsBetween(p, a, s) < intervals
  {
    var q := WindowsBetween(p, a, s);
    QuotientBounds(s - a, p.ttl, q);
    if q >= intervals {
      MulMonotone(intervals, q, p.ttl);
    }
  }

  /**
   * What has been admitted from time `a` on, in terms of the current window: one
   * window that began before `a` counts for all its hits but the first, and each
   * later one for `limit`.
   */
  predicate SoFar(p: Limits, k: Keys, a: int, admitted: int) {
    if k.count.Absent? then admitted == 0
    else
      var s := WindowOf(p, k);
      if s < a then admitted <= Min(k.count.value, p.limit) - 1
      else admitted <= p.limit - 1 + p.limit * WindowsBetween(p, a, s) + Min(k.count.value, p.limit)
  }

  /** The first hit of a new window. */
  lemma NewWindowSoFar(p: Limits, k: Keys, now: int, a: int, admitted: int)
    requires ValidLimits(p) && p.limit >= 1 && KeysOk(p, k, now) && SoFar(p, k, a, admitted)
    requires !IsLive(k.count, now) && now >= a
    ensures admitted + 1 <= p.limit - 1 + p.limit * WindowsBetween(p, a, now) + 1
  {
    QuotientBounds(now - a, p.ttl, WindowsBetween(p, a, now));
    MulMonotone(0, WindowsBetween(p, a, now), p.limit);
    if k.count.Present? && WindowOf(p, k) >= a {
      var q := WindowsBetween(p, a, WindowOf(p, k));
      WindowsBetweenGrow(p, a, WindowOf(p, k), now);
      MulMonotone(q + 1, WindowsBetween(p, a, now), p.limit);
      assert p.limit * (q + 1) == p.limit * q + p.limit;
    }
  }

  lemma SoFarStep(p: Limits, k: Keys, now: int, a: int, admitted: int)
    requires ValidLimits(p) && p.limit >= 1 && KeysOk(p, k, now) && SoFar(p, k, a, admitted)
    requires now < a ==> admitted == 0
    ensures var (k', r) := RunIncrement(p, k, now);
            SoFar(p, k', a, admitted + (if !r.isBlocked && a <= now then 1 else 0))
  {
    HitEffect(p, k, now);
    if !IsLive(k.block, now) && !IsLive(k.count, now) && now >= a {
      NewWindowSoFar(p, k, now, a, admitted);
    }
  }

  lemma {:induction false} NoneYet(p: Limits, ts: seq<int>, a: int, b: int)
    requires Clock(ts) && (ts != [] ==> ts[|ts| - 1] < a)
    ensures AdmittedIn(p, ts, a, b) == 0
  {
    if ts != [] {
      NoneYet(p, ts[..|ts| - 1], a, b);
    }
  }

  lemma {:induction false} RunSoFar(p: Limits, ts: seq<int>, a: int, b: int)
    requires ValidLimits(p) && p.limit >= 1 && Clock(ts) && (ts != [] ==> ts[|ts| - 1] < b)
    ensures SoFar(p, After(p, ts), a, AdmittedIn(p, ts, a, b))
  {
    if ts != [] {
      var n := |ts| - 1;
      RunSoFar(p, ts[..n], a, b);
      if ts[n] < a {
        NoneYet(p, ts[..n], a, b);
      }
      KeysBefore(p, ts, n);
      SoFarStep(p, After(p, ts[..n]), ts[n], a, AdmittedIn(p, ts[..n], a, b));
    }
  }

  lemma SoFarBound(p: Limits, k: Keys, a: int, b: int, intervals: nat, admitted: int)
    requires ValidLimits(p) && p.limit >= 1 && intervals >= 1 && b == a + intervals * p.ttl
    requires SoFar(p, k, a, admitted) && (k.count.Present? ==> WindowOf(p, k) < b)
    ensures admitted <= (intervals + 1) * p.limit - 1
  {
    assert (intervals + 1) * p.limit == p.limit * (intervals - 1) + 2 * p.limit;
    MulMonotone(0, intervals - 1, p.limit);
    if k.count.Present? && WindowOf(p, k) >= a {
      WindowsBetweenFew(p, a, WindowOf(p, k), intervals);
      MulMonotone(WindowsBetween(p, a, WindowOf(p, k)), intervals - 1, p.limit);
    }
  }

  lemma {:induction false} StartsBefore(p: Limits, ts: seq<int>, b: int)
    requires ValidLimits(p) && Clock(ts) && (ts != [] ==> ts[|ts| - 1] < b)
    ensures After(p, ts).count.Present? ==> WindowOf(p, After(p, ts)) < b
  {
    if ts != [] {
      var n := |ts| - 1;
      StartsBefore(p, ts[..n], b);
      KeysBefore(p, ts, n);
      HitEffect(p, After(p, ts[..n]), ts[n]);
    }
  }

  /**
   * The traffic bound: an interval as long as `intervals` windows, wherever it
   * starts, admits fewer than (intervals + 1) * limit hits of one key, and none
   * if the limit is zero.
   */
  lemma {:induction false} IntervalBound(p: Limits, ts: seq<int>, a: int, intervals: nat)
    requires ValidLimits(p) && Clock(ts) && intervals >= 1
    ensures var admitted := AdmittedIn(p, ts, a, a + intervals * p.ttl);
            if p.limit == 0 then admitted == 0 else admitted < (intervals + 1) * p.limit
  {
    var b := a + intervals * p.ttl;
    if ts != [] {
      var n := |ts| - 1;
      if p.limit == 0 {
        IntervalBound(p, ts[..n], a, intervals);
        ReportsConsistent(p, ts, n);
      } else if ts[n] >= b {
        IntervalBound(p, ts[..n], a, intervals);
      } else {
        RunSoFar(p, ts, a, b);
        StartsBefore(p, ts, b);
        SoFarBound(p, After(p, ts), a, b, intervals, AdmittedIn(p, ts, a, b));
      }
    } else {
      MulMonotone(0, intervals + 1, p.limit);
      assert p.limit >= 1 ==> (intervals + 1) * p.limit >= 1;
    }
  }

  // ----- the bound is reached

  /** After the hits `ts`, none of them later than `t`, the keys are `k`, and `n` hits were admitted in [a, b). */
  ghost predicate Reaches(p: Limits, ts: seq<int>, t: int, k: Keys, a: int, b: int, n: int) {
    && Clock(ts)
    && (ts != [] ==> ts[|ts| - 1] <= t)
    && After(p, ts) == k
    && AdmittedIn(p, ts, a, b) == n
  }

  lemma AddHit(p: Limits, ts: seq<int>, t: int, k: Keys, a: int, b: int, n: int) returns (ts': seq<int>)
    requires Reaches(p, ts, t, k, a, b, n)
    ensures var (k', r) := RunIncrement(p, k, t);
            Reaches(p, ts', t, k', a, b, n + (if !r.isBlocked && a <= t < b then 1 else 0))
  {
    ts' := ts + [t];
    assert ts'[..|ts|] == ts;
  }

  lemma HitInWindow(p: Limits, v: int, e: int, t: int)
    requires ValidLimits(p) && 1 <= v < p.limit && t < e
    ensures RunIncrement(p, Keys(Present(v, Some(e)), Absent), t).0 == Keys(Present(v + 1, Some(e)), Absent)
    ensures !RunIncrement(p, Keys(Present(v, Some(e)), Absent), t).1.isBlocked
  {
  }

  lemma HitOpensWindow(p: Limits, c: Slot, t: int)
    requires ValidLimits(p) && p.limit >= 1 && !IsLive(c, t)
    ensures RunIncrement(p, Keys(c, Absent), t).0 == Keys(Present(1, Some(t + p.ttl)), Absent)
    ensures !RunIncrement(p, Keys(c, Absent), t).1.isBlocked
  {
  }

  /** The window is filled up with hits at time `t`. */
  lemma {:induction false} FillWindow(p: Limits, ts: seq<int>, v: int, e: int, t: int, a: int, b: int, n: int)
    returns (ts': seq<int>)
    requires ValidLimits(p) && 1 <= v <= p.limit && t < e
    requires Reaches(p, ts, t, Keys(Present(v, Some(e)), Absent), a, b, n)
    ensures Reaches(p, ts', t, Keys(Present(p.limit, Some(e)), Absent), a, b,
                    n + (if a <= t < b then p.limit - v else 0))
    decreases p.limit - v
  {
    ts' := ts;
    if v < p.limit {
      HitInWindow(p, v, e, t);
      ts' := AddHit(p, ts, t, Keys(Present(v, Some(e)), Absent), a, b, n);
      ts' := FillWindow(p, ts', v + 1, e, t, a, b, n + (if a <= t < b then 1 else 0));
    }
  }

  /** A new window, filled at once. */
  lemma FullWindow(p: Limits, ts: seq<int>, c: Slot, t: int, a: int, b: int, n: int) returns (ts': seq<int>)
    requires ValidLimits(p) && p.limit >= 1 && !IsLive(c, t) && a <= t < b
    requires Reaches(p, ts, t, Keys(c, Absent), a, b, n)
    ensures Reaches(p, ts', t, Keys(Present(p.limit, Some(t + p.ttl)), Absent), a, b, n + p.limit)
  {
    HitOpensWindow(p, c, t);
    ts' := AddHit(p, ts, t, Keys(c, Absent), a, b, n);
    ts' := FillWindow(p, ts', 1, t + p.ttl, t, a, b, n + 1);
  }

  /** One hit before `a`, and the rest of its window's hits at `a`. */
  lemma LateWindow(p: Limits, b: int) returns (ts: seq<int>)
    requires ValidLimits(p) && p.limit >= 1 && p.ttl >= 2 && p.ttl - 1 < b
    ensures Reaches(p, ts, p.ttl - 1, Keys(Present(p.limit, Some(p.ttl)), Absent), p.ttl - 1, b, p.limit - 1)
  {
    var a := p.ttl - 1;
    HitOpensWindow(p, Absent, 0);
    ts := AddHit(p, [], 0, Keys(Absent, Absent), a, b, 0);
    ts := FillWindow(p, ts, 1, p.ttl, a, a, b, 0);
  }

  /** After it, full windows that begin one ttl apart. */
  lemma {:induction false} Burst(p: Limits, windows: nat, end: int, b: int) returns (ts: seq<int>)
    requires ValidLimits(p) && p.limit >= 1 && p.ttl >= 2 && p.ttl - 1 < b
    requires end == windows * p.ttl && end < b
    ensures Reaches(p, ts, end + p.ttl - 1, Keys(Present(p.limit, Some(end + p.ttl)), Absent),
                    p.ttl - 1, b, (windows + 1) * p.limit - 1)
    decreases windows
  {
    if windows == 0 {
      ts := LateWindow(p, b);
    } else {
      assert end - p.ttl == (windows - 1) * p.ttl;
      MulMonotone(1, windows, p.ttl);
      ts := Burst(p, windows - 1, end - p.ttl, b);
      ts := FullWindow(p, ts, Present(p.limit, Some(end)), end, p.ttl - 1, b, windows * p.limit - 1);
      assert (windows + 1) * p.limit == windows * p.limit + p.limit;
    }
  }

  /** The bound is exact: whenever a window is longer than the clock's tick, some traffic reaches it. */
  lemma IntervalBoundIsReached(p: Limits, intervals: nat) returns (ts: seq<int>, a: int)
    requires ValidLimits(p) && p.limit >= 1 && p.ttl >= 2 && intervals >= 1
    ensures Clock(ts) && AdmittedIn(p, ts, a, a + intervals * p.ttl) == (intervals + 1) * p.limit - 1
  {
    a := p.ttl - 1;
    ts := Burst(p, intervals, intervals * p.ttl, a + intervals * p.ttl);
  }
}
