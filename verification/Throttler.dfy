/**
 * The rate limiter: a fixed-window counter and a block key in Redis, advanced
 * by a script that Redis runs atomically. Times are milliseconds of the Redis
 * clock; a key is present exactly until its expiry time is reached.
 */
module Throttler {
  import opened Wrappers

  /** A value stored under a key, and when it expires, if it does. */
  datatype Slot = Absent | Present(value: int, expiresAt: Option<int>)

  datatype Limits = Limits(ttl: int, limit: int, blockDuration: int)

  /** What `increment` reports; the times are in seconds. */
  datatype ThrottlerRecord = ThrottlerRecord(totalHits: int, timeToExpire: int, isBlocked: bool, timeToBlockExpire: int)

  datatype Keys = Keys(count: Slot, block: Slot)

  /** Redis accepts only positive expiry times. */
  predicate ValidLimits(p: Limits) {
    p.ttl >= 1 && p.blockDuration >= 1 && p.limit >= 0
  }

  predicate IsLive(s: Slot, now: int) {
    s.Present? && (s.expiresAt.Some? ==> now < s.expiresAt.value)
  }

  // PTTL
  function Pttl(s: Slot, now: int): int {
    if !IsLive(s, now) then -2 else if s.expiresAt.None? then -1 else s.expiresAt.value - now
  }

  // INCR
  function Incr(s: Slot, now: int): Slot {
    if IsLive(s, now) then s.(value := s.value + 1) else Present(1, None)
  }

  // PEXPIRE, for a positive time
  function Pexpire(s: Slot, now: int, ms: int): Slot {
    if IsLive(s, now) then s.(expiresAt := Some(now + ms)) else s
  }

  // math.ceil(ms / 1000)
  function CeilSeconds(ms: int): int {
    (ms + 999) / 1000
  }

  /** The script: the keys it leaves and what it returns. */
  function RunIncrement(p: Limits, k: Keys, now: int): (Keys, ThrottlerRecord) {
    var blockPttl := Pttl(k.block, now);
    if blockPttl > 0 then
      var count := if IsLive(k.count, now) then k.count.value else p.limit + 1;
      (k, ThrottlerRecord(count, CeilSeconds(blockPttl), true, CeilSeconds(blockPttl)))
    else
      var c1 := Incr(k.count, now);
      var c2 := if c1.value == 1 then Pexpire(c1, now, p.ttl) else c1;
      var ttl1 := Pttl(c2, now);
      var c3 := if ttl1 < 0 then Pexpire(c2, now, p.ttl) else c2;
      var countPttl := if ttl1 < 0 then p.ttl else ttl1;
      if c3.value > p.limit then
        (Keys(c3, Present(1, Some(now + p.blockDuration))),
         ThrottlerRecord(c3.value, CeilSeconds(countPttl), true, CeilSeconds(p.blockDuration)))
      else
        (Keys(c3, k.block), ThrottlerRecord(c3.value, CeilSeconds(countPttl), false, 0))
  }

  // ----- sequences of hits

  /** The keys after hits at the given times. */
  function After(p: Limits, ts: seq<int>): Keys {
    if ts == [] then Keys(Absent, Absent)
    else RunIncrement(p, After(p, ts[..|ts| - 1]), ts[|ts| - 1]).0
  }

  function ReplyTo(p: Limits, ts: seq<int>, i: nat): ThrottlerRecord
    requires i < |ts|
  {
    RunIncrement(p, After(p, ts[..i]), ts[i]).1
  }

  /** The clock never runs backwards. */
  predicate Clock(ts: seq<int>) {
    forall i, j :: 0 <= i < j < |ts| ==> ts[i] <= ts[j]
  }

  /** The hits `ts`, none of them later than `now`, leave the keys `k`. */
  ghost predicate LeadTo(p: Limits, ts: seq<int>, now: int, k: Keys) {
    After(p, ts) == k && Clock(ts) && (ts != [] ==> ts[|ts| - 1] <= now)
  }

  /** One run of the script, or two in succession. */
  function RunAgain(p: Limits, k: Keys, now: int, again: bool): (Keys, ThrottlerRecord) {
    if again then RunIncrement(p, RunIncrement(p, k, now).0, now) else RunIncrement(p, k, now)
  }

  function Hits(now: int, again: bool): seq<int> {
    if again then [now, now] else [now]
  }

  lemma OneMoreHit(p: Limits, ts: seq<int>, now: int, k: Keys)
    requires LeadTo(p, ts, now, k)
    ensures var (k', r) := RunIncrement(p, k, now);
            LeadTo(p, ts + [now], now, k') && ReplyTo(p, ts + [now], |ts|) == r
  {
    assert (ts + [now])[..|ts|] == ts;
  }

  /** Running the script continues the sequence of hits, and the reply is the reply to the last of them. */
  lemma HitsContinue(p: Limits, ts: seq<int>, now: int, k: Keys, again: bool)
    requires LeadTo(p, ts, now, k)
    ensures var (k', r) := RunAgain(p, k, now, again);
            var ts' := ts + Hits(now, again);
            LeadTo(p, ts', now, k') && ReplyTo(p, ts', |ts'| - 1) == r
  {
    OneMoreHit(p, ts, now, k);
    if again {
      OneMoreHit(p, ts + [now], now, RunIncrement(p, k, now).0);
      assert ts + [now] + [now] == ts + [now, now];
    }
  }

  // ----- the script and its caller, as they run

  class Redis {
    var now: int
    var db: map<string, Slot>
    var scripts: set<string>

    function At(key: string): Slot
      reads this
    {
      if key in db then db[key] else Absent
    }

    function KeysAt(countKey: string, blockKey: string): Keys
      reads this
    {
      Keys(At(countKey), At(blockKey))
    }

    /** Time passes; what hits have left stays. */
    method Tick(ms: nat)
      modifies this`now
      ensures now == old(now) + ms
      ensures forall p, ts, k :: LeadTo(p, ts, old(now), k) ==> LeadTo(p, ts, now, k)
    {
      now := now + ms;
    }

    /** The Lua script, command by command. */
    method RunScript(countKey: string, blockKey: string, p: Limits) returns (r: ThrottlerRecord)
      requires countKey != blockKey
      modifies this`db
      ensures var (k, reply) := RunIncrement(p, old(Keys(At(countKey), At(blockKey))), now);
              r == reply && At(countKey) == k.count && At(blockKey) == k.block
      ensures forall key :: key != countKey && key != blockKey ==> At(key) == old(At(key))
    {
      var blockPttl := Pttl(At(blockKey), now);
      if blockPttl > 0 {
        var count := if IsLive(At(countKey), now) then At(countKey).value else p.limit + 1;
        return ThrottlerRecord(count, CeilSeconds(blockPttl), true, CeilSeconds(blockPttl));
      }
      db := db[countKey := Incr(At(countKey), now)];
      var count := At(countKey).value;
      if count == 1 {
        db := db[countKey := Pexpire(At(countKey), now, p.ttl)];
      }
      var countPttl := Pttl(At(countKey), now);
      if countPttl < 0 {
        db := db[countKey := Pexpire(At(countKey), now, p.ttl)];
        countPttl := p.ttl;
      }
      if count > p.limit {
        db := db[blockKey := Present(1, Some(now + p.blockDuration))];
        return ThrottlerRecord(count, CeilSeconds(countPttl), true, CeilSeconds(p.blockDuration));
      }
      return ThrottlerRecord(count, CeilSeconds(countPttl), false, 0);
    }

    /**
     * EVALSHA: fails without effect when the script is not loaded; when it is,
     * the script runs, but the reply may get lost on the way.
     */
    method Evalsha(sha: string, countKey: string, blockKey: string, p: Limits, lost: bool)
      returns (r: Option<ThrottlerRecord>)
      requires countKey != blockKey
      modifies this`db
      ensures sha !in scripts ==> r == None && db == old(db)
      ensures sha in scripts ==>
                var (k, reply) := RunIncrement(p, old(Keys(At(countKey), At(blockKey))), now);
                r == (if lost then None else Some(reply)) && At(countKey) == k.count && At(blockKey) == k.block
      ensures forall key :: key != countKey && key != blockKey ==> At(key) == old(At(key))
    {
      if sha !in scripts { return None; }
      var reply := RunScript(countKey, blockKey, p);
      return if lost then None else Some(reply);
    }

    method ScriptLoad(sha: string)
      modifies this`scripts
      ensures scripts == old(scripts) + {sha}
    {
      scripts := scripts + {sha};
    }
  }

  function CountKey(key: string, name: string): string {
    "throttle:" + key + ":" + name + ":count"
  }

  function BlockKey(key: string, name: string): string {
    "throttle:" + key + ":" + name + ":block"
  }

  lemma CountKeysAreNotBlockKeys(a: string, b: string, c: string, d: string)
    ensures CountKey(a, b) != BlockKey(c, d)
  {
    var x, y := CountKey(a, b), BlockKey(c, d);
    assert x[|x| - 1] == 't' && y[|y| - 1] == 'k';
  }

  lemma {:induction false} SameTail(a: string, b: string, t: string)
    ensures a + t == b + t <==> a == b
  {
    if a + t == b + t {
      assert |a| == |b|;
      assert (a + t)[..|a|] == a && (b + t)[..|b|] == b;
    }
  }

  lemma SameHead(h: string, a: string, b: string)
    ensures h + a == h + b <==> a == b
  {
    if h + a == h + b {
      assert (h + a)[|h|..] == a && (h + b)[|h|..] == b;
    }
  }

  lemma OneThrottler(key: string, key': string, name: string)
    ensures CountKey(key, name) == CountKey(key', name) <==> key == key'
  {
    var tail := ":" + name + ":count";
    assert CountKey(key, name) == "throttle:" + key + tail && CountKey(key', name) == "throttle:" + key' + tail;
    SameTail("throttle:" + key, "throttle:" + key', tail);
    SameHead("throttle:", key, key');
  }

  lemma OneKey(key: string, name: string, name': string)
    ensures CountKey(key, name) == CountKey(key, name') <==> name == name'
  {
    var head := "throttle:" + key + ":";
    assert CountKey(key, name) == head + name + ":count" && CountKey(key, name') == head + name' + ":count";
    SameTail(head + name, head + name', ":count");
    SameHead(head, name, name');
  }

  /**
   * Who shares a counter: only callers whose key and throttler name read the same
   * once joined by a colon. So two keys of one throttler do not, nor do two
   * throttlers of one key.
   */
  lemma CountersShared(key: string, name: string, key': string, name': string)
    ensures CountKey(key, name) == CountKey(key', name') <==> key + ":" + name == key' + ":" + name'
    ensures BlockKey(key, name) == BlockKey(key', name') <==> key + ":" + name == key' + ":" + name'
    ensures CountKey(key, name) == CountKey(key', name) <==> key == key'
    ensures CountKey(key, name) == CountKey(key, name') <==> name == name'
  {
    var x, x' := key + ":" + name, key' + ":" + name';
    assert CountKey(key, name) == "throttle:" + x + ":count" && CountKey(key', name') == "throttle:" + x' + ":count";
    assert BlockKey(key, name) == "throttle:" + x + ":block" && BlockKey(key', name') == "throttle:" + x' + ":block";
    SameTail("throttle:" + x, "throttle:" + x', ":count");
    SameTail("throttle:" + x, "throttle:" + x', ":block");
    SameHead("throttle:", x, x');
    OneThrottler(key, key', name);
    OneKey(key, name, name');
  }

  class RedisThrottlerStorage {
    const redis: Redis
    const scriptSha: string
    var scriptShaByName: map<string, string>

    constructor (redis: Redis, scriptSha: string)
      ensures this.redis == redis && this.scriptSha == scriptSha && scriptShaByName == map[]
    {
      this.redis := redis;
      this.scriptSha := scriptSha;
      scriptShaByName := map[];
    }

    /** The hash is known here, and the server has the script. */
    predicate KnowsScript(throttlerName: string)
      reads this, redis
    {
      throttlerName in scriptShaByName && scriptShaByName[throttlerName] in redis.scripts
    }

    /**
     * The script runs once, whether or not the server still has it (it is loaded
     * again after a restart), or twice if the reply to the first run was lost:
     * any error makes the caller try again. It throws if that try fails too.
     */
    method EvalIncrementScript(countKey: string, blockKey: string, p: Limits, throttlerName: string,
                               lost: bool, lostAgain: bool)
      returns (r: Option<ThrottlerRecord>)
      requires countKey != blockKey
      modifies redis, this`scriptShaByName
      ensures var again := old(KnowsScript(throttlerName)) && lost;
              var (k, reply) := RunAgain(p, old(redis.KeysAt(countKey, blockKey)), redis.now, again);
              && redis.KeysAt(countKey, blockKey) == k
              && r == if lostAgain && (again || !old(KnowsScript(throttlerName))) then None else Some(reply)
      ensures forall other :: other != countKey && other != blockKey ==> redis.At(other) == old(redis.At(other))
      ensures redis.now == old(redis.now)
      ensures KnowsScript(throttlerName)
    {
      if throttlerName in scriptShaByName {
        var known := redis.Evalsha(scriptShaByName[throttlerName], countKey, blockKey, p, lost);
        if known.Some? { return known; }
      }
      redis.ScriptLoad(scriptSha);
      scriptShaByName := scriptShaByName[throttlerName := scriptSha];
      r := redis.Evalsha(scriptSha, countKey, blockKey, p, lostAgain);
    }

    /**
     * One call: on the two keys of this throttler the traffic so far is continued
     * by one hit, or by two if the first reply was lost, and the answer is the
     * answer to the last of them. No other key changes.
     */
    method Increment(key: string, throttlerName: string, p: Limits, lost: bool, lostAgain: bool)
      returns (r: Option<ThrottlerRecord>)
      modifies redis, this`scriptShaByName
      ensures var c, b := CountKey(key, throttlerName), BlockKey(key, throttlerName);
              var again := old(KnowsScript(throttlerName)) && lost;
              && (forall ts :: LeadTo(p, ts, redis.now, old(redis.KeysAt(c, b))) ==>
                    var ts' := ts + Hits(redis.now, again);
                    && LeadTo(p, ts', redis.now, redis.KeysAt(c, b))
                    && (r.Some? ==> r.value == ReplyTo(p, ts', |ts'| - 1)))
              && (forall other :: other != c && other != b ==> redis.At(other) == old(redis.At(other)))
              && var (k, reply) := RunAgain(p, old(redis.KeysAt(c, b)), redis.now, again);
                 && redis.KeysAt(c, b) == k
                 && r == if lostAgain && (again || !old(KnowsScript(throttlerName))) then None else Some(reply)
      ensures redis.now == old(redis.now)
      ensures KnowsScript(throttlerName)
    {
      var countKey, blockKey := CountKey(key, throttlerName), BlockKey(key, throttlerName);
      CountKeysAreNotBlockKeys(key, throttlerName, key, throttlerName);
      ghost var k0 := redis.KeysAt(countKey, blockKey);
      ghost var again := KnowsScript(throttlerName) && lost;
      r := EvalIncrementScript(countKey, blockKey, p, throttlerName, lost, lostAgain);
      forall ts | LeadTo(p, ts, redis.now, k0)
        ensures var (k, reply) := RunAgain(p, k0, redis.now, again);
                var ts' := ts + Hits(redis.now, again);
                LeadTo(p, ts', redis.now, k) && ReplyTo(p, ts', |ts'| - 1) == reply
      {
        HitsContinue(p, ts, redis.now, k0, again);
      }
    }
  }
}
