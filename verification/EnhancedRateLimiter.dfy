/** The Redis-backed rate limiter and its HTTP middleware.  Times and durations are
    nanoseconds.  The three Redis keys of one IP are summarised by an `IpView`, and
    every operation is specified by the function of the view that it performs. */
module EnhancedRateLimiter {
  import opened Basics
  import opened Redis

  datatype Config = Config(
    maxAttempts: int,
    lockoutDuration: int,
    resetWindow: int,
    keyPrefix: string,
    enableBackoff: bool,
    backoffMultiplier: int,
    maxBackoffMultiplier: int)

  function WithDefaults(c: Config): Config {
    c.(maxAttempts := if c.maxAttempts == 0 then 5 else c.maxAttempts,
       lockoutDuration := if c.lockoutDuration == 0 then 15 * MINUTE else c.lockoutDuration,
       resetWindow := if c.resetWindow == 0 then 15 * MINUTE else c.resetWindow,
       keyPrefix := if c.keyPrefix == "" then "ratelimit" else c.keyPrefix)
  }

  /** The durations a deployment uses are positive. */
  ghost predicate ValidConfig(c: Config) {
    c.lockoutDuration > 0 && c.resetWindow > 0
  }

  // ---------- the keys of one IP ----------

  function AttemptsKey(c: Config, ip: string): string { c.keyPrefix + ":attempts:" + ip }
  function LockedKey(c: Config, ip: string): string { c.keyPrefix + ":locked:" + ip }
  function ViolationsKey(c: Config, ip: string): string { c.keyPrefix + ":violations:" + ip }

  lemma KeysDistinct(c: Config, a: string, b: string)
    ensures AttemptsKey(c, a) != LockedKey(c, b)
    ensures AttemptsKey(c, a) != ViolationsKey(c, b)
    ensures LockedKey(c, a) != ViolationsKey(c, b)
    ensures AttemptsKey(c, a) == AttemptsKey(c, b) ==> a == b
    ensures LockedKey(c, a) == LockedKey(c, b) ==> a == b
    ensures ViolationsKey(c, a) == ViolationsKey(c, b) ==> a == b
  {
    var p := |c.keyPrefix|;
    assert AttemptsKey(c, a)[p + 1] == 'a';
    assert LockedKey(c, a)[p + 1] == 'l' && LockedKey(c, b)[p + 1] == 'l';
    assert ViolationsKey(c, b)[p + 1] == 'v';
    assert a == AttemptsKey(c, a)[p + |":attempts:"|..] && b == AttemptsKey(c, b)[p + |":attempts:"|..];
    assert a == LockedKey(c, a)[p + |":locked:"|..] && b == LockedKey(c, b)[p + |":locked:"|..];
    assert a == ViolationsKey(c, a)[p + |":violations:"|..] && b == ViolationsKey(c, b)[p + |":violations:"|..];
  }

  /** All the limiter keeps about one IP in Redis. */
  datatype IpView = IpView(attempts: Slot<int>, locked: Slot<int>, violations: Slot<int>)

  function View(c: Config, s: Store<int>, ip: string): IpView {
    IpView(Lookup(s, AttemptsKey(c, ip)), Lookup(s, LockedKey(c, ip)), Lookup(s, ViolationsKey(c, ip)))
  }

  function PutView(c: Config, s: Store<int>, ip: string, v: IpView): Store<int> {
    Write(Write(Write(s, AttemptsKey(c, ip), v.attempts), LockedKey(c, ip), v.locked),
          ViolationsKey(c, ip), v.violations)
  }

  /** Writing one IP's keys is read back, and no other IP notices. */
  lemma ViewOfPutView(c: Config, s: Store<int>, ip: string, v: IpView, other: string)
    ensures View(c, PutView(c, s, ip, v), ip) == v
    ensures other != ip ==> View(c, PutView(c, s, ip, v), other) == View(c, s, other)
  {
    KeysDistinct(c, ip, ip);
    KeysDistinct(c, ip, other);
    KeysDistinct(c, other, ip);
  }

  lemma PutSameView(c: Config, s: Store<int>, ip: string)
    ensures PutView(c, s, ip, View(c, s, ip)) == s
  {
  }

  /** The order of the writes to different keys does not matter. */
  lemma WritesMakeView(c: Config, s: Store<int>, ip: string, counter: Slot<int>, v: IpView)
    ensures
      var counted := Write(s, AttemptsKey(c, ip), counter);
      var violated := Write(counted, ViolationsKey(c, ip), v.violations);
      PutView(c, s, ip, v) == Write(Write(violated, LockedKey(c, ip), v.locked), AttemptsKey(c, ip), v.attempts)
  {
    KeysDistinct(c, ip, ip);
  }

  lemma CountMakesView(c: Config, s: Store<int>, ip: string, counter: Slot<int>, locked: Slot<int>)
    ensures
      var v, counted := View(c, s, ip), Write(s, AttemptsKey(c, ip), counter);
      && PutView(c, s, ip, v.(attempts := counter)) == counted
      && PutView(c, s, ip, v.(attempts := counter, locked := locked)) == Write(counted, LockedKey(c, ip), locked)
  {
    KeysDistinct(c, ip, ip);
  }

  // ---------- what each operation does to a view ----------

  /** IsAllowed: refused while the stored instant is in the future; a stored instant
      that has passed is deleted; a value that is not an instant does not lock. */
  function AskView(v: IpView, now: int): (IpView, Option<int>) {
    match Read(v.locked, now)
    case Some(Data(t)) => if t > now then (v, Some(t)) else (v.(locked := None), None)
    case _ => (v, None)
  }

  /** The counter part shared by RecordFailure and RecordAttempt. */
  function CountSlot(c: Config, x: Slot<int>, now: int): (Slot<int>, int) {
    var (y, r) := IncrSlot(x, now);
    match r
    case None => (SetSlot(Integer(1), c.resetWindow, now), 1)
    case Some(n) => (if n == 1 then ExpireSlot(y, c.resetWindow, now) else y, n)
  }

  function AttemptView(c: Config, v: IpView, now: int): IpView {
    var (counter, n) := CountSlot(c, v.attempts, now);
    if n >= c.maxAttempts
    then v.(attempts := counter, locked := SetSlot(Data(now + c.lockoutDuration), c.lockoutDuration, now))
    else v.(attempts := counter)
  }

  function Pow(b: int, e: nat): int {
    if e == 0 then 1 else b * Pow(b, e - 1)
  }

  /** The multiplier the documentation promises for the v-th violation: B to the
      power v-1, capped when there is a cap. */
  function Multiplier(b: int, cap: int, v: int): int {
    var p := Pow(b, if v > 1 then v - 1 else 0);
    if cap > 0 && p > cap then cap else p
  }

  predicate Backoff(c: Config) {
    c.enableBackoff && c.backoffMultiplier > 0
  }

  /** The violation counter after one more violation, and how long that locks. */
  function Violate(c: Config, x: Slot<int>, now: int): (Slot<int>, int) {
    if !Backoff(c) then (x, c.lockoutDuration)
    else
      var (y, r) := IncrSlot(x, now);
      var v := if r.Some? then r.value else 0;
      (ExpireSlot(y, DAY, now), c.lockoutDuration * Multiplier(c.backoffMultiplier, c.maxBackoffMultiplier, v))
  }

  function FailView(c: Config, v: IpView, now: int): (IpView, int) {
    var (counter, n) := CountSlot(c, v.attempts, now);
    if n >= c.maxAttempts then
      var (violations, d) := Violate(c, v.violations, now);
      (IpView(None, SetSlot(Data(now + d), d, now), violations), 0)
    else
      (v.(attempts := counter), c.maxAttempts - n)
  }

  function SuccessView(v: IpView): IpView {
    v.(attempts := None)
  }

  // ---------- the limiter ----------

  lemma {:induction false} PowPositive(b: int, e: nat)
    requires b >= 1
    ensures Pow(b, e) >= 1
  {
    if e > 0 {
      PowPositive(b, e - 1);
      assert b * Pow(b, e - 1) >= Pow(b, e - 1);
    }
  }

  lemma {:induction false} PowMonotone(b: int, i: nat, j: nat)
    requires b >= 1 && i <= j
    ensures Pow(b, i) <= Pow(b, j)
    decreases j
  {
    if i < j {
      PowMonotone(b, i, j - 1);
      PowPositive(b, j - 1);
      assert b * Pow(b, j - 1) >= Pow(b, j - 1);
    }
  }

  /** int(d.Seconds()) of a duration that is positive. */
  function RetryAfter(remaining: int): int {
    remaining / SECOND
  }

  class EnhancedRedisRateLimiter {
    const redis: RedisClient<int>
    const config: Config
    var whitelist: set<string>
    var totalBlocked: int
    var totalAllowed: int
    var activeLockouts: int
    var lastBlocked: Option<int>
    var lockoutTimings: map<string, int>

    constructor (redis: RedisClient<int>, config: Config)
      ensures this.redis == redis && this.config == WithDefaults(config)
      ensures whitelist == {} && lockoutTimings == map[]
      ensures totalBlocked == totalAllowed == activeLockouts == 0 && lastBlocked == None
    {
      this.redis, this.config := redis, WithDefaults(config);
      whitelist, lockoutTimings := {}, map[];
      totalBlocked, totalAllowed, activeLockouts, lastBlocked := 0, 0, 0, None;
    }

    function Ip(ip: string): IpView
      reads redis
    {
      View(config, redis.store, ip)
    }

    method AddToWhitelist(ips: set<string>)
      modifies this
      ensures whitelist == old(whitelist) + ips
      ensures unchanged(this`totalBlocked, this`totalAllowed, this`activeLockouts, this`lastBlocked)
      ensures unchanged(this`lockoutTimings)
    {
      whitelist := whitelist + ips;
    }

    method RemoveFromWhitelist(ips: set<string>)
      modifies this
      ensures whitelist == old(whitelist) - ips
      ensures unchanged(this`totalBlocked, this`totalAllowed, this`activeLockouts, this`lastBlocked)
      ensures unchanged(this`lockoutTimings)
    {
      whitelist := whitelist - ips;
    }

    method IsAllowed(ip: string, now: int) returns (allowed: bool, remaining: int)
      modifies this, redis
      ensures whitelist == old(whitelist) && activeLockouts == old(activeLockouts)
      ensures ip in whitelist ==>
        allowed && remaining == 0 && redis.store == old(redis.store) &&
        unchanged(this`totalAllowed, this`totalBlocked, this`lastBlocked, this`lockoutTimings)
      ensures ip !in whitelist ==>
        var (v, lock) := AskView(old(Ip(ip)), now);
        && redis.store == PutView(config, old(redis.store), ip, v)
        && allowed == lock.None?
        && remaining == (if lock.Some? then lock.value - now else 0)
        && totalBlocked == old(totalBlocked) + (if lock.Some? then 1 else 0)
        && totalAllowed == old(totalAllowed) + (if lock.Some? then 0 else 1)
        && lastBlocked == (if lock.Some? then Some(now) else old(lastBlocked))
        && lockoutTimings == (if lock.Some? then old(lockoutTimings)[ip := lock.value] else old(lockoutTimings))
    {
      if ip in whitelist {
        return true, 0;
      }
      KeysDistinct(config, ip, ip);
      PutSameView(config, redis.store, ip);
      var stored := redis.Get(LockedKey(config, ip), now);
      if stored.Some? && stored.value.Data? {
        var lockedUntil := stored.value.v;
        if lockedUntil > now {
          totalBlocked, lastBlocked := totalBlocked + 1, Some(now);
          lockoutTimings := lockoutTimings[ip := lockedUntil];
          return false, lockedUntil - now;
        }
        redis.Delete(LockedKey(config, ip));
      }
      totalAllowed := totalAllowed + 1;
      return true, 0;
    }

    method CountAttempt(ip: string, now: int) returns (attempts: int)
      modifies redis
      ensures var (counter, n) := CountSlot(config, old(Ip(ip)).attempts, now);
              redis.store == Write(old(redis.store), AttemptsKey(config, ip), counter) && attempts == n
    {
      var key := AttemptsKey(config, ip);
      var r := redis.Incr(key, now);
      if r.None? {
        attempts := 1;
        redis.Set(key, Integer(1), config.resetWindow, now);
      } else {
        attempts := r.value;
        if attempts == 1 {
          redis.Expire(key, config.resetWindow, now);
        }
      }
    }

    /** The backoff loop of RecordFailure. */
    method BackoffMultiplier(violationCount: int) returns (multiplier: int)
      requires config.backoffMultiplier > 0
      ensures multiplier == Multiplier(config.backoffMultiplier, config.maxBackoffMultiplier, violationCount)
    {
      var b, cap := config.backoffMultiplier, config.maxBackoffMultiplier;
      multiplier := 1;
      var i := 0;
      while i < violationCount - 1
        invariant 0 <= i && (i <= violationCount - 1 || i == 0)
        invariant multiplier == Pow(b, i)
        invariant cap > 0 ==> multiplier <= cap
      {
        multiplier := multiplier * b;
        if cap > 0 && multiplier > cap {
          assert multiplier == Pow(b, i + 1);
          PowMonotone(b, i + 1, violationCount - 1);
          multiplier := cap;
          break;
        }
        i := i + 1;
      }
    }

    /** The part of RecordFailure that counts a violation and works out the lock. */
    method RecordViolation(ip: string, now: int) returns (lockoutDuration: int)
      modifies redis
      ensures (Ip(ip).violations, lockoutDuration) == Violate(config, old(Ip(ip)).violations, now)
      ensures redis.store == Write(old(redis.store), ViolationsKey(config, ip), Ip(ip).violations)
    {
      lockoutDuration := config.lockoutDuration;
      if config.enableBackoff && config.backoffMultiplier > 0 {
        var r := redis.Incr(ViolationsKey(config, ip), now);
        redis.Expire(ViolationsKey(config, ip), DAY, now);
        var multiplier := BackoffMultiplier(if r.Some? then r.value else 0);
        lockoutDuration := config.lockoutDuration * multiplier;
      }
    }

    method RecordFailure(ip: string, now: int) returns (remaining: int)
      modifies this, redis
      ensures unchanged(this`whitelist, this`totalBlocked, this`totalAllowed, this`lastBlocked)
      ensures var (v, r) := FailView(config, old(Ip(ip)), now);
              redis.store == PutView(config, old(redis.store), ip, v) && remaining == r
      ensures if CountSlot(config, old(Ip(ip)).attempts, now).1 >= config.maxAttempts
              then activeLockouts == old(activeLockouts) + 1 &&
                   lockoutTimings == old(lockoutTimings)[ip := now + Violate(config, old(Ip(ip)).violations, now).1]
              else unchanged(this`activeLockouts, this`lockoutTimings)
    {
      KeysDistinct(config, ip, ip);
      ghost var s, before := redis.store, Ip(ip);
      ghost var counter := CountSlot(config, before.attempts, now).0;
      CountMakesView(config, s, ip, counter, None);
      var attempts := CountAttempt(ip, now);
      assert Ip(ip) == before.(attempts := counter);
      if attempts >= config.maxAttempts {
        var lockoutDuration := RecordViolation(ip, now);
        WritesMakeView(config, s, ip, counter, FailView(config, before, now).0);
        var lockedUntil := now + lockoutDuration;
        redis.Set(LockedKey(config, ip), Data(lockedUntil), lockoutDuration, now);
        redis.Delete(AttemptsKey(config, ip));
        activeLockouts := activeLockouts + 1;
        lockoutTimings := lockoutTimings[ip := lockedUntil];
        return 0;
      }
      return config.maxAttempts - attempts;
    }

    method RecordAttempt(ip: string, now: int)
      modifies this, redis
      ensures whitelist == old(whitelist)
      ensures unchanged(this`totalBlocked, this`totalAllowed, this`lastBlocked)
      ensures redis.store == PutView(config, old(redis.store), ip, AttemptView(config, old(Ip(ip)), now))
      ensures var n := CountSlot(config, old(Ip(ip)).attempts, now).1;
        if n >= config.maxAttempts
        then activeLockouts == old(activeLockouts) + 1 &&
             lockoutTimings == old(lockoutTimings)[ip := now + config.lockoutDuration]
        else unchanged(this`activeLockouts, this`lockoutTimings)
    {
      CountMakesView(config, redis.store, ip, CountSlot(config, Ip(ip).attempts, now).0,
                     SetSlot(Data(now + config.lockoutDuration), config.lockoutDuration, now));
      var attempts := CountAttempt(ip, now);
      if attempts >= config.maxAttempts {
        var lockedUntil := now + config.lockoutDuration;
        redis.Set(LockedKey(config, ip), Data(lockedUntil), config.lockoutDuration, now);
        activeLockouts := activeLockouts + 1;
        lockoutTimings := lockoutTimings[ip := lockedUntil];
      }
    }

    method RecordSuccess(ip: string)
      modifies this, redis
      ensures unchanged(this`whitelist, this`totalBlocked, this`totalAllowed, this`activeLockouts, this`lastBlocked)
      ensures redis.store == PutView(config, old(redis.store), ip, SuccessView(old(Ip(ip))))
      ensures lockoutTimings == old(lockoutTimings) - {ip}
    {
      KeysDistinct(config, ip, ip);
      redis.Delete(AttemptsKey(config, ip));
      lockoutTimings := lockoutTimings - {ip};
    }

    /** The middleware in front of a handler: a refused request stops here, with the
        whole seconds that remain in Retry-After (section 10.2.3 of RFC 9110); an
        admitted one is counted before the handler runs. */
    method RateLimitMiddleware(ip: string, now: int) returns (admitted: bool, retryAfter: int)
      modifies this, redis
      ensures whitelist == old(whitelist)
      ensures (redis.store, admitted) == Serve(config, whitelist, old(redis.store), Request(ip, now))
      ensures !admitted ==> retryAfter == RetryAfter(AskView(old(Ip(ip)), now).1.value - now)
    {
      retryAfter := 0;
      ghost var s := redis.store;
      var remaining;
      admitted, remaining := IsAllowed(ip, now);
      if !admitted {
        retryAfter := RetryAfter(remaining);
        return;
      }
      if ip !in whitelist {
        var v := AskView(View(config, s, ip), now).0;
        ViewOfPutView(config, s, ip, v, ip);
      }
      RecordAttempt(ip, now);
    }
  }

  // ---------- the middleware as a function of the store ----------

  datatype Request = Request(ip: string, at: int)

  function Serve(c: Config, whitelist: set<string>, s: Store<int>, r: Request): (Store<int>, bool) {
    var v := View(c, s, r.ip);
    if r.ip in whitelist then (PutView(c, s, r.ip, AttemptView(c, v, r.at)), true)
    else
      var (v', lock) := AskView(v, r.at);
      if lock.Some? then (PutView(c, s, r.ip, v'), false)
      else (PutView(c, PutView(c, s, r.ip, v'), r.ip, AttemptView(c, v', r.at)), true)
  }
}
