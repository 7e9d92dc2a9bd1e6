/** What the answers of the Redis rate limiter mean to the one who gets them: the time
    that remains of a lock, the Retry-After header, and the attempts that are left. */
module LimiterAnswers {
  import opened Basics
  import opened Redis
  import opened EnhancedRateLimiter
  import opened LockMonotonicity

  // ---------- what a refusal says ----------

  /** A lock is stored with its end, and expires then. */
  ghost predicate EndsAsStored(v: IpView) {
    v.locked.Some? ==> v.locked.value.cell.Data? && v.locked.value.expiry == Some(v.locked.value.cell.v)
  }

  lemma StepEndsAsStored(c: Config, v: IpView, op: Op, at: int)
    requires ValidConfig(c) && EndsAsStored(v)
    ensures EndsAsStored(StepView(c, v, op, at))
  {
    if op.Fail? && Backoff(c) {
      ViolatePositive(c, v.violations, at);
    }
  }

  lemma ViolatePositive(c: Config, x: Slot<int>, now: int)
    requires ValidConfig(c) && Backoff(c)
    ensures Violate(c, x, now).1 >= c.lockoutDuration
  {
    var r := IncrSlot(x, now).1;
    var v := if r.Some? then r.value else 0;
    var m := Multiplier(c.backoffMultiplier, c.maxBackoffMultiplier, v);
    PowPositive(c.backoffMultiplier, if v > 1 then v - 1 else 0);
    Times(c.lockoutDuration, 1, m);
  }

  lemma {:induction false} RunEndsAsStored(c: Config, es: seq<Event>, ip: string)
    requires ValidConfig(c)
    ensures EndsAsStored(AfterView(c, UNSEEN, es, ip))
    decreases |es|
  {
    if es != [] {
      var e, init := es[|es| - 1], es[..|es| - 1];
      RunEndsAsStored(c, init, ip);
      StepEndsAsStored(c, AfterView(c, UNSEEN, init, ip), e.op, e.at);
    }
  }

  /** After any run: a refusal reports a positive remaining time, and asked again later,
      with nothing in between, the IP is refused exactly until that time has passed. */
  lemma {:induction false} RefusalTells(c: Config, es: seq<Event>, ip: string, now: int, q: int)
    requires ValidConfig(c) && now <= q
    ensures
      var (v, lock) := AskView(View(c, After(c, map[], es), ip), now);
      lock.Some? ==>
        var remaining := lock.value - now;
        && remaining > 0
        && (Blocks(v, q) <==> q < now + remaining)
        && (Blocks(v, q) ==> AskView(v, q).1.value - q == remaining - (q - now))
  {
    AfterSeenByIp(c, map[], es, ip);
    RunEndsAsStored(c, es, ip);
  }

  /** The header is cut to whole seconds: a client that waits for just as long is
      admitted exactly if nothing was cut off, and one that waits a second more always. */
  lemma {:induction false} RetryAfterTells(c: Config, es: seq<Event>, ip: string, now: int)
    requires ValidConfig(c)
    ensures
      var (v, lock) := AskView(View(c, After(c, map[], es), ip), now);
      lock.Some? ==>
        var remaining := lock.value - now;
        var wait := RetryAfter(remaining) * SECOND;
        && (!Blocks(v, now + wait) <==> remaining % SECOND == 0)
        && !Blocks(v, now + wait + SECOND)
  {
    var lock := AskView(View(c, After(c, map[], es), ip), now).1;
    if lock.Some? {
      var remaining := lock.value - now;
      RefusalTells(c, es, ip, now, now);
      RefusalTells(c, es, ip, now, now + RetryAfter(remaining) * SECOND);
      RefusalTells(c, es, ip, now, now + RetryAfter(remaining) * SECOND + SECOND);
    }
  }

  // ---------- what the attempts left mean ----------

  lemma {:induction false} CountsOn(c: Config, v: IpView, at: int, n: int, j: nat)
    requires ValidConfig(c) && n >= 1 && n + j < c.maxAttempts
    requires Live(v.attempts, at) && v.attempts.value.cell == Integer(n)
    ensures
      var v' := OpRun(c, v, Fail, at, j);
      && v' == v.(attempts := v'.attempts)
      && Live(v'.attempts, at) && v'.attempts.value.cell == Integer(n + j)
    decreases j
  {
    if j > 0 {
      CountsOn(c, v, at, n, j - 1);
    }
  }

  lemma AfterUnlocked(c: Config, v: IpView, at: int)
    requires ValidConfig(c) && FailView(c, v, at).1 > 0
    ensures
      var (v', left) := FailView(c, v, at);
      && v' == v.(attempts := v'.attempts)
      && Live(v'.attempts, at) && v'.attempts.value.cell == Integer(c.maxAttempts - left)
  {
  }

  /** RecordFailure's answer: with `left` attempts left, fewer further failures at once do
      not touch the lock, and the last of them sets it. */
  lemma {:induction false} AttemptsLeftTell(c: Config, v: IpView, at: int, j: nat)
    requires ValidConfig(c) && (v.attempts.Some? && v.attempts.value.cell.Integer? ==> v.attempts.value.cell.n >= 1)
    ensures
      var (v', left) := FailView(c, v, at);
      && (j < left ==> OpRun(c, v', Fail, at, j).locked == v.locked)
      && (left > 0 ==>
            var d := Violate(c, v.violations, at).1;
            OpRun(c, v', Fail, at, left).locked == SetSlot(Data(at + d), d, at))
      && (left <= 0 ==>
            var d := Violate(c, v.violations, at).1;
            v'.locked == SetSlot(Data(at + d), d, at))
  {
    var (v', left) := FailView(c, v, at);
    if left > 0 {
      AfterUnlocked(c, v, at);
      var n := c.maxAttempts - left;
      if j < left {
        CountsOn(c, v', at, n, j);
      }
      CountsOn(c, v', at, n, left - 1);
      assert OpRun(c, v', Fail, at, left) == FailView(c, OpRun(c, v', Fail, at, left - 1), at).0;
    }
  }

  /** After a success the count begins anew: fewer failures at once than a volley do not
      touch the lock, and the last of a volley sets it. */
  lemma {:induction false} SuccessForgets(c: Config, v: IpView, at: int, j: nat)
    requires ValidConfig(c)
    ensures
      var v' := StepView(c, v, Success, at);
      && v'.locked == v.locked && v'.violations == v.violations
      && (j < Volley(c) ==> OpRun(c, v', Fail, at, j).locked == v.locked)
      && var d := Violate(c, v.violations, at).1;
         OpRun(c, v', Fail, at, Volley(c)).locked == SetSlot(Data(at + d), d, at)
  {
    var v' := StepView(c, v, Success, at);
    VolleyLocks(c, v', at);
    if 1 <= j < Volley(c) {
      WithinVolley(c, v', Fail, at, j);
    }
  }

  /** The store after n requests of one IP at one instant. */
  function ServeRun(c: Config, whitelist: set<string>, s: Store<int>, ip: string, at: int, n: nat): Store<int> {
    if n == 0 then s else Serve(c, whitelist, ServeRun(c, whitelist, s, ip, at, n - 1), Request(ip, at)).0
  }

  lemma {:induction false} WhitelistedRun(c: Config, whitelist: set<string>, s: Store<int>, ip: string, at: int, n: nat)
    requires ip in whitelist
    ensures View(c, ServeRun(c, whitelist, s, ip, at, n), ip) == OpRun(c, View(c, s, ip), Attempt, at, n)
  {
    if n > 0 {
      WhitelistedRun(c, whitelist, s, ip, at, n - 1);
      var before := ServeRun(c, whitelist, s, ip, at, n - 1);
      ViewOfPutView(c, before, ip, AttemptView(c, View(c, before, ip), at), ip);
    }
  }

  /** A whitelisted IP is always admitted, and counted all the same: after a volley it
      would be refused, were it taken off the list. */
  lemma {:induction false} WhitelistedIsCounted(c: Config, whitelist: set<string>, s: Store<int>, ip: string,
                                                at: int, q: int)
    requires ValidConfig(c) && ip in whitelist && !Live(View(c, s, ip).attempts, at)
    ensures Serve(c, whitelist, s, Request(ip, at)).1
    ensures Blocks(View(c, ServeRun(c, whitelist, s, ip, at, Volley(c)), ip), q) <==> q < at + c.lockoutDuration
  {
    var v := View(c, s, ip);
    WhitelistedRun(c, whitelist, s, ip, at, Volley(c));
    AttemptsLock(c, v, at);
    BlocksUntil(OpRun(c, v, Attempt, at, Volley(c)), at + c.lockoutDuration, c.lockoutDuration, at, q);
  }
}
