/** Gradual backoff: does a further failure ever let an IP back in sooner?

    A lock is compared with what IsAllowed would answer at a later instant q: once
    q is blocked, no event before q may unblock it.  Among failures, questions and
    successes that holds of every run exactly when the longest lock is no longer than
    the 24 hours for which violations are remembered plus the plain lockout that
    follows their being forgotten.  The middleware's attempts set a lock without
    backoff; with them among the events it holds exactly when no lock is ever longer
    than the plain one. */
module LockMonotonicity {
  import opened Basics
  import opened Redis
  import opened EnhancedRateLimiter

  datatype Op = Ask | Fail | Success | Attempt

  datatype Event = Event(ip: string, op: Op, at: int)

  function StepView(c: Config, v: IpView, op: Op, at: int): IpView {
    match op
    case Ask => AskView(v, at).0
    case Fail => FailView(c, v, at).0
    case Success => SuccessView(v)
    case Attempt => AttemptView(c, v, at)
  }

  function Step(c: Config, s: Store<int>, e: Event): Store<int> {
    PutView(c, s, e.ip, StepView(c, View(c, s, e.ip), e.op, e.at))
  }

  function After(c: Config, s: Store<int>, es: seq<Event>): Store<int> {
    if es == [] then s else Step(c, After(c, s, es[..|es| - 1]), es[|es| - 1])
  }

  ghost predicate InOrder(es: seq<Event>) {
    forall i, j :: 0 <= i < j < |es| ==> es[i].at <= es[j].at
  }

  /** IsAllowed would refuse this IP at q. */
  predicate Blocks(v: IpView, q: int) {
    AskView(v, q).1.Some?
  }

  ghost predicate Uses(es: seq<Event>, ops: set<Op>) {
    forall i :: 0 <= i < |es| ==> es[i].op in ops
  }

  /** In every run of these operations from an empty Redis: an instant blocked after k
      events is still blocked after all the events up to it. */
  ghost predicate NeverShortened(c: Config, ops: set<Op>) {
    forall es: seq<Event>, k: nat, ip: string, q: int ::
      k <= |es| && InOrder(es) && Uses(es, ops) && (forall i :: 0 <= i < |es| ==> es[i].at <= q) &&
      Blocks(View(c, After(c, map[], es[..k]), ip), q)
      ==> Blocks(View(c, After(c, map[], es), ip), q)
  }

  /** What the operator can check in the configuration. */
  predicate Safe(c: Config) {
    || !Backoff(c)
    || c.backoffMultiplier == 1
    || (c.maxBackoffMultiplier > 0 && c.lockoutDuration * (c.maxBackoffMultiplier - 1) <= DAY)
  }

  /** Backoff never makes a lock longer than the plain lockout. */
  predicate Plain(c: Config) {
    !Backoff(c) || c.backoffMultiplier == 1 || c.maxBackoffMultiplier == 1
  }

  // ---------- the multiplier ----------

  lemma {:induction false} PowOfOne(e: nat)
    ensures Pow(1, e) == 1
  {
    if e > 0 { PowOfOne(e - 1); }
  }

  lemma Doubles(b: int, x: int)
    requires b >= 2 && x >= 0
    ensures b * x >= 2 * x
  {
  }

  lemma {:induction false} PowExceeds(b: int, e: nat)
    requires b >= 2
    ensures Pow(b, e) >= e + 1
  {
    if e > 0 {
      PowExceeds(b, e - 1);
      Doubles(b, Pow(b, e - 1));
    }
  }

  lemma MultiplierGrows(b: int, cap: int, v: int)
    requires b >= 1 && v >= 1
    ensures 1 <= Multiplier(b, cap, v) <= Multiplier(b, cap, v + 1)
    ensures cap > 0 ==> Multiplier(b, cap, v) <= cap
    ensures b == 1 ==> Multiplier(b, cap, v) == 1
  {
    PowPositive(b, v - 1);
    PowMonotone(b, v - 1, v);
    if b == 1 { PowOfOne(v - 1); }
  }

  lemma Times(l: int, a: int, b: int)
    requires l > 0 && a <= b
    ensures l * a <= l * b
  {
  }

  /** The lock length for the v-th violation. */
  function LockLength(c: Config, v: int): int {
    c.lockoutDuration * Multiplier(c.backoffMultiplier, c.maxBackoffMultiplier, v)
  }

  lemma {:induction false} LockLengthGrows(c: Config, v: int)
    requires ValidConfig(c) && Backoff(c) && v >= 1
    ensures c.lockoutDuration <= LockLength(c, v) <= LockLength(c, v + 1)
    ensures Safe(c) ==> LockLength(c, v) <= DAY + c.lockoutDuration
    ensures LockLength(c, 1) == c.lockoutDuration
  {
    var l, b, cap := c.lockoutDuration, c.backoffMultiplier, c.maxBackoffMultiplier;
    MultiplierGrows(b, cap, v);
    var m := Multiplier(b, cap, v);
    Times(l, 1, m);
    Times(l, m, Multiplier(b, cap, v + 1));
    if Safe(c) && b != 1 {
      Times(l, m - 1, cap - 1);
      assert l * m == l * (m - 1) + l;
    }
    assert Pow(b, 0) == 1;
  }

  // ---------- safe configurations ----------

  /** What a run has left behind by `now`: a lock set at the last remembered
      violation, of the length that violation called for. */
  ghost predicate Consistent(c: Config, v: IpView, now: int) {
    && (v.locked.Some? ==>
          v.locked.value.cell.Data? &&
          var u := v.locked.value.cell.v;
          && v.locked.value.expiry == Some(u)
          && (!Backoff(c) ==> u <= now + c.lockoutDuration)
          && (Backoff(c) ==> v.violations.Some?))
    && (Backoff(c) && v.violations.Some? ==>
          v.violations.value.cell.Integer? && v.violations.value.expiry.Some? &&
          var n, x := v.violations.value.cell.n, v.violations.value.expiry.value;
          && n >= 1 && x - DAY <= now
          && (v.locked.Some? ==> v.locked.value.cell.v <= x - DAY + LockLength(c, n)))
  }

  lemma StepConsistent(c: Config, v: IpView, op: Op, before: int, at: int)
    requires ValidConfig(c) && Consistent(c, v, before) && before <= at && !op.Attempt?
    ensures Consistent(c, StepView(c, v, op, at), at)
  {
    if op.Fail? && Backoff(c) {
      var n := if Live(v.violations, at) then v.violations.value.cell.n + 1 else 1;
      LockLengthGrows(c, n);
    }
  }

  lemma StepKeepsBlocked(c: Config, v: IpView, op: Op, before: int, at: int, q: int)
    requires ValidConfig(c) && Safe(c) && Consistent(c, v, before) && before <= at <= q
    requires !op.Attempt? && Blocks(v, q)
    ensures Blocks(StepView(c, v, op, at), q)
  {
    if op.Fail? && Backoff(c) {
      var n := v.violations.value.cell.n;
      LockLengthGrows(c, n);
      LockLengthGrows(c, 1);
    }
  }

  lemma StepSeenByIp(c: Config, s: Store<int>, e: Event, ip: string)
    ensures View(c, Step(c, s, e), ip) ==
      if e.ip == ip then StepView(c, View(c, s, ip), e.op, e.at) else View(c, s, ip)
  {
    ViewOfPutView(c, s, e.ip, StepView(c, View(c, s, e.ip), e.op, e.at), ip);
  }

  /** The run as one IP sees it. */
  function AfterView(c: Config, v: IpView, es: seq<Event>, ip: string): IpView {
    if es == [] then v
    else
      var e, v' := es[|es| - 1], AfterView(c, v, es[..|es| - 1], ip);
      if e.ip == ip then StepView(c, v', e.op, e.at) else v'
  }

  lemma {:induction false} AfterSeenByIp(c: Config, s: Store<int>, es: seq<Event>, ip: string)
    ensures View(c, After(c, s, es), ip) == AfterView(c, View(c, s, ip), es, ip)
    decreases |es|
  {
    if es != [] {
      var init := es[..|es| - 1];
      AfterSeenByIp(c, s, init, ip);
      StepSeenByIp(c, After(c, s, init), es[|es| - 1], ip);
    }
  }

  const FAILURES := {Ask, Fail, Success}
  const EVERYTHING := {Ask, Fail, Success, Attempt}

  const UNSEEN := IpView(None, None, None)

  lemma {:induction false} RunConsistent(c: Config, es: seq<Event>, ip: string, now: int)
    requires ValidConfig(c) && InOrder(es) && Uses(es, FAILURES)
    requires forall i :: 0 <= i < |es| ==> es[i].at <= now
    ensures Consistent(c, AfterView(c, UNSEEN, es, ip), now)
    decreases |es|
  {
    if es != [] {
      var e, init := es[|es| - 1], es[..|es| - 1];
      RunConsistent(c, init, ip, e.at);
      if e.ip == ip {
        StepConsistent(c, AfterView(c, UNSEEN, init, ip), e.op, e.at, e.at);
      }
    }
  }

  lemma {:induction false} SafeRun(c: Config, es: seq<Event>, k: nat, ip: string, q: int)
    requires ValidConfig(c) && Safe(c) && InOrder(es) && Uses(es, FAILURES) && k <= |es|
    requires forall i :: 0 <= i < |es| ==> es[i].at <= q
    requires Blocks(AfterView(c, UNSEEN, es[..k], ip), q)
    ensures Blocks(AfterView(c, UNSEEN, es, ip), q)
    decreases |es|
  {
    if k == |es| {
      assert es[..k] == es;
    } else {
      var e, init := es[|es| - 1], es[..|es| - 1];
      assert init[..k] == es[..k];
      SafeRun(c, init, k, ip, q);
      RunConsistent(c, init, ip, e.at);
      if e.ip == ip {
        StepKeepsBlocked(c, AfterView(c, UNSEEN, init, ip), e.op, e.at, e.at, q);
      }
    }
  }

  // ---------- configurations whose locks are plain ----------

  lemma PlainViolate(c: Config, x: Slot<int>, now: int)
    requires ValidConfig(c) && Plain(c)
    ensures Violate(c, x, now).1 == c.lockoutDuration
  {
    if Backoff(c) {
      var r := IncrSlot(x, now).1;
      var v := if r.Some? then r.value else 0;
      var e := if v > 1 then v - 1 else 0;
      PowPositive(c.backoffMultiplier, e);
      if c.backoffMultiplier == 1 { PowOfOne(e); }
    }
  }

  /** No lock is longer than a plain one set now. */
  ghost predicate PlainLock(c: Config, v: IpView, now: int) {
    v.locked.Some? ==>
      v.locked.value.cell.Data? &&
      var u := v.locked.value.cell.v;
      v.locked.value.expiry == Some(u) && u <= now + c.lockoutDuration
  }

  lemma PlainStep(c: Config, v: IpView, op: Op, before: int, at: int, q: int)
    requires ValidConfig(c) && Plain(c) && PlainLock(c, v, before) && before <= at <= q
    ensures PlainLock(c, StepView(c, v, op, at), at)
    ensures Blocks(v, q) ==> Blocks(StepView(c, v, op, at), q)
  {
    if op.Fail? { PlainViolate(c, v.violations, at); }
  }

  lemma {:induction false} PlainRun(c: Config, es: seq<Event>, ip: string, now: int)
    requires ValidConfig(c) && Plain(c) && InOrder(es)
    requires forall i :: 0 <= i < |es| ==> es[i].at <= now
    ensures PlainLock(c, AfterView(c, UNSEEN, es, ip), now)
    decreases |es|
  {
    if es != [] {
      var e, init := es[|es| - 1], es[..|es| - 1];
      PlainRun(c, init, ip, e.at);
      if e.ip == ip {
        PlainStep(c, AfterView(c, UNSEEN, init, ip), e.op, e.at, e.at, e.at);
      }
    }
  }

  lemma {:induction false} PlainRunKeepsBlocked(c: Config, es: seq<Event>, k: nat, ip: string, q: int)
    requires ValidConfig(c) && Plain(c) && InOrder(es) && k <= |es|
    requires forall i :: 0 <= i < |es| ==> es[i].at <= q
    requires Blocks(AfterView(c, UNSEEN, es[..k], ip), q)
    ensures Blocks(AfterView(c, UNSEEN, es, ip), q)
    decreases |es|
  {
    if k == |es| {
      assert es[..k] == es;
    } else {
      var e, init := es[|es| - 1], es[..|es| - 1];
      assert init[..k] == es[..k];
      PlainRunKeepsBlocked(c, init, k, ip, q);
      PlainRun(c, init, ip, e.at);
      if e.ip == ip {
        PlainStep(c, AfterView(c, UNSEEN, init, ip), e.op, e.at, e.at, q);
      }
    }
  }

  // ---------- volleys ----------

  function Repeats(ip: string, op: Op, at: int, n: nat): seq<Event> {
    seq(n, i => Event(ip, op, at))
  }

  function OpRun(c: Config, v: IpView, op: Op, at: int, n: nat): IpView {
    if n == 0 then v else StepView(c, OpRun(c, v, op, at, n - 1), op, at)
  }

  lemma AfterOneMore(c: Config, v: IpView, es: seq<Event>, e: Event)
    ensures AfterView(c, v, es + [e], e.ip) == StepView(c, AfterView(c, v, es, e.ip), e.op, e.at)
  {
    assert (es + [e])[..|es|] == es;
  }

  lemma {:induction false} AfterRepeats(c: Config, v: IpView, es: seq<Event>, ip: string, op: Op, at: int, n: nat)
    ensures AfterView(c, v, es + Repeats(ip, op, at, n), ip) == OpRun(c, AfterView(c, v, es, ip), op, at, n)
    decreases n
  {
    var all := es + Repeats(ip, op, at, n);
    if n == 0 {
      assert all == es;
    } else {
      AfterRepeats(c, v, es, ip, op, at, n - 1);
      AfterOneMore(c, v, es + Repeats(ip, op, at, n - 1), Event(ip, op, at));
      assert all == es + Repeats(ip, op, at, n - 1) + [Event(ip, op, at)];
    }
  }

  lemma {:induction false} OpRunSplit(c: Config, v: IpView, op: Op, at: int, m: nat, n: nat)
    ensures OpRun(c, v, op, at, m + n) == OpRun(c, OpRun(c, v, op, at, m), op, at, n)
    decreases n
  {
    if n > 0 { OpRunSplit(c, v, op, at, m, n - 1); }
  }

  /** The number of failures, or attempts, in quick succession that lock. */
  function Volley(c: Config): nat {
    if c.maxAttempts > 1 then c.maxAttempts else 1
  }

  lemma {:induction false} WithinVolley(c: Config, v: IpView, op: Op, at: int, n: nat)
    requires ValidConfig(c) && (op.Fail? || op.Attempt?) && !Live(v.attempts, at) && 1 <= n < Volley(c)
    ensures OpRun(c, v, op, at, n) == v.(attempts := Some(Entry(Integer(n), Some(at + c.resetWindow))))
    decreases n
  {
    if n > 1 {
      WithinVolley(c, v, op, at, n - 1);
    } else {
      assert OpRun(c, v, op, at, 0) == v;
    }
  }

  lemma VolleyLocks(c: Config, v: IpView, at: int)
    requires ValidConfig(c) && !Live(v.attempts, at)
    ensures var (violations, d) := Violate(c, v.violations, at);
      OpRun(c, v, Fail, at, Volley(c)) == IpView(None, SetSlot(Data(at + d), d, at), violations)
  {
    var n := Volley(c);
    if n > 1 {
      WithinVolley(c, v, Fail, at, n - 1);
    } else {
      assert OpRun(c, v, Fail, at, 0) == v;
    }
  }

  lemma AttemptsLock(c: Config, v: IpView, at: int)
    requires ValidConfig(c) && !Live(v.attempts, at)
    ensures OpRun(c, v, Attempt, at, Volley(c)).locked ==
      SetSlot(Data(at + c.lockoutDuration), c.lockoutDuration, at)
  {
    var n := Volley(c);
    if n > 1 {
      WithinVolley(c, v, Attempt, at, n - 1);
    } else {
      assert OpRun(c, v, Attempt, at, 0) == v;
    }
  }

  /** The failures in k volleys. */
  function Total(c: Config, k: nat): nat {
    if k == 0 then 0 else Total(c, k - 1) + Volley(c)
  }

  /** No failures pending and k violations remembered until 24 hours after 0. */
  ghost predicate Violations(v: IpView, k: nat) {
    v.attempts == None &&
    v.violations == (if k == 0 then None else Some(Entry(Integer(k), Some(DAY))))
  }

  lemma OneMoreVolley(c: Config, v: IpView, k: nat)
    requires ValidConfig(c) && Backoff(c) && Violations(v, k)
    ensures Violations(OpRun(c, v, Fail, 0, Volley(c)), k + 1)
  {
    VolleyLocks(c, v, 0);
  }

  lemma LongVolley(c: Config, v: IpView, k: nat, long: int)
    requires ValidConfig(c) && Backoff(c) && Violations(v, k) && long == LockLength(c, k + 1)
    ensures OpRun(c, v, Fail, 0, Volley(c)).locked == SetSlot(Data(long), long, 0)
  {
    VolleyLocks(c, v, 0);
  }

  lemma AddVolley(c: Config, m: nat, k: nat)
    requires ValidConfig(c) && Backoff(c) && Violations(OpRun(c, UNSEEN, Fail, 0, m), k)
    ensures Violations(OpRun(c, UNSEEN, Fail, 0, m + Volley(c)), k + 1)
  {
    OpRunSplit(c, UNSEEN, Fail, 0, m, Volley(c));
    OneMoreVolley(c, OpRun(c, UNSEEN, Fail, 0, m), k);
  }

  lemma {:induction false} Volleys(c: Config, k: nat)
    requires ValidConfig(c) && Backoff(c)
    ensures Violations(OpRun(c, UNSEEN, Fail, 0, Total(c, k)), k)
    decreases k
  {
    if k == 0 {
      assert OpRun(c, UNSEEN, Fail, 0, 0) == UNSEEN;
    } else {
      Volleys(c, k - 1);
      AddVolley(c, Total(c, k - 1), k - 1);
    }
  }

  /** The last of k + 1 volleys sets the lock. */
  lemma LastOfVolleys(c: Config, k: nat, long: int)
    requires ValidConfig(c) && Backoff(c) && long == LockLength(c, k + 1)
    ensures OpRun(c, UNSEEN, Fail, 0, Total(c, k + 1)).locked == SetSlot(Data(long), long, 0)
  {
    Volleys(c, k);
    OpRunSplit(c, UNSEEN, Fail, 0, Total(c, k), Volley(c));
    LongVolley(c, OpRun(c, UNSEEN, Fail, 0, Total(c, k)), k, long);
  }

  /** After 24 hours the violations are forgotten. */
  lemma PlainVolley(c: Config, v: IpView, k: nat)
    requires ValidConfig(c) && Backoff(c) && Violations(v, k)
    ensures OpRun(c, v, Fail, DAY, Volley(c)).locked == SetSlot(Data(DAY + c.lockoutDuration), c.lockoutDuration, DAY)
  {
    VolleyLocks(c, v, DAY);
    LockLengthGrows(c, 1);
  }

  // ---------- how long a lock is long enough ----------

  lemma {:induction false} PowGrowsWithBase(a: int, b: int, e: nat)
    requires 1 <= a <= b
    ensures 1 <= Pow(a, e) <= Pow(b, e)
  {
    if e > 0 {
      PowGrowsWithBase(a, b, e - 1);
      PowPositive(a, e);
      Times(a, Pow(a, e - 1), Pow(b, e - 1));
      Times(Pow(b, e - 1), a, b);
    }
  }

  lemma {:induction false} PowSum(b: int, m: nat, n: nat)
    ensures Pow(b, m + n) == Pow(b, m) * Pow(b, n)
    decreases m
  {
    if m > 0 {
      PowSum(b, m - 1, n);
      assert b * (Pow(b, m - 1) * Pow(b, n)) == (b * Pow(b, m - 1)) * Pow(b, n);
    }
  }

  lemma FortySeven()
    ensures Pow(2, 47) > DAY + 1
  {
    PowSum(2, 20, 27);
    PowSum(2, 20, 7);
  }

  lemma MultiplierStep(b: int, cap: int, v: int)
    requires b >= 1 && v >= 1
    ensures Multiplier(b, cap, v + 1) <= b * Multiplier(b, cap, v)
  {
    var p := Pow(b, v - 1);
    PowPositive(b, v - 1);
    assert Pow(b, v) == b * p;
    if cap > 0 && p > cap {
      Times(cap, 1, b);
    }
  }

  lemma TimesThree(l: int, b: int, m: int, bound: int)
    requires l > 0 && b > 0 && l * m <= bound
    ensures l * (b * m) <= b * bound
  {
    Times(b, l * m, bound);
    assert l * (b * m) == b * (l * m);
  }

  /** One violation more multiplies the lock by the multiplier at most. */
  lemma LockLengthStep(c: Config, v: int, bound: int)
    requires ValidConfig(c) && Backoff(c) && v >= 1 && LockLength(c, v) <= bound
    ensures LockLength(c, v + 1) <= c.backoffMultiplier * bound
  {
    var l, b, cap := c.lockoutDuration, c.backoffMultiplier, c.maxBackoffMultiplier;
    var m := Multiplier(b, cap, v);
    MultiplierStep(b, cap, v);
    Times(l, Multiplier(b, cap, v + 1), b * m);
    TimesThree(l, b, m, bound);
  }

  lemma ManyTimes(l: int, p: int)
    requires l > 0 && p > DAY + 1
    ensures l * p > DAY + l
  {
    Times(l, DAY + 2, p);
    Times(DAY, 1, l);
    assert l * (DAY + 2) == l * DAY + 2 * l;
  }

  /** Forty-eight violations are always enough. */
  lemma FortyEightEnough(c: Config)
    requires ValidConfig(c) && !Safe(c)
    ensures LockLength(c, 48) > DAY + c.lockoutDuration
  {
    var l, b, cap := c.lockoutDuration, c.backoffMultiplier, c.maxBackoffMultiplier;
    var p := Pow(b, 47);
    if cap > 0 && p > cap {
      assert l * cap == l * (cap - 1) + l;
    } else {
      FortySeven();
      PowGrowsWithBase(2, b, 47);
      ManyTimes(l, p);
    }
  }

  /** The least number of earlier violations that makes the lock long enough. */
  lemma {:induction false} LeastEnough(c: Config, i: nat, hi: nat) returns (k: nat)
    requires i <= hi && LockLength(c, hi + 1) > DAY + c.lockoutDuration
    requires forall v :: 1 <= v <= i ==> LockLength(c, v) <= DAY + c.lockoutDuration
    ensures k <= hi && LockLength(c, k + 1) > DAY + c.lockoutDuration
    ensures forall v :: 1 <= v <= k ==> LockLength(c, v) <= DAY + c.lockoutDuration
    decreases hi - i
  {
    if LockLength(c, i + 1) > DAY + c.lockoutDuration {
      k := i;
    } else {
      k := LeastEnough(c, i + 1, hi);
    }
  }

  lemma LongEnough(c: Config) returns (k: nat)
    requires ValidConfig(c) && !Safe(c)
    ensures DAY + c.lockoutDuration < LockLength(c, k + 1) <= c.backoffMultiplier * (DAY + c.lockoutDuration)
    ensures k <= 47 && forall v :: 1 <= v <= k ==> LockLength(c, v) <= DAY + c.lockoutDuration
  {
    FortyEightEnough(c);
    k := LeastEnough(c, 0, 47);
    LockLengthGrows(c, 1);
    LockLengthStep(c, k, DAY + c.lockoutDuration);
  }

  /** A few volleys make a lock that outlasts a day and a plain lockout. */
  lemma LongLock(c: Config) returns (k: nat, long: int)
    requires ValidConfig(c) && !Safe(c)
    ensures DAY + c.lockoutDuration < long <= c.backoffMultiplier * (DAY + c.lockoutDuration) && k <= 47
    ensures OpRun(c, UNSEEN, Fail, 0, Total(c, k + 1)).locked == SetSlot(Data(long), long, 0)
  {
    k := LongEnough(c);
    long := LockLength(c, k + 1);
    LastOfVolleys(c, k, long);
  }

  lemma BlocksUntil(v: IpView, until: int, ttl: int, at: int, q: int)
    requires v.locked == SetSlot(Data(until), ttl, at) && until == at + ttl && ttl > 0
    ensures Blocks(v, q) <==> q < until
  {
  }

  /** Failures at once, then a volley of `op` at a later instant. */
  function FailsThen(c: Config, ip: string, k: nat, op: Op, at: int): seq<Event> {
    Repeats(ip, Fail, 0, k) + Repeats(ip, op, at, Volley(c))
  }

  lemma FailsThenInOrder(c: Config, ip: string, k: nat, op: Op, at: int)
    requires at >= 0
    ensures var es := FailsThen(c, ip, k, op, at);
      && |es| == k + Volley(c) && es[..k] == Repeats(ip, Fail, 0, k) && InOrder(es)
      && Uses(es, {Fail, op}) && forall i :: 0 <= i < |es| ==> es[i].at <= at
  {
  }

  lemma ViewsOfFailsThen(c: Config, ip: string, k: nat, op: Op, at: int)
    ensures AfterView(c, UNSEEN, Repeats(ip, Fail, 0, k), ip) == OpRun(c, UNSEEN, Fail, 0, k)
    ensures AfterView(c, UNSEEN, FailsThen(c, ip, k, op, at), ip) ==
      OpRun(c, OpRun(c, UNSEEN, Fail, 0, k), op, at, Volley(c))
  {
    var first := Repeats(ip, Fail, 0, k);
    assert [] + first == first;
    AfterRepeats(c, UNSEEN, [], ip, Fail, 0, k);
    AfterRepeats(c, UNSEEN, first, ip, op, at, Volley(c));
  }

  lemma ViewsOfUnsafeRun(c: Config, ip: string, n: nat, long: int)
    requires ValidConfig(c) && Backoff(c)
    requires OpRun(c, UNSEEN, Fail, 0, Total(c, n + 1)).locked == SetSlot(Data(long), long, 0)
    requires long > DAY + c.lockoutDuration
    ensures
      var k, q := Total(c, n + 1), DAY + c.lockoutDuration;
      && Blocks(AfterView(c, UNSEEN, Repeats(ip, Fail, 0, k), ip), q)
      && !Blocks(AfterView(c, UNSEEN, FailsThen(c, ip, k, Fail, DAY), ip), q)
  {
    var k := Total(c, n + 1);
    ViewsOfFailsThen(c, ip, k, Fail, DAY);
    Volleys(c, n + 1);
    PlainVolley(c, OpRun(c, UNSEEN, Fail, 0, k), n + 1);
    var q := DAY + c.lockoutDuration;
    BlocksUntil(OpRun(c, UNSEEN, Fail, 0, k), long, long, 0, q);
    BlocksUntil(OpRun(c, OpRun(c, UNSEEN, Fail, 0, k), Fail, DAY, Volley(c)), q, c.lockoutDuration, DAY, q);
  }

  lemma {:induction false} TotalIs(c: Config, k: nat)
    ensures Total(c, k) == k * Volley(c)
  {
    if k > 0 { TotalIs(c, k - 1); }
  }

  lemma TotalAtMost(c: Config, k: nat, m: nat)
    requires k <= m
    ensures Total(c, k) + Volley(c) <= (m + 1) * Volley(c)
  {
    TotalIs(c, k);
    Times(Volley(c), k + 1, m + 1);
  }

  /** The run: enough violations at once for a long lock, silence for 24 hours, and
      one more volley, which replaces that lock by a plain one.  Forty-nine volleys
      are enough. */
  lemma {:induction false} UnsafeRun(c: Config, ip: string) returns (es: seq<Event>, k: nat, q: int)
    requires ValidConfig(c) && !Safe(c)
    ensures k <= |es| <= 49 * Volley(c) && InOrder(es) && Uses(es, {Fail})
    ensures forall i :: 0 <= i < |es| ==> es[i].at <= q
    ensures Blocks(AfterView(c, UNSEEN, es[..k], ip), q)
    ensures !Blocks(AfterView(c, UNSEEN, es, ip), q)
  {
    var n, long := LongLock(c);
    k, q := Total(c, n + 1), DAY + c.lockoutDuration;
    es := FailsThen(c, ip, k, Fail, DAY);
    TotalAtMost(c, n + 1, 48);
    FailsThenInOrder(c, ip, k, Fail, DAY);
    ViewsOfUnsafeRun(c, ip, n, long);
  }

  lemma SecondLockIsLonger(c: Config) returns (long: int)
    requires ValidConfig(c) && !Plain(c)
    ensures long == LockLength(c, 2) && long >= 2 * c.lockoutDuration
  {
    var l, b, cap := c.lockoutDuration, c.backoffMultiplier, c.maxBackoffMultiplier;
    assert Pow(b, 1) == b * Pow(b, 0) == b;
    long := LockLength(c, 2);
    Times(l, 2, Multiplier(b, cap, 2));
  }

  lemma ViewsOfAttemptsShorten(c: Config, ip: string, long: int)
    requires ValidConfig(c) && Backoff(c) && long >= 2 * c.lockoutDuration
    requires OpRun(c, UNSEEN, Fail, 0, Total(c, 2)).locked == SetSlot(Data(long), long, 0)
    ensures
      var k, q := Total(c, 2), c.lockoutDuration;
      && Blocks(AfterView(c, UNSEEN, Repeats(ip, Fail, 0, k), ip), q)
      && !Blocks(AfterView(c, UNSEEN, FailsThen(c, ip, k, Attempt, 0), ip), q)
  {
    var k, q := Total(c, 2), c.lockoutDuration;
    var v := OpRun(c, UNSEEN, Fail, 0, k);
    ViewsOfFailsThen(c, ip, k, Attempt, 0);
    Volleys(c, 2);
    AttemptsLock(c, v, 0);
    BlocksUntil(v, long, long, 0, q);
    BlocksUntil(OpRun(c, v, Attempt, 0, Volley(c)), q, q, 0, q);
  }

  /** The run: two volleys of failures make a lock longer than the plain one, and a
      volley of attempts at the same instant replaces it by a plain one. */
  lemma {:induction false} AttemptsShorten(c: Config, ip: string) returns (es: seq<Event>, k: nat, q: int)
    requires ValidConfig(c) && !Plain(c)
    ensures k <= |es| == 3 * Volley(c) && InOrder(es) && Uses(es, {Fail, Attempt})
    ensures forall i :: 0 <= i < |es| ==> es[i].at <= q
    ensures Blocks(AfterView(c, UNSEEN, es[..k], ip), q)
    ensures !Blocks(AfterView(c, UNSEEN, es, ip), q)
  {
    var long := SecondLockIsLonger(c);
    k, q := Total(c, 2), c.lockoutDuration;
    es := FailsThen(c, ip, k, Attempt, 0);
    TotalIs(c, 2);
    FailsThenInOrder(c, ip, k, Attempt, 0);
    LastOfVolleys(c, 1, long);
    ViewsOfAttemptsShorten(c, ip, long);
  }

  // ---------- the theorems ----------

  lemma SeenByIp(c: Config)
    ensures forall es: seq<Event>, ip: string :: View(c, After(c, map[], es), ip) == AfterView(c, UNSEEN, es, ip)
  {
    forall es: seq<Event>, ip: string
      ensures View(c, After(c, map[], es), ip) == AfterView(c, UNSEEN, es, ip)
    {
      AfterSeenByIp(c, map[], es, ip);
    }
  }

  /** Failures, questions and successes never shorten a lock exactly for the safe
      configurations. */
  lemma {:induction false} LocksNeverShortened(c: Config)
    requires ValidConfig(c)
    ensures NeverShortened(c, FAILURES) <==> Safe(c)
  {
    SeenByIp(c);
    if Safe(c) {
      forall es: seq<Event>, k: nat, ip: string, q: int
        | k <= |es| && InOrder(es) && Uses(es, FAILURES) && (forall i :: 0 <= i < |es| ==> es[i].at <= q) &&
          Blocks(View(c, After(c, map[], es[..k]), ip), q)
        ensures Blocks(View(c, After(c, map[], es), ip), q)
      {
        SafeRun(c, es, k, ip, q);
      }
    } else {
      var es, k, q := UnsafeRun(c, "");
      assert Uses(es, FAILURES);
      assert Blocks(View(c, After(c, map[], es[..k]), ""), q);
    }
  }

  /** With the middleware's attempts among the events, exactly when no lock is longer
      than the plain one. */
  lemma {:induction false} LocksNeverShortenedByAnything(c: Config)
    requires ValidConfig(c)
    ensures NeverShortened(c, EVERYTHING) <==> Plain(c)
  {
    SeenByIp(c);
    if Plain(c) {
      forall es: seq<Event>, k: nat, ip: string, q: int
        | k <= |es| && InOrder(es) && Uses(es, EVERYTHING) && (forall i :: 0 <= i < |es| ==> es[i].at <= q) &&
          Blocks(View(c, After(c, map[], es[..k]), ip), q)
        ensures Blocks(View(c, After(c, map[], es), ip), q)
      {
        PlainRunKeepsBlocked(c, es, k, ip, q);
      }
    } else {
      var es, k, q := AttemptsShorten(c, "");
      assert Uses(es, EVERYTHING);
      assert Blocks(View(c, After(c, map[], es[..k]), ""), q);
    }
  }
}
