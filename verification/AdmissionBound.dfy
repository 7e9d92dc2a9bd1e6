/** How many requests the rate-limit middleware can let through.

    RecordAttempt keeps the attempts counter after locking, so every request
    admitted once a lock has run out locks again.  Hence one counter, which lives
    for `resetWindow`, admits at most maxAttempts + ceil(resetWindow / lockout) - 1
    requests of its IP, whatever other IPs do in between. */
module AdmissionBound {
  import opened Basics
  import opened Redis
  import opened EnhancedRateLimiter

  /** The number of steps of size b that it takes to reach a: a / b rounded up. */
  function CeilDiv(a: int, b: int): nat
    requires b > 0
    decreases if a > 0 then a else 0
  {
    if a <= 0 then 0 else 1 + CeilDiv(a - b, b)
  }

  function Bound(c: Config): int
    requires c.lockoutDuration > 0
  {
    (if c.maxAttempts > 1 then c.maxAttempts else 1) + CeilDiv(c.resetWindow, c.lockoutDuration) - 1
  }

  // ---------- runs of the middleware ----------

  ghost predicate InOrder(reqs: seq<Request>) {
    forall i, j :: 0 <= i < j < |reqs| ==> reqs[i].at <= reqs[j].at
  }

  function Admitted(c: Config, whitelist: set<string>, s: Store<int>, reqs: seq<Request>, ip: string): nat
    decreases |reqs|
  {
    if reqs == [] then 0
    else
      var (s', ok) := Serve(c, whitelist, s, reqs[0]);
      (if ok && reqs[0].ip == ip then 1 else 0) + Admitted(c, whitelist, s', reqs[1..], ip)
  }

  // ---------- the same run as one IP sees it ----------

  function ServeView(c: Config, v: IpView, at: int): (IpView, bool) {
    var (v', lock) := AskView(v, at);
    if lock.Some? then (v', false) else (AttemptView(c, v', at), true)
  }

  function RunView(c: Config, v: IpView, times: seq<int>): IpView
    decreases |times|
  {
    if times == [] then v else RunView(c, ServeView(c, v, times[0]).0, times[1..])
  }

  function AdmittedView(c: Config, v: IpView, times: seq<int>): nat
    decreases |times|
  {
    if times == [] then 0
    else
      var (v', ok) := ServeView(c, v, times[0]);
      (if ok then 1 else 0) + AdmittedView(c, v', times[1..])
  }

  function TimesOf(reqs: seq<Request>, ip: string): seq<int> {
    if reqs == [] then []
    else (if reqs[0].ip == ip then [reqs[0].at] else []) + TimesOf(reqs[1..], ip)
  }

  lemma ServeSeenByIp(c: Config, whitelist: set<string>, s: Store<int>, r: Request, ip: string)
    requires ip !in whitelist
    ensures
      var (s', ok) := Serve(c, whitelist, s, r);
      if r.ip == ip then (View(c, s', ip), ok) == ServeView(c, View(c, s, ip), r.at)
      else View(c, s', ip) == View(c, s, ip)
  {
    var v := View(c, s, r.ip);
    var v' := AskView(v, r.at).0;
    ViewOfPutView(c, s, r.ip, AttemptView(c, v, r.at), ip);
    ViewOfPutView(c, s, r.ip, v', ip);
    ViewOfPutView(c, PutView(c, s, r.ip, v'), r.ip, AttemptView(c, v', r.at), ip);
  }

  /** Requests of different IPs do not interfere. */
  lemma {:induction false} AdmittedSeenByIp(c: Config, whitelist: set<string>, s: Store<int>, reqs: seq<Request>,
                                            ip: string)
    requires ip !in whitelist
    ensures Admitted(c, whitelist, s, reqs, ip) == AdmittedView(c, View(c, s, ip), TimesOf(reqs, ip))
    decreases |reqs|
  {
    if reqs != [] {
      ServeSeenByIp(c, whitelist, s, reqs[0], ip);
      AdmittedSeenByIp(c, whitelist, Serve(c, whitelist, s, reqs[0]).0, reqs[1..], ip);
      var rest := TimesOf(reqs[1..], ip);
      if reqs[0].ip == ip {
        assert ([reqs[0].at] + rest)[1..] == rest;
      } else {
        assert [] + rest == rest;
      }
    }
  }

  ghost predicate Within(times: seq<int>, lo: int, hi: int) {
    && (forall i :: 0 <= i < |times| ==> lo <= times[i] < hi)
    && (forall i, j :: 0 <= i < j < |times| ==> times[i] <= times[j])
  }

  lemma {:induction false} TimesWithin(reqs: seq<Request>, ip: string, lo: int, hi: int)
    requires InOrder(reqs)
    requires forall i :: 0 <= i < |reqs| && reqs[i].ip == ip ==> lo <= reqs[i].at < hi
    ensures Within(TimesOf(reqs, ip), lo, hi)
  {
    if reqs != [] {
      TimesWithin(reqs[1..], ip, lo, hi);
      if reqs[0].ip == ip {
        TimesWithin(reqs[1..], ip, reqs[0].at, hi);
      }
    }
  }

  // ---------- one counter ----------

  lemma {:induction false} CeilDivMonotone(a: int, a': int, b: int)
    requires b > 0 && a <= a'
    ensures CeilDiv(a, b) <= CeilDiv(a', b)
    decreases if a' > 0 then a' else 0
  {
    if a' > 0 {
      CeilDivMonotone(a - b, a' - b, b);
    }
  }

  /** `CeilDiv` is the quotient rounded up. */
  lemma {:induction false} CeilDivMeaning(a: int, b: int)
    requires b > 0
    ensures var k := CeilDiv(a, b); a <= k * b && (k > 0 ==> (k - 1) * b < a)
    decreases if a > 0 then a else 0
  {
    if a > 0 {
      CeilDivMeaning(a - b, b);
      var k := CeilDiv(a - b, b);
      assert (k + 1) * b == k * b + b;
      if k > 0 {
        assert (k - 1) * b == k * b - b;
      }
    }
  }

  /** The counter stands at n and dies at `expiry`; once n has reached the limit the
      IP is locked until `lock`. */
  ghost predicate Counting(c: Config, v: IpView, n: int, expiry: int, lock: int) {
    && v.attempts == Some(Entry(Integer(n), Some(expiry)))
    && n >= 1
    && (n >= c.maxAttempts ==> v.locked == Some(Entry(Data(lock), Some(lock))))
  }

  /** Admissions still possible before the counter dies. */
  function Remaining(c: Config, n: int, now: int, expiry: int, lock: int): int
    requires c.lockoutDuration > 0
  {
    if n >= c.maxAttempts then CeilDiv(expiry - lock, c.lockoutDuration)
    else c.maxAttempts - n - 1 + CeilDiv(expiry - now, c.lockoutDuration)
  }

  lemma ServeWhileCounting(c: Config, v: IpView, n: int, expiry: int, lock: int, now: int, at: int)
    requires ValidConfig(c) && Counting(c, v, n, expiry, lock)
    requires now <= at < expiry
    ensures
      var (v', ok) := ServeView(c, v, at);
      if ok then
        && Counting(c, v', n + 1, expiry, at + c.lockoutDuration)
        && 1 + Remaining(c, n + 1, at, expiry, at + c.lockoutDuration) <= Remaining(c, n, now, expiry, lock)
      else
        && Counting(c, v', n, expiry, lock)
        && Remaining(c, n, at, expiry, lock) <= Remaining(c, n, now, expiry, lock)
  {
    CeilDivMonotone(expiry - at, expiry - now, c.lockoutDuration);
    if lock <= at {
      CeilDivMonotone(expiry - at, expiry - lock, c.lockoutDuration);
    }
  }

  lemma {:induction false} CounterLife(c: Config, v: IpView, n: int, expiry: int, lock: int, now: int, times: seq<int>)
    requires ValidConfig(c) && Counting(c, v, n, expiry, lock)
    requires Within(times, now, expiry)
    ensures times != [] ==> AdmittedView(c, v, times) <= Remaining(c, n, now, expiry, lock)
    ensures var x := RunView(c, v, times).attempts; x.Some? && x.value.expiry == Some(expiry)
    decreases |times|
  {
    if times != [] {
      var at := times[0];
      ServeWhileCounting(c, v, n, expiry, lock, now, at);
      var (v', ok) := ServeView(c, v, at);
      var n', lock' := if ok then n + 1 else n, if ok then at + c.lockoutDuration else lock;
      assert Within(times[1..], at, expiry);
      CounterLife(c, v', n', expiry, lock', at, times[1..]);
    }
  }

  // ---------- from a dead counter ----------

  /** No live attempts counter: the next admission starts one. */
  ghost predicate Fresh(v: IpView, now: int) {
    !Live(v.attempts, now)
  }

  lemma ServeFresh(c: Config, v: IpView, at: int)
    requires ValidConfig(c) && Fresh(v, at)
    ensures
      var (v', ok) := ServeView(c, v, at);
      if ok then
        && Counting(c, v', 1, at + c.resetWindow, at + c.lockoutDuration)
        && 1 + Remaining(c, 1, at, at + c.resetWindow, at + c.lockoutDuration) == Bound(c)
      else v'.attempts == v.attempts
  {
  }

  /** The whole life of the counter that the admission at `at` starts. */
  lemma OneLife(c: Config, v: IpView, at: int, life: seq<int>)
    requires ValidConfig(c) && Fresh(v, at) && ServeView(c, v, at).1
    requires Within(life, at, at + c.resetWindow)
    ensures var v' := ServeView(c, v, at).0;
      1 + AdmittedView(c, v', life) <= Bound(c) && Fresh(RunView(c, v', life), at + c.resetWindow)
  {
    ServeFresh(c, v, at);
    CounterLife(c, ServeView(c, v, at).0, 1, at + c.resetWindow, at + c.lockoutDuration, at, life);
  }

  lemma Scale(k: int, x: int)
    ensures (k - 1) * x == k * x - x
    ensures k <= 0 && x > 0 ==> k * x <= 0
  {
  }

  /** `k` windows from a dead counter admit at most `k` bounds.  With k = 1 this is
      the life of one counter. */
  lemma {:induction false} WindowsBound(c: Config, v: IpView, times: seq<int>, start: int, k: nat, span: int)
    requires ValidConfig(c) && Fresh(v, start) && span == k * c.resetWindow
    requires Within(times, start, start + span)
    ensures AdmittedView(c, v, times) <= k * Bound(c)
    decreases |times|
  {
    Scale(k, c.resetWindow);
    Scale(k, Bound(c));
    if times != [] {
      var at := times[0];
      var (v', ok) := ServeView(c, v, at);
      ServeFresh(c, v, at);
      if !ok {
        WindowsBound(c, v', times[1..], start, k, span);
      } else {
        var later, v'' := AfterOneLife(c, v, times);
        WindowsBound(c, v'', later, at + c.resetWindow, k - 1, span - c.resetWindow);
      }
    }
  }

  /** The requests beyond the life of the counter that the first one starts. */
  lemma AfterOneLife(c: Config, v: IpView, times: seq<int>) returns (later: seq<int>, v'': IpView)
    requires ValidConfig(c) && times != [] && Within(times, times[0], times[|times| - 1] + 1)
    requires Fresh(v, times[0]) && ServeView(c, v, times[0]).1
    ensures |later| < |times| && Fresh(v'', times[0] + c.resetWindow)
    ensures Within(later, times[0] + c.resetWindow, times[|times| - 1] + 1)
    ensures AdmittedView(c, v, times) <= Bound(c) + AdmittedView(c, v'', later)
  {
    var at, v' := times[0], ServeView(c, v, times[0]).0;
    var i := SplitPoint(times, at + c.resetWindow);
    var life := times[1..i];
    later, v'' := times[i..], RunView(c, v', life);
    OneLife(c, v, at, life);
    assert AdmittedView(c, v, times) == 1 + AdmittedView(c, v', life + later) by {
      assert times[1..] == life + later;
    }
    AdmittedConcat(c, v', life, later);
  }

  lemma SplitPoint(times: seq<int>, limit: int) returns (i: nat)
    requires times != [] && times[0] < limit && Within(times, times[0], times[|times| - 1] + 1)
    ensures 1 <= i <= |times|
    ensures Within(times[1..i], times[0], limit)
    ensures forall j :: i <= j < |times| ==> times[j] >= limit
  {
    i := 1;
    while i < |times| && times[i] < limit
      invariant 1 <= i <= |times|
      invariant forall j :: 0 <= j < i ==> times[j] < limit
    {
      i := i + 1;
    }
  }

  lemma {:induction false} AdmittedConcat(c: Config, v: IpView, a: seq<int>, b: seq<int>)
    ensures AdmittedView(c, v, a + b) == AdmittedView(c, v, a) + AdmittedView(c, RunView(c, v, a), b)
    ensures RunView(c, v, a + b) == RunView(c, RunView(c, v, a), b)
    decreases |a|
  {
    if a == [] {
      assert a + b == b;
    } else {
      assert (a + b)[1..] == a[1..] + b;
      AdmittedConcat(c, ServeView(c, v, a[0]).0, a[1..], b);
    }
  }

  // ---------- the theorems ----------

  /** While one attempts counter of `ip` lives -- from the request that finds none to
      `resetWindow` later -- at most `Bound` requests of `ip` are admitted. */
  lemma {:induction false} AdmissionBound(c: Config, whitelist: set<string>, s: Store<int>, reqs: seq<Request>,
                                          ip: string, start: int)
    requires ValidConfig(c) && ip !in whitelist && InOrder(reqs)
    requires Fresh(View(c, s, ip), start)
    requires forall i :: 0 <= i < |reqs| && reqs[i].ip == ip ==> start <= reqs[i].at < start + c.resetWindow
    ensures Admitted(c, whitelist, s, reqs, ip) <= Bound(c)
  {
    AdmittedSeenByIp(c, whitelist, s, reqs, ip);
    TimesWithin(reqs, ip, start, start + c.resetWindow);
    WindowsBound(c, View(c, s, ip), TimesOf(reqs, ip), start, 1, c.resetWindow);
    assert 1 * Bound(c) == Bound(c);
  }

  /** The configured limit is the bound exactly when a lock outlives the counter. */
  lemma BoundIsLimit(c: Config)
    requires ValidConfig(c) && c.maxAttempts >= 1
    ensures Bound(c) == c.maxAttempts <==> c.lockoutDuration >= c.resetWindow
  {
    var w, l := c.resetWindow, c.lockoutDuration;
    assert CeilDiv(w, l) == 1 + CeilDiv(w - l, l);
  }

  /** The long-run rate: any `k` reset windows after a dead counter admit at most
      `k` bounds. */
  lemma {:induction false} AdmissionRate(c: Config, whitelist: set<string>, s: Store<int>, reqs: seq<Request>,
                                         ip: string, start: int, k: nat)
    requires ValidConfig(c) && ip !in whitelist && InOrder(reqs)
    requires Fresh(View(c, s, ip), start)
    requires forall i :: 0 <= i < |reqs| && reqs[i].ip == ip ==> start <= reqs[i].at < start + k * c.resetWindow
    ensures Admitted(c, whitelist, s, reqs, ip) <= k * Bound(c)
  {
    AdmittedSeenByIp(c, whitelist, s, reqs, ip);
    TimesWithin(reqs, ip, start, start + k * c.resetWindow);
    WindowsBound(c, View(c, s, ip), TimesOf(reqs, ip), start, k, k * c.resetWindow);
  }

  // ---------- the bound is attained ----------

  /** One request each time the lock runs out, while the counter lives. */
  function Relocks(at: int, expiry: int, lockout: int): seq<int>
    requires lockout > 0
    decreases if expiry > at then expiry - at else 0
  {
    if at >= expiry then [] else [at] + Relocks(at + lockout, expiry, lockout)
  }

  function Burst(at: int, n: nat): seq<int> {
    if n == 0 then [] else [at] + Burst(at, n - 1)
  }

  lemma {:induction false} RelocksAllAdmitted(c: Config, v: IpView, n: int, expiry: int, lock: int)
    requires ValidConfig(c) && Counting(c, v, n, expiry, lock) && n >= c.maxAttempts
    ensures var times := Relocks(lock, expiry, c.lockoutDuration);
      Within(times, lock, expiry) && AdmittedView(c, v, times) == CeilDiv(expiry - lock, c.lockoutDuration)
    decreases if expiry > lock then expiry - lock else 0
  {
    if lock < expiry {
      var rest := Relocks(lock + c.lockoutDuration, expiry, c.lockoutDuration);
      assert ([lock] + rest)[1..] == rest;
      RelocksAllAdmitted(c, ServeView(c, v, lock).0, n + 1, expiry, lock + c.lockoutDuration);
    }
  }

  lemma {:induction false} BurstAllAdmitted(c: Config, v: IpView, n: int, expiry: int, at: int, k: nat)
    requires ValidConfig(c) && at < expiry && v.locked == None && n >= 1
    requires v.attempts == Some(Entry(Integer(n), Some(expiry)))
    requires n + k == c.maxAttempts && k >= 1
    ensures Within(Burst(at, k), at, at + 1) && AdmittedView(c, v, Burst(at, k)) == k
    ensures Counting(c, RunView(c, v, Burst(at, k)), c.maxAttempts, expiry, at + c.lockoutDuration)
    decreases k
  {
    assert Burst(at, k)[1..] == Burst(at, k - 1);
    if k > 1 {
      BurstAllAdmitted(c, ServeView(c, v, at).0, n + 1, expiry, at, k - 1);
    } else {
      assert Burst(at, 0) == [];
    }
  }

  lemma CeilDivStep(a: int, b: int)
    requires b > 0 && a > 0
    ensures CeilDiv(a, b) == 1 + CeilDiv(a - b, b)
  {
  }

  lemma RestWithoutBurst(c: Config, v: IpView, start: int) returns (rest: seq<int>)
    requires ValidConfig(c) && Counting(c, v, 1, start + c.resetWindow, start + c.lockoutDuration)
    requires c.maxAttempts <= 1
    ensures Within(rest, start, start + c.resetWindow)
    ensures AdmittedView(c, v, rest) == CeilDiv(c.resetWindow - c.lockoutDuration, c.lockoutDuration)
  {
    rest := Relocks(start + c.lockoutDuration, start + c.resetWindow, c.lockoutDuration);
    RelocksAllAdmitted(c, v, 1, start + c.resetWindow, start + c.lockoutDuration);
  }

  lemma RestWithBurst(c: Config, v: IpView, start: int) returns (rest: seq<int>)
    requires ValidConfig(c) && Counting(c, v, 1, start + c.resetWindow, start + c.lockoutDuration)
    requires c.maxAttempts > 1 && v.locked == None
    ensures Within(rest, start, start + c.resetWindow)
    ensures AdmittedView(c, v, rest) ==
      c.maxAttempts - 1 + CeilDiv(c.resetWindow - c.lockoutDuration, c.lockoutDuration)
  {
    var expiry, lock := start + c.resetWindow, start + c.lockoutDuration;
    var burst, relocks := Burst(start, c.maxAttempts - 1), Relocks(lock, expiry, c.lockoutDuration);
    BurstAllAdmitted(c, v, 1, expiry, start, c.maxAttempts - 1);
    RelocksAllAdmitted(c, RunView(c, v, burst), c.maxAttempts, expiry, lock);
    AdmittedConcat(c, v, burst, relocks);
    rest := burst + relocks;
  }

  /** After the first admission: the rest of the burst, then the relocks. */
  lemma RestOfRun(c: Config, v: IpView, start: int) returns (rest: seq<int>)
    requires ValidConfig(c) && Counting(c, v, 1, start + c.resetWindow, start + c.lockoutDuration)
    requires c.maxAttempts > 1 ==> v.locked == None
    ensures Within(rest, start, start + c.resetWindow)
    ensures 1 + AdmittedView(c, v, rest) == Bound(c)
  {
    CeilDivStep(c.resetWindow, c.lockoutDuration);
    if c.maxAttempts <= 1 {
      rest := RestWithoutBurst(c, v, start);
    } else {
      rest := RestWithBurst(c, v, start);
    }
  }

  /** For every configuration there is a run within one counter's life that reaches
      the bound: a burst up to the limit, then one request as each lock runs out. */
  lemma BoundAttained(c: Config, start: int) returns (times: seq<int>)
    requires ValidConfig(c)
    ensures Within(times, start, start + c.resetWindow)
    ensures AdmittedView(c, IpView(None, None, None), times) == Bound(c)
  {
    var rest := RestOfRun(c, ServeView(c, IpView(None, None, None), start).0, start);
    times := [start] + rest;
    assert times[1..] == rest;
  }

  function RequestsAt(ip: string, times: seq<int>): seq<Request> {
    seq(|times|, i requires 0 <= i < |times| => Request(ip, times[i]))
  }

  lemma {:induction false} TimesOfRequestsAt(ip: string, times: seq<int>)
    ensures TimesOf(RequestsAt(ip, times), ip) == times
    decreases |times|
  {
    if times != [] {
      assert RequestsAt(ip, times)[1..] == RequestsAt(ip, times[1..]);
      TimesOfRequestsAt(ip, times[1..]);
    }
  }

  /** The same for the middleware itself, started on an empty Redis. */
  lemma {:induction false} AdmissionBoundTight(c: Config, ip: string, start: int) returns (reqs: seq<Request>)
    requires ValidConfig(c)
    ensures InOrder(reqs)
    ensures forall i :: 0 <= i < |reqs| ==> reqs[i].ip == ip && start <= reqs[i].at < start + c.resetWindow
    ensures Admitted(c, {}, map[], reqs, ip) == Bound(c)
  {
    var times := BoundAttained(c, start);
    reqs := RequestsAt(ip, times);
    TimesOfRequestsAt(ip, times);
    AdmittedSeenByIp(c, {}, map[], reqs, ip);
  }
}
