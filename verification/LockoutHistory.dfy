/** What the in-memory limiter means, said without its table: an IP is refused at t
    exactly when some recorded failure at s, with t < s + lockoutDuration, ended a
    chain of maxAttempts failures with no gap longer than resetWindow and with no
    success and no earlier lockout inside the chain.  A limit below 1 acts as 1.

    The callers are logins that ask first and record the outcome later, and only when
    told yes.  Cleanup passes and other IPs may come in between; the logins of one IP
    follow one another. */
module LockoutHistory {
  import opened MemoryRateLimiter

  /** A login attempt that the limiter let through, as it was recorded. */
  datatype Attempt = Attempt(at: nat, ok: bool)

  // ---------- the specification ----------

  /** How long a chain has to be.  The code compares counts from 1 up with the limit. */
  function Limit(c: Config): (n: nat)
    ensures n >= 1
  {
    if c.maxAttempts >= 1 then c.maxAttempts else 1
  }

  /** The i-th attempt ended a chain. */
  ghost predicate Lockout(c: Config, h: seq<Attempt>, i: nat)
    requires i < |h|
    decreases i
  {
    var first := i - Limit(c) + 1;
    && first >= 0
    && (forall j :: first <= j <= i ==> !h[j].ok)
    && (forall j :: first < j <= i ==> h[j].at - h[j - 1].at <= c.resetWindow)
    && (forall j :: first <= j < i ==> !Lockout(c, h, j))
  }

  ghost predicate Refused(c: Config, h: seq<Attempt>, t: int) {
    exists i :: 0 <= i < |h| && Lockout(c, h, i) && t < h[i].at + c.lockoutDuration
  }

  // ---------- runs ----------

  /** IsAllowed, by a login or anybody else; the record of a login; a cleanup pass. */
  datatype Event =
    | Asks(ip: string, at: nat)
    | Records(ip: string, ok: bool, at: nat)
    | Tick(at: nat)

  function Step(c: Config, m: Table, e: Event): Table {
    match e
    case Asks(ip, at) => Ask(c, m, ip, at).0
    case Records(ip, ok, at) => if ok then Succeed(m, ip) else Fail(c, m, ip, at)
    case Tick(at) => Cleanup(c, m, at)
  }

  function Run(c: Config, es: seq<Event>): Table {
    if es == [] then map[] else Step(c, Run(c, es[..|es| - 1]), es[|es| - 1])
  }

  predicate Touches(e: Event, ip: string) {
    e.Tick? || e.ip == ip
  }

  /** The last thing heard of this IP is an ask that was told yes. */
  predicate Admitted(c: Config, es: seq<Event>, ip: string) {
    es != [] &&
    var before, e := es[..|es| - 1], es[|es| - 1];
    if e.Tick? || e.ip != ip then Admitted(c, before, ip)
    else e.Asks? && Ask(c, Run(c, before), ip, e.at).1
  }

  /** As far as this IP is concerned, the clock does not run backwards up to `now`, and
      whoever records has just been told yes. */
  ghost predicate Proper(c: Config, es: seq<Event>, ip: string, now: nat) {
    && (forall i :: 0 <= i < |es| && Touches(es[i], ip) ==> es[i].at <= now)
    && (forall i, j :: 0 <= i < j < |es| && Touches(es[i], ip) && Touches(es[j], ip) ==> es[i].at <= es[j].at)
    && (forall k :: 0 <= k < |es| && es[k].Records? && es[k].ip == ip ==> Admitted(c, es[..k], ip))
  }

  /** The outcomes recorded for `ip`. */
  function History(es: seq<Event>, ip: string): seq<Attempt> {
    if es == [] then []
    else
      var e, h := es[|es| - 1], History(es[..|es| - 1], ip);
      if e.Records? && e.ip == ip then h + [Attempt(e.at, e.ok)] else h
  }

  /** After any proper run IsAllowed refuses `ip` at t exactly when its history does. */
  ghost predicate Refines(c: Config) {
    forall es: seq<Event>, ip: string, t: nat ::
      Proper(c, es, ip, t) ==> (Ask(c, Run(c, es), ip, t).1 <==> !Refused(c, History(es, ip), t))
  }

  // ---------- the chain under way ----------

  /** The length of the chain that the i-th attempt belongs to, as far as it. */
  function Chain(c: Config, h: seq<Attempt>, i: nat): nat
    requires i < |h|
    decreases i
  {
    if h[i].ok then 0
    else if i > 0 && 1 <= Chain(c, h, i - 1) < Limit(c) && h[i].at - h[i - 1].at <= c.resetWindow
    then Chain(c, h, i - 1) + 1
    else 1
  }

  lemma {:induction false} ChainBack(c: Config, h: seq<Attempt>, i: nat, d: nat)
    requires i < |h| && d < Chain(c, h, i)
    ensures d <= i && Chain(c, h, i - d) == Chain(c, h, i) - d && !h[i - d].ok
    ensures Chain(c, h, i) <= Limit(c)
    ensures d > 0 ==> h[i - d + 1].at - h[i - d].at <= c.resetWindow
    decreases d
  {
    if d > 0 {
      ChainBack(c, h, i, d - 1);
    }
  }

  lemma {:induction false} ChainAtLeast(c: Config, h: seq<Attempt>, first: nat, i: nat)
    requires first <= i < |h|
    requires forall j :: first <= j <= i ==> !h[j].ok
    requires forall j :: first < j <= i ==> h[j].at - h[j - 1].at <= c.resetWindow
    requires forall j :: first <= j < i ==> Chain(c, h, j) < Limit(c)
    ensures Chain(c, h, i) >= i - first + 1
    decreases i
  {
    if first < i {
      ChainAtLeast(c, h, first, i - 1);
    }
  }

  lemma ChainOfLimitLocks(c: Config, h: seq<Attempt>, i: nat)
    requires i < |h| && Chain(c, h, i) == Limit(c)
    requires forall j :: 0 <= j < i ==> (Lockout(c, h, j) <==> Chain(c, h, j) == Limit(c))
    ensures Lockout(c, h, i)
  {
    var first := i - Limit(c) + 1;
    ChainBack(c, h, i, Limit(c) - 1);
    forall j | first <= j <= i
      ensures !h[j].ok
      ensures first < j ==> h[j].at - h[j - 1].at <= c.resetWindow
      ensures j < i ==> !Lockout(c, h, j)
    {
      ChainBack(c, h, i, i - j);
      if first < j {
        ChainBack(c, h, i, i - j + 1);
      }
    }
  }

  /** The declarative lockouts are where the chain under way reaches the limit. */
  lemma {:induction false} LockoutIsFullChain(c: Config, h: seq<Attempt>, i: nat)
    requires i < |h|
    ensures Lockout(c, h, i) <==> Chain(c, h, i) == Limit(c)
    ensures Chain(c, h, i) <= Limit(c)
    decreases i
  {
    forall j | 0 <= j < i
      ensures Lockout(c, h, j) <==> Chain(c, h, j) == Limit(c)
      ensures Chain(c, h, j) <= Limit(c)
    {
      LockoutIsFullChain(c, h, j);
    }
    if Chain(c, h, i) > 0 {
      ChainBack(c, h, i, 0);
    }
    if Chain(c, h, i) == Limit(c) {
      ChainOfLimitLocks(c, h, i);
    }
    if Lockout(c, h, i) {
      ChainAtLeast(c, h, i - Limit(c) + 1, i);
    }
  }

  // ---------- appending to a history ----------

  lemma {:induction false} ChainOfPrefix(c: Config, h: seq<Attempt>, x: Attempt, i: nat)
    requires i < |h|
    ensures Chain(c, h + [x], i) == Chain(c, h, i)
    decreases i
  {
    if i > 0 {
      ChainOfPrefix(c, h, x, i - 1);
    }
  }

  /** One more attempt can add a lockout of its own and changes no other. */
  lemma RefusedAfter(c: Config, h: seq<Attempt>, x: Attempt, t: int)
    ensures Refused(c, h + [x], t) <==>
      Refused(c, h, t) || (Chain(c, h + [x], |h|) == Limit(c) && t < x.at + c.lockoutDuration)
  {
    var h' := h + [x];
    forall i: nat | i < |h|
      ensures Lockout(c, h', i) <==> Lockout(c, h, i)
    {
      LockoutIsFullChain(c, h, i);
      LockoutIsFullChain(c, h', i);
      ChainOfPrefix(c, h, x, i);
    }
    LockoutIsFullChain(c, h', |h|);
    if Refused(c, h, t) {
      var i :| 0 <= i < |h| && Lockout(c, h, i) && t < h[i].at + c.lockoutDuration;
      assert Lockout(c, h', i) && h'[i] == h[i];
    }
    if Lockout(c, h', |h|) && t < x.at + c.lockoutDuration {
      assert h'[|h|] == x;
    }
  }

  // ---------- the table agrees with the history ----------

  function LastChain(c: Config, h: seq<Attempt>): nat {
    if h == [] then 0 else Chain(c, h, |h| - 1)
  }

  /** What the entry of `ip`, or its absence, says about the history at `now`. */
  ghost predicate Agrees(c: Config, m: Table, ip: string, h: seq<Attempt>, now: int)
    requires c.maxAttempts >= 2
  {
    && (h != [] ==> h[|h| - 1].at <= now)
    && (forall t :: t >= now ==> (Refused(c, h, t) <==> ip in m && m[ip].lockedUntil > t))
    && (if ip in m
        then h != [] && m[ip].failedAttempts == LastChain(c, h) >= 1 && m[ip].lastAttempt == h[|h| - 1].at
        else h == [] || LastChain(c, h) == 0 || LastChain(c, h) == c.maxAttempts
             || now - h[|h| - 1].at > c.resetWindow)
  }

  lemma AgreesLater(c: Config, m: Table, ip: string, h: seq<Attempt>, now: int, later: int)
    requires c.maxAttempts >= 2 && Agrees(c, m, ip, h, now) && now <= later
    ensures Agrees(c, m, ip, h, later)
  {
  }

  lemma AskAgrees(c: Config, m: Table, ip: string, h: seq<Attempt>, now: nat, who: string)
    requires c.maxAttempts >= 2 && Agrees(c, m, ip, h, now)
    ensures Agrees(c, Ask(c, m, who, now).0, ip, h, now)
    ensures Ask(c, m, ip, now).1 <==> !Refused(c, h, now)
    ensures who == ip && Ask(c, m, ip, now).1 ==>
      var m' := Ask(c, m, ip, now).0;
      ip in m' ==> m'[ip].failedAttempts < c.maxAttempts && m'[ip].lockedUntil <= now
  {
    if h != [] {
      LockoutIsFullChain(c, h, |h| - 1);
    }
  }

  lemma TickAgrees(c: Config, m: Table, ip: string, h: seq<Attempt>, now: nat)
    requires c.maxAttempts >= 2 && Agrees(c, m, ip, h, now)
    ensures Agrees(c, Cleanup(c, m, now), ip, h, now)
  {
  }

  /** Recording the outcome of an admitted login. */
  lemma RecordAgrees(c: Config, m: Table, ip: string, h: seq<Attempt>, asked: nat, done: nat, ok: bool)
    requires c.maxAttempts >= 2 && Agrees(c, m, ip, h, asked) && asked <= done
    requires ip in m ==> m[ip].failedAttempts < c.maxAttempts && m[ip].lockedUntil <= asked
    ensures Agrees(c, if ok then Succeed(m, ip) else Fail(c, m, ip, done), ip, h + [Attempt(done, ok)], done)
  {
    var x := Attempt(done, ok);
    var h' := h + [x];
    forall t: int | t >= done
      ensures Refused(c, h', t) <==> Chain(c, h', |h|) == c.maxAttempts && t < x.at + c.lockoutDuration
    {
      RefusedAfter(c, h, x, t);
    }
    if h != [] {
      ChainOfPrefix(c, h, x, |h| - 1);
    }
    LockoutIsFullChain(c, h', |h|);
  }

  // ---------- the theorem ----------

  lemma OtherIp(c: Config, m: Table, ip: string, h: seq<Attempt>, now: nat, e: Event)
    requires c.maxAttempts >= 2 && Agrees(c, m, ip, h, now) && !Touches(e, ip)
    ensures Agrees(c, Step(c, m, e), ip, h, now)
    ensures ip in Step(c, m, e) <==> ip in m
    ensures ip in m ==> Step(c, m, e)[ip] == m[ip]
  {
  }

  /** Between a yes and the record nothing locks. */
  ghost predicate Open(c: Config, m: Table, ip: string, now: nat) {
    ip in m ==> m[ip].failedAttempts < c.maxAttempts && m[ip].lockedUntil <= now
  }

  lemma ProperPrefix(c: Config, es: seq<Event>, ip: string, now: nat)
    requires es != [] && Proper(c, es, ip, now)
    ensures var n := |es| - 1;
      Proper(c, es[..n], ip, if Touches(es[n], ip) then es[n].at else now)
  {
    var n := |es| - 1;
    var init := es[..n];
    forall k | 0 <= k < n && init[k].Records? && init[k].ip == ip
      ensures Admitted(c, init[..k], ip)
    {
      assert init[..k] == es[..k] && init[k] == es[k];
    }
  }

  lemma {:induction false} RunAgrees(c: Config, es: seq<Event>, ip: string, now: nat)
    requires c.maxAttempts >= 2 && Proper(c, es, ip, now)
    ensures Agrees(c, Run(c, es), ip, History(es, ip), now)
    ensures Admitted(c, es, ip) ==> Open(c, Run(c, es), ip, now)
    decreases |es|
  {
    if es != [] {
      var e, before := es[|es| - 1], es[..|es| - 1];
      var m, h := Run(c, before), History(before, ip);
      ProperPrefix(c, es, ip, now);
      if Touches(e, ip) {
        RunAgrees(c, before, ip, e.at);
        match e {
          case Tick(_) => TickAgrees(c, m, ip, h, e.at);
          case Asks(_, _) => AskAgrees(c, m, ip, h, e.at, ip);
          case Records(_, ok, at) =>
            assert Admitted(c, es[..|es| - 1], ip);
            RecordAgrees(c, m, ip, h, at, at, ok);
        }
        AgreesLater(c, Run(c, es), ip, History(es, ip), e.at, now);
      } else {
        RunAgrees(c, before, ip, now);
        OtherIp(c, m, ip, h, now, e);
      }
    }
  }

  /** Without a positive lockout neither side ever refuses. */
  lemma {:induction false} NothingRefused(c: Config, es: seq<Event>, ip: string, t: nat)
    requires c.lockoutDuration <= 0 && Proper(c, es, ip, t)
    ensures ip in Run(c, es) ==> Run(c, es)[ip].lockedUntil <= t
    ensures Past(History(es, ip), t)
    decreases |es|
  {
    if es != [] {
      var e := es[|es| - 1];
      ProperPrefix(c, es, ip, t);
      NothingRefused(c, es[..|es| - 1], ip, if Touches(e, ip) then e.at else t);
    }
  }

  ghost predicate Past(h: seq<Attempt>, now: int) {
    forall i :: 0 <= i < |h| ==> h[i].at <= now
  }

  /** One failure that should lock by itself, and does not. */
  lemma {:induction false} FirstFailureForgiven(c: Config, ip: string) returns (es: seq<Event>)
    requires c.maxAttempts <= 1 && c.lockoutDuration > 0
    ensures Proper(c, es, ip, 0)
    ensures Ask(c, Run(c, es), ip, 0).1 && Refused(c, History(es, ip), 0)
  {
    var ask, record, none: seq<Event> := Asks(ip, 0), Records(ip, false, 0), [];
    es := [ask, record];
    assert es[..1] == [ask] && [ask][..0] == none;
    assert Run(c, none) == map[] && Run(c, [ask]) == map[] && Admitted(c, [ask], ip);
    assert Run(c, es) == Fail(c, map[], ip, 0);
    assert History(none, ip) == [] && History([ask], ip) == [];
    var h := History(es, ip);
    assert h == [] + [Attempt(0, false)];
    assert Lockout(c, h, 0);
  }

  /** The limiter means what the history says exactly when a first failure is not
      meant to lock by itself, or when locks have no length. */
  lemma LimiterRefinesHistory(c: Config)
    ensures Refines(c) <==> c.maxAttempts >= 2 || c.lockoutDuration <= 0
  {
    if c.maxAttempts >= 2 || c.lockoutDuration <= 0 {
      forall es: seq<Event>, ip: string, t: nat | Proper(c, es, ip, t)
        ensures Ask(c, Run(c, es), ip, t).1 <==> !Refused(c, History(es, ip), t)
      {
        if c.maxAttempts >= 2 {
          RunAgrees(c, es, ip, t);
          AskAgrees(c, Run(c, es), ip, History(es, ip), t, ip);
        } else {
          NothingRefused(c, es, ip, t);
        }
      }
    } else {
      var es := FirstFailureForgiven(c, "");
    }
  }
}
