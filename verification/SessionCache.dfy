/** User sessions in Redis under `session:{user}:{ip}:{token}`: at most five active
    ones per user, found again by key patterns. */
module SessionCache {
  import opened Basics
  import opened Redis
  import opened Text

  const MAX_SESSIONS := 5
  const FALLBACK_TTL := DAY

  datatype Session = Session(userId: int, ipAddress: string, sessionId: string,
                             expiresAt: int, lastActivityAt: int, isRevoked: bool)

  predicate IsActive(s: Session, now: int) {
    now <= s.expiresAt && !s.isRevoked
  }

  // ---------- keys and patterns ----------

  function UserPrefix(userId: int): string { "session:" + DecInt(userId) + ":" }

  function Key(userId: int, ip: string, token: string): string { UserPrefix(userId) + ip + ":" + token }

  function KeyOf(s: Session): string { Key(s.userId, s.ipAddress, s.sessionId) }

  function UserPattern(userId: int): string { UserPrefix(userId) + "*" }

  function AllDevicesPattern(userId: int): string { UserPrefix(userId) + "*:*" }

  /** Redis glob matching, for patterns whose only special character is the star. */
  predicate Match(pattern: string, s: string)
    decreases |pattern| + |s|
  {
    if pattern == "" then s == ""
    else if pattern[0] == '*' then Match(pattern[1..], s) || (s != "" && Match(pattern, s[1..]))
    else s != "" && s[0] == pattern[0] && Match(pattern[1..], s[1..])
  }

  lemma {:induction false} StarMatchesAll(s: string)
    ensures Match("*", s)
    decreases |s|
  {
    assert "*"[1..] == "";
    if s != "" { StarMatchesAll(s[1..]); }
  }

  lemma {:induction false} MatchLiteral(prefix: string, rest: string, s: string)
    requires '*' !in prefix
    ensures Match(prefix + rest, s) <==> Prefixed(s, prefix) && Match(rest, s[|prefix|..])
    decreases |prefix|
  {
    if prefix == "" {
      assert prefix + rest == rest && s[0..] == s;
    } else {
      assert (prefix + rest)[1..] == prefix[1..] + rest;
      if s != "" {
        MatchLiteral(prefix[1..], rest, s[1..]);
        if |s| >= |prefix| {
          assert s[1..][|prefix| - 1..] == s[|prefix|..];
          assert s[..|prefix|] == [s[0]] + s[1..][..|prefix| - 1];
          assert prefix == [prefix[0]] + prefix[1..];
        }
      }
    }
  }

  lemma {:induction false} StarColonStar(s: string)
    ensures Match("*:*", s) <==> ':' in s
    decreases |s|
  {
    assert "*:*"[1..] == ":*" && ":*"[1..] == "*";
    if s != "" {
      StarColonStar(s[1..]);
      StarMatchesAll(s[1..]);
      assert s == [s[0]] + s[1..];
    }
  }

  function UpToColon(s: string): string {
    if s == "" || s[0] == ':' then "" else [s[0]] + UpToColon(s[1..])
  }

  lemma {:induction false} UpToColonIs(a: string, rest: string)
    requires ':' !in a
    ensures UpToColon(a + ":" + rest) == a
    decreases |a|
  {
    var s := a + ":" + rest;
    if a != "" {
      assert s[1..] == a[1..] + ":" + rest;
      UpToColonIs(a[1..], rest);
    }
  }

  lemma PrefixWithColon(a: string, b: string, rest: string)
    requires ':' !in a && ':' !in b && Prefixed(b + ":" + rest, a + ":")
    ensures a == b
  {
    var s := b + ":" + rest;
    assert s == a + ":" + s[|a| + 1..];
    UpToColonIs(a, s[|a| + 1..]);
    UpToColonIs(b, rest);
  }

  lemma DecIntNoSpecials(n: int)
    ensures ':' !in DecInt(n) && '*' !in DecInt(n)
  {
    DecIntChars(n);
  }

  lemma SharedHead(head: string, s: string, prefix: string)
    ensures Prefixed(head + s, head + prefix) <==> Prefixed(s, prefix)
  {
    var hs, hp := head + s, head + prefix;
    assert hs[|head|..] == s && hp[|head|..] == prefix;
    if |hp| <= |hs| {
      assert hs[..|hp|] == head + s[..|prefix|];
      assert hs[..|hp|][|head|..] == s[..|prefix|];
    }
  }

  lemma NumberIsOwn(userId: int, other: int, rest: string)
    ensures Prefixed(DecInt(other) + ":" + rest, DecInt(userId) + ":") <==> userId == other
  {
    DecIntNoSpecials(userId);
    DecIntNoSpecials(other);
    var s, p := DecInt(other) + ":" + rest, DecInt(userId) + ":";
    if userId == other {
      assert s[..|p|] == p;
    } else if Prefixed(s, p) {
      PrefixWithColon(DecInt(userId), DecInt(other), rest);
      DecIntInjective(userId, other);
    }
  }

  lemma PrefixIsOwn(userId: int, other: int, ip: string, token: string)
    ensures Prefixed(Key(other, ip, token), UserPrefix(userId)) <==> userId == other
    ensures Key(userId, ip, token)[|UserPrefix(userId)|..] == ip + ":" + token
  {
    var rest := ip + ":" + token;
    assert Key(userId, ip, token) == UserPrefix(userId) + rest;
    assert Key(other, ip, token) == "session:" + (DecInt(other) + ":" + rest);
    assert UserPrefix(userId) == "session:" + (DecInt(userId) + ":");
    SharedHead("session:", DecInt(other) + ":" + rest, DecInt(userId) + ":");
    NumberIsOwn(userId, other, rest);
  }

  /** The pattern of one user matches exactly that user's keys. */
  lemma PatternsAreExact(userId: int, other: int, ip: string, token: string)
    ensures Match(UserPattern(userId), Key(other, ip, token)) <==> userId == other
    ensures Match(AllDevicesPattern(userId), Key(other, ip, token)) <==> userId == other
  {
    var p, k, rest := UserPrefix(userId), Key(other, ip, token), ip + ":" + token;
    DecIntNoSpecials(userId);
    MatchLiteral(p, "*", k);
    MatchLiteral(p, "*:*", k);
    PrefixIsOwn(userId, other, ip, token);
    StarMatchesAll(rest);
    assert rest[|ip|] == ':';
    StarColonStar(rest);
  }

  // ---------- the state ----------

  type Sessions = Store<Session>

  /** Every entry is under the key its own fields give. */
  ghost predicate WellKeyed(st: Sessions) {
    forall k :: k in st ==> st[k].cell.Data? && k == KeyOf(st[k].cell.v)
  }

  predicate ActiveAt(st: Sessions, k: string, now: int) {
    Live(Lookup(st, k), now) && st[k].cell.Data? && IsActive(st[k].cell.v, now)
  }

  /** SCAN: the live keys that match. */
  function Scan(st: Sessions, pattern: string, now: int): set<string> {
    set k | k in st && Match(pattern, k) && Live(Lookup(st, k), now)
  }

  function ActiveKeys(st: Sessions, userId: int, now: int): set<string> {
    set k | k in Scan(st, UserPattern(userId), now) && ActiveAt(st, k, now)
  }

  function Saved(s: Session, now: int): Slot<Session> {
    SetSlot(Data(s), if s.expiresAt - now <= 0 then FALLBACK_TTL else s.expiresAt - now, now)
  }

  /** A session of the set that nobody in it has been idle longer than. */
  ghost predicate Oldest(st: Sessions, keys: set<string>, k: string)
    requires forall x :: x in keys ==> x in st && st[x].cell.Data?
  {
    k in keys && forall x :: x in keys ==> st[k].cell.v.lastActivityAt <= st[x].cell.v.lastActivityAt
  }

  datatype Event =
    | CacheIt(session: Session, token: string, at: int)
    | Touch(userId: int, ip: string, token: string, at: int)
    | Revoke(userId: int, ip: string, token: string, at: int)
    | Drop(userId: int, ip: string, token: string, at: int)
    | DropAll(userId: int, at: int)
    | DropOthers(userId: int, keep: string, at: int)

  function UserOf(e: Event): int {
    if e.CacheIt? then e.session.userId else e.userId
  }

  /** Re-caching of a session that is found, changed by an update or a revocation. */
  function Rewritten(st: Sessions, k: string, now: int, f: Session -> Session): Sessions {
    match Read(Lookup(st, k), now)
    case Some(Data(s)) => Write(st, k, Saved(f(s), now))
    case _ => st
  }

  function Touched(now: int): Session -> Session { (s: Session) => s.(lastActivityAt := now) }

  function RevokedSession(): Session -> Session { (s: Session) => s.(isRevoked := true) }

  /** Go's key[len(key)-len(token):] panics when the token is the longer one. */
  predicate ContainsPanics(key: string, token: string) {
    token != "" && key != "" && |token| > |key|
  }

  predicate ContainsToken(key: string, token: string) {
    token != "" && Suffixed(key, token)
  }

  /** The new session after the eviction of the one found under k. */
  function Evicted(st: Sessions, s: Session, token: string, now: int, k: string): Sessions
    requires k in st && st[k].cell.Data?
  {
    Write(Write(st, KeyOf(st[k].cell.v), None), Key(s.userId, s.ipAddress, token), Saved(s, now))
  }

  /** The outcomes an event may have.  Below the limit nothing is evicted, unless SCAN
      returns keys repeatedly, so that there seem to be more.  Eviction may choose
      among the idlest; a sweep that panics has deleted some part of what it was to
      delete. */
  ghost predicate Step(st: Sessions, e: Event, st': Sessions) {
    match e
    case CacheIt(s, token, now) =>
      var active := ActiveKeys(st, s.userId, now);
      || (|active| < MAX_SESSIONS && st' == Write(st, Key(s.userId, s.ipAddress, token), Saved(s, now)))
      || (exists k :: Oldest(st, active, k) && st' == Evicted(st, s, token, now, k))
    case Touch(u, ip, token, now) => st' == Rewritten(st, Key(u, ip, token), now, Touched(now))
    case Revoke(u, ip, token, now) => st' == Rewritten(st, Key(u, ip, token), now, RevokedSession())
    case Drop(u, ip, token, _) => st' == Write(st, Key(u, ip, token), None)
    case DropAll(u, now) => st' == st - Scan(st, AllDevicesPattern(u), now)
    case DropOthers(u, keep, now) =>
      var keys := Scan(st, UserPattern(u), now);
      var doomed := set k | k in keys && !ContainsToken(k, keep);
      exists gone :: gone <= doomed && st' == st - gone &&
        ((forall k :: k in keys ==> !ContainsPanics(k, keep)) ==> gone == doomed)
  }

  /** Sessions are cached under the token that belongs to their SessionID. */
  predicate Matched(e: Event, tokenOf: string -> string) {
    e.CacheIt? ==> e.token == tokenOf(e.session.sessionId)
  }

  /** Every user is within the limit. */
  ghost predicate Capped(st: Sessions, now: int) {
    forall u :: |ActiveKeys(st, u, now)| <= MAX_SESSIONS
  }

  // ---------- one event ----------

  lemma SubsetSize<T>(a: set<T>, b: set<T>)
    requires a <= b
    ensures |a| <= |b|
  {
    assert b == a + (b - a);
  }

  /** Sessions only stop being active as time passes. */
  lemma CappedLater(st: Sessions, now: int, later: int)
    requires Capped(st, now) && now <= later
    ensures Capped(st, later)
  {
    forall u
      ensures |ActiveKeys(st, u, later)| <= MAX_SESSIONS
    {
      SubsetSize(ActiveKeys(st, u, later), ActiveKeys(st, u, now));
    }
  }

  lemma KeyIsOwn(s: Session, u: int)
    ensures Match(UserPattern(u), KeyOf(s)) <==> u == s.userId
    ensures Match(AllDevicesPattern(u), KeyOf(s)) <==> u == s.userId
  {
    PatternsAreExact(u, s.userId, s.ipAddress, s.sessionId);
  }

  /** A write under one of user u's keys changes nobody else's active set. */
  lemma FewerActive(st: Sessions, st': Sessions, now: int)
    requires Capped(st, now)
    requires forall k :: k in st' && ActiveAt(st', k, now) ==> ActiveAt(st, k, now)
    ensures Capped(st', now)
  {
    forall u
      ensures |ActiveKeys(st', u, now)| <= MAX_SESSIONS
    {
      SubsetSize(ActiveKeys(st', u, now), ActiveKeys(st, u, now));
    }
  }

  lemma RewriteKeeps(st: Sessions, userId: int, ip: string, token: string, now: int, f: Session -> Session)
    requires WellKeyed(st) && Capped(st, now)
    requires forall s :: KeyOf(f(s)) == KeyOf(s) && (IsActive(f(s), now) ==> IsActive(s, now))
    ensures var st' := Rewritten(st, Key(userId, ip, token), now, f);
      WellKeyed(st') && Capped(st', now)
  {
    FewerActive(st, Rewritten(st, Key(userId, ip, token), now, f), now);
  }

  predicate ActiveSlot(x: Slot<Session>, now: int) {
    Live(x, now) && x.value.cell.Data? && IsActive(x.value.cell.v, now)
  }

  lemma ActiveAfterWrite(st: Sessions, key: string, x: Slot<Session>, u: int, now: int)
    ensures ActiveKeys(Write(st, key, x), u, now) ==
      (ActiveKeys(st, u, now) - {key}) + (if Match(UserPattern(u), key) && ActiveSlot(x, now) then {key} else {})
  {
    var st' := Write(st, key, x);
    forall k
      ensures k in ActiveKeys(st', u, now) <==>
        if k == key then Match(UserPattern(u), key) && ActiveSlot(x, now) else k in ActiveKeys(st, u, now)
    {
      assert Lookup(st', k) == if k == key then x else Lookup(st, k);
    }
  }

  /** On a store keyed by the sessions' own fields, the key deleted is the key of an
      idlest active session. */
  lemma EvictedKey(st: Sessions, s: Session, token: string, now: int, st': Sessions) returns (k: string)
    requires WellKeyed(st) && Step(st, CacheIt(s, token, now), st')
    requires |ActiveKeys(st, s.userId, now)| >= MAX_SESSIONS ||
      st' != Write(st, Key(s.userId, s.ipAddress, token), Saved(s, now))
    ensures Oldest(st, ActiveKeys(st, s.userId, now), k)
    ensures st' == Write(Write(st, k, None), Key(s.userId, s.ipAddress, token), Saved(s, now))
  {
    var active := ActiveKeys(st, s.userId, now);
    k :| Oldest(st, active, k) && st' == Evicted(st, s, token, now, k);
    assert k in active;
  }

  /** Writing one more session of user v: only v's active set can grow, by one. */
  lemma WriteAddsOne(st: Sessions, s: Session, now: int, u: int)
    ensures var active, active' := ActiveKeys(st, u, now), ActiveKeys(Write(st, KeyOf(s), Saved(s, now)), u, now);
      |active'| <= |active| + (if u == s.userId then 1 else 0)
  {
    var key, active := KeyOf(s), ActiveKeys(st, u, now);
    KeyIsOwn(s, u);
    ActiveAfterWrite(st, key, Saved(s, now), u, now);
    if u == s.userId {
      SubsetSize(ActiveKeys(Write(st, key, Saved(s, now)), u, now), active + {key});
    } else {
      SubsetSize(ActiveKeys(Write(st, key, Saved(s, now)), u, now), active);
    }
  }

  lemma DeleteRemovesOne(st: Sessions, k: string, now: int, u: int)
    ensures var active, active' := ActiveKeys(st, u, now), ActiveKeys(Write(st, k, None), u, now);
      active' == active - {k} && |active'| == |active| - (if k in active then 1 else 0)
  {
    ActiveAfterWrite(st, k, None, u, now);
  }

  /** What the new session adds and the eviction removes, for one user. */
  lemma CacheCaps(st: Sessions, s: Session, now: int, st': Sessions, u: int)
    requires WellKeyed(st) && Capped(st, now) && Step(st, CacheIt(s, s.sessionId, now), st')
    ensures |ActiveKeys(st', u, now)| <= MAX_SESSIONS
  {
    assert |ActiveKeys(st, u, now)| <= MAX_SESSIONS;
    if |ActiveKeys(st, s.userId, now)| < MAX_SESSIONS && st' == Write(st, KeyOf(s), Saved(s, now)) {
      WriteAddsOne(st, s, now, u);
    } else {
      var k := EvictedKey(st, s, s.sessionId, now, st');
      DeleteRemovesOne(st, k, now, u);
      WriteAddsOne(Write(st, k, None), s, now, u);
    }
  }

  lemma CacheKeeps(st: Sessions, s: Session, now: int, st': Sessions)
    requires WellKeyed(st) && Capped(st, now) && Step(st, CacheIt(s, s.sessionId, now), st')
    ensures WellKeyed(st') && Capped(st', now)
  {
    forall u
      ensures |ActiveKeys(st', u, now)| <= MAX_SESSIONS
    {
      CacheCaps(st, s, now, st', u);
    }
  }

  lemma StepKeeps(st: Sessions, e: Event, st': Sessions)
    requires WellKeyed(st) && Capped(st, e.at) && Step(st, e, st')
    requires e.CacheIt? ==> e.token == e.session.sessionId
    ensures WellKeyed(st') && Capped(st', e.at)
  {
    match e {
      case CacheIt(s, token, now) => CacheKeeps(st, s, now, st');
      case Touch(u, ip, token, now) => RewriteKeeps(st, u, ip, token, now, Touched(now));
      case Revoke(u, ip, token, now) => RewriteKeeps(st, u, ip, token, now, RevokedSession());
      case Drop(_, _, _, now) => FewerActive(st, st', now);
      case DropAll(_, now) => FewerActive(st, st', now);
      case DropOthers(_, _, now) => FewerActive(st, st', now);
    }
  }

  /** An event for one user leaves every entry of every other user alone. */
  lemma OthersUntouched(st: Sessions, e: Event, st': Sessions, k: string)
    requires WellKeyed(st) && Step(st, e, st')
    requires k in st && st[k].cell.v.userId != UserOf(e)
    ensures k in st' && st'[k] == st[k]
  {
    KeyIsOwn(st[k].cell.v, UserOf(e));
    match e {
      case CacheIt(s, token, now) =>
        PatternsAreExact(s.userId, s.userId, s.ipAddress, token);
        var active := ActiveKeys(st, s.userId, now);
        if st' != Write(st, Key(s.userId, s.ipAddress, token), Saved(s, now)) {
          var o :| Oldest(st, active, o) && st' == Evicted(st, s, token, now, o);
          assert o in active;
        }
      case Touch(u, ip, token, now) => PatternsAreExact(u, u, ip, token);
      case Revoke(u, ip, token, now) => PatternsAreExact(u, u, ip, token);
      case Drop(u, ip, token, now) => PatternsAreExact(u, u, ip, token);
      case DropAll(u, now) =>
      case DropOthers(u, keep, now) =>
    }
  }

  // ---------- runs ----------

  ghost predicate IsRun(states: seq<Sessions>, events: seq<Event>, tokenOf: string -> string) {
    && |states| == |events| + 1
    && states[0] == map[]
    && (forall i :: 0 <= i < |events| ==> Step(states[i], events[i], states[i + 1]))
    && (forall i :: 0 <= i < |events| ==> Matched(events[i], tokenOf))
    && (forall i, j :: 0 <= i < j < |events| ==> events[i].at <= events[j].at)
  }

  /** At every point of every run no user has more than five active sessions. */
  ghost predicate AlwaysCapped(tokenOf: string -> string) {
    forall states: seq<Sessions>, events: seq<Event>, n: nat, now: int ::
      IsRun(states, events, tokenOf) && n <= |events| && (n > 0 ==> events[n - 1].at <= now)
      ==> Capped(states[n], now)
  }

  lemma {:induction false} RunKeeps(states: seq<Sessions>, events: seq<Event>, tokenOf: string -> string,
                                    n: nat, now: int)
    requires IsRun(states, events, tokenOf) && n <= |events| && forall id :: tokenOf(id) == id
    requires n > 0 ==> events[n - 1].at <= now
    ensures WellKeyed(states[n]) && Capped(states[n], now)
    decreases n
  {
    if n == 0 {
      forall u
        ensures |ActiveKeys(states[0], u, now)| <= MAX_SESSIONS
      {
        assert ActiveKeys(states[0], u, now) == {};
      }
    } else {
      var e := events[n - 1];
      RunKeeps(states, events, tokenOf, n - 1, e.at);
      StepKeeps(states[n - 1], e, states[n]);
      CappedLater(states[n], e.at, now);
    }
  }

  /** When tokens are SessionIDs: at every point of every run no user has more than
      five active sessions, and each event leaves the sessions of all other users
      exactly as they were. */
  lemma {:induction false} AtMostFiveSessions(states: seq<Sessions>, events: seq<Event>, tokenOf: string -> string,
                           n: nat, now: int, userId: int)
    requires IsRun(states, events, tokenOf) && n <= |events| && forall id :: tokenOf(id) == id
    requires n > 0 ==> events[n - 1].at <= now
    ensures |ActiveKeys(states[n], userId, now)| <= MAX_SESSIONS
    ensures n < |events| && UserOf(events[n]) != userId ==>
      forall k :: k in states[n] && states[n][k].cell.Data? && states[n][k].cell.v.userId == userId ==>
        k in states[n + 1] && states[n + 1][k] == states[n][k]
  {
    RunKeeps(states, events, tokenOf, n, now);
    if n < |events| && UserOf(events[n]) != userId {
      forall k | k in states[n] && states[n][k].cell.Data? && states[n][k].cell.v.userId == userId
        ensures k in states[n + 1] && states[n + 1][k] == states[n][k]
      {
        OthersUntouched(states[n], events[n], states[n + 1], k);
      }
    }
  }

  lemma NothingToEvict(st: Sessions, active: set<string>, k: string)
    requires k in active && k in st && st[k].cell.Data?
    requires forall x :: x in active && x in st && st[x].cell.Data? ==> KeyOf(st[x].cell.v) !in st
    ensures Write(st, KeyOf(st[k].cell.v), None) == st
  {
  }

  /** The i-th session of one crowd: user 0, the same SessionID, an IP of its own. */
  function Member(id: string, i: nat): Session
    requires i < 10
  {
    Session(0, [Digit(i)], id, 1, 0, false)
  }

  lemma MemberKeys(i: nat, j: nat, token: string, other: string)
    requires i < 10 && j < 10
    ensures Key(0, [Digit(i)], token) == Key(0, [Digit(j)], other) ==> i == j && token == other
  {
    var n, a, b := |UserPrefix(0)|, Key(0, [Digit(i)], token), Key(0, [Digit(j)], other);
    assert a[n] == Digit(i) && b[n] == Digit(j);
    assert a[n + 2..] == token && b[n + 2..] == other;
    assert DigitValue(Digit(i)) == i && DigitValue(Digit(j)) == j;
  }

  function Join(token: string, id: string, i: nat): Event
    requires i < 10
  {
    CacheIt(Member(id, i), token, 0)
  }

  /** What is cached after the first n of them. */
  function Crowd(token: string, id: string, n: nat): Sessions
    requires n <= 10
  {
    if n == 0 then map[]
    else Write(Crowd(token, id, n - 1), Key(0, [Digit(n - 1)], token), Saved(Member(id, n - 1), 0))
  }

  lemma {:induction false} CrowdHolds(token: string, id: string, n: nat, k: string) returns (i: nat)
    requires n <= 10 && k in Crowd(token, id, n)
    ensures i < n && k == Key(0, [Digit(i)], token) && Crowd(token, id, n)[k].cell == Data(Member(id, i))
  {
    i := n - 1;
    if k != Key(0, [Digit(i)], token) {
      i := CrowdHolds(token, id, n - 1, k);
    }
  }

  /** The next key is new, and where an eviction would look there is nothing. */
  lemma CrowdLacks(token: string, id: string, n: nat)
    requires n < 10
    ensures Key(0, [Digit(n)], token) !in Crowd(token, id, n)
    ensures token != id ==> forall i: nat :: i < 10 ==> KeyOf(Member(id, i)) !in Crowd(token, id, n)
  {
    var st := Crowd(token, id, n);
    if Key(0, [Digit(n)], token) in st {
      var i := CrowdHolds(token, id, n, Key(0, [Digit(n)], token));
      MemberKeys(i, n, token, token);
    }
    forall i: nat | i < 10 && token != id
      ensures KeyOf(Member(id, i)) !in st
    {
      if KeyOf(Member(id, i)) in st {
        var j := CrowdHolds(token, id, n, KeyOf(Member(id, i)));
        MemberKeys(i, j, id, token);
      }
    }
  }

  lemma {:induction false} CrowdActive(token: string, id: string, n: nat)
    requires n <= 10
    ensures |ActiveKeys(Crowd(token, id, n), 0, 0)| == n
  {
    if n == 0 {
      assert ActiveKeys(Crowd(token, id, 0), 0, 0) == {};
    } else {
      var key := Key(0, [Digit(n - 1)], token);
      CrowdActive(token, id, n - 1);
      CrowdLacks(token, id, n - 1);
      PatternsAreExact(0, 0, [Digit(n - 1)], token);
      ActiveAfterWrite(Crowd(token, id, n - 1), key, Saved(Member(id, n - 1), 0), 0, 0);
      assert key !in ActiveKeys(Crowd(token, id, n - 1), 0, 0);
    }
  }

  /** The sixth finds five, evicts one of them in vain and is cached as well. */
  lemma SixthJoins(token: string, id: string)
    requires token != id
    ensures Step(Crowd(token, id, 5), Join(token, id, 5), Crowd(token, id, 6))
    ensures |ActiveKeys(Crowd(token, id, 6), 0, 0)| == MAX_SESSIONS + 1
  {
    var st := Crowd(token, id, 5);
    var active := ActiveKeys(st, 0, 0);
    CrowdActive(token, id, 5);
    CrowdActive(token, id, 6);
    CrowdLacks(token, id, 5);
    forall k | k in active
      ensures k in st && st[k].cell.Data? && st[k].cell.v.lastActivityAt == 0 && KeyOf(st[k].cell.v) !in st
    {
      var i := CrowdHolds(token, id, 5, k);
    }
    assert active != {};
    var k :| k in active;
    NothingToEvict(st, active, k);
    assert Oldest(st, active, k);
    assert Crowd(token, id, 6) == Evicted(st, Member(id, 5), token, 0, k);
  }

  lemma FirstFiveJoin(token: string, id: string, n: nat)
    requires n < MAX_SESSIONS
    ensures Step(Crowd(token, id, n), Join(token, id, n), Crowd(token, id, n + 1))
  {
    CrowdActive(token, id, n);
  }

  /** Six sessions of one user under one token that is not their SessionID. */
  lemma CrowdIsRun(tokenOf: string -> string, id: string) returns (states: seq<Sessions>, events: seq<Event>)
    requires tokenOf(id) != id
    ensures IsRun(states, events, tokenOf) && |events| == 6 && !Capped(states[6], 0) && events[5].at == 0
  {
    var token := tokenOf(id);
    states := seq(7, i requires 0 <= i < 7 => Crowd(token, id, i));
    events := seq(6, i requires 0 <= i < 6 => Join(token, id, i));
    forall i | 0 <= i < 6
      ensures Step(states[i], events[i], states[i + 1])
    {
      if i < 5 { FirstFiveJoin(token, id, i); } else { SixthJoins(token, id); }
    }
    SixthJoins(token, id);
    assert |ActiveKeys(states[6], 0, 0)| > MAX_SESSIONS;
  }

  /** The limit holds exactly when every session is cached under its own SessionID:
      the eviction deletes the key that the SessionID gives. */
  lemma {:induction false} CapNeedsSessionIds(tokenOf: string -> string)
    ensures AlwaysCapped(tokenOf) <==> forall id :: tokenOf(id) == id
  {
    if forall id :: tokenOf(id) == id {
      forall states: seq<Sessions>, events: seq<Event>, n: nat, now: int
        | IsRun(states, events, tokenOf) && n <= |events| && (n > 0 ==> events[n - 1].at <= now)
        ensures Capped(states[n], now)
      {
        RunKeeps(states, events, tokenOf, n, now);
      }
    } else {
      var id :| tokenOf(id) != id;
      var states, events := CrowdIsRun(tokenOf, id);
    }
  }

  // ---------- revocation ----------

  /** Under the key k there is nothing, or a revoked session. */
  ghost predicate Silenced(st: Sessions, k: string) {
    k in st && st[k].cell.Data? ==> st[k].cell.v.isRevoked
  }

  predicate CachesUnder(e: Event, k: string) {
    e.CacheIt? && Key(e.session.userId, e.session.ipAddress, e.token) == k
  }

  /** The event ends the session under k: it is revoked while live, or invalidated. */
  ghost predicate Ends(st: Sessions, e: Event, k: string) {
    match e
    case Revoke(u, ip, token, at) => k == Key(u, ip, token) && Live(Lookup(st, k), at)
    case Drop(u, ip, token, _) => k == Key(u, ip, token)
    case DropAll(u, at) => Live(Lookup(st, k), at) && Match(AllDevicesPattern(u), k)
    case DropOthers(u, keep, at) =>
      && Live(Lookup(st, k), at) && Match(UserPattern(u), k) && !ContainsToken(k, keep)
      && forall x :: x in Scan(st, UserPattern(u), at) ==> !ContainsPanics(x, keep)
    case _ => false
  }

  lemma EndSilences(st: Sessions, e: Event, st': Sessions, k: string)
    requires Step(st, e, st') && Ends(st, e, k)
    ensures Silenced(st', k)
  {
  }

  /** A user's active sessions: those cached for that user and still there, neither
      revoked nor expired. */
  lemma {:induction false} ActiveMeans(st: Sessions, u: int, now: int, k: string)
    requires WellKeyed(st) && k in st
    ensures k in ActiveKeys(st, u, now) <==>
      var s := st[k].cell.v;
      s.userId == u && !s.isRevoked && now <= s.expiresAt && Live(Lookup(st, k), now)
  {
    KeyIsOwn(st[k].cell.v, u);
  }

  /** A session that is written at `at` stays until it expires; one that has expired by
      then for 24 hours, not being active. */
  lemma SavedLives(st: Sessions, key: string, s: Session, at: int, now: int)
    requires at <= now
    ensures Live(Lookup(Write(st, key, Saved(s, at)), key), now) <==>
      now < (if at < s.expiresAt then s.expiresAt else at + 24 * HOUR)
    ensures ActiveSlot(Saved(s, at), now) <==> (!s.isRevoked && (now < s.expiresAt || at == now == s.expiresAt))
  {
  }

  /** A touched session is as active as the clock says, and nothing else about it
      changes; a revoked one is revoked and otherwise the same. */
  lemma {:induction false} RewrittenMeans(st: Sessions, e: Event, st': Sessions)
    requires Step(st, e, st') && (e.Touch? || e.Revoke?)
    ensures var k := Key(e.userId, e.ip, e.token);
      && (forall x :: x != k ==> Lookup(st', x) == Lookup(st, x))
      && (k in st && Live(Lookup(st, k), e.at) && st[k].cell.Data? ==>
            && k in st'
            && st'[k].cell == Data(if e.Touch? then st[k].cell.v.(lastActivityAt := e.at)
                                   else st[k].cell.v.(isRevoked := true)))
  {
  }

  lemma StepSilent(st: Sessions, e: Event, st': Sessions, k: string)
    requires Step(st, e, st') && Silenced(st, k) && !CachesUnder(e, k)
    ensures Silenced(st', k)
  {
  }

  lemma KeyEnds(userId: int, ip: string, token: string, keep: string)
    requires |token| == |keep|
    ensures Suffixed(Key(userId, ip, token), keep) <==> token == keep
    ensures !ContainsPanics(Key(userId, ip, token), keep)
  {
    var k := Key(userId, ip, token);
    assert k[|k| - |keep|..] == token;
  }

  /** Logout from the other devices, with tokens of one length: of the user's sessions
      exactly that of the token to keep remains, and of others' all. */
  lemma {:induction false} LogoutElsewhere(st: Sessions, userId: int, keep: string, now: int, st': Sessions, k: string)
    requires WellKeyed(st) && Step(st, DropOthers(userId, keep, now), st') && keep != ""
    requires forall x :: x in st && st[x].cell.v.userId == userId ==> |st[x].cell.v.sessionId| == |keep|
    requires k in st && Live(Lookup(st, k), now)
    ensures k in st' <==> st[k].cell.v.userId != userId || st[k].cell.v.sessionId == keep
    ensures k in st' ==> st'[k] == st[k]
  {
    forall x | x in st
      ensures Match(UserPattern(userId), x) <==> userId == st[x].cell.v.userId
      ensures st[x].cell.v.userId == userId ==>
        (ContainsToken(x, keep) <==> st[x].cell.v.sessionId == keep) && !ContainsPanics(x, keep)
    {
      var s := st[x].cell.v;
      KeyIsOwn(s, userId);
      if s.userId == userId {
        KeyEnds(s.userId, s.ipAddress, s.sessionId, keep);
      }
    }
  }

  /** In every run, a session that has been revoked or invalidated is not among the active
      ones again, for anybody, until one is cached under its key. */
  lemma {:induction false} EndedStaysOut(states: seq<Sessions>, events: seq<Event>, tokenOf: string -> string,
                                         r: nat, n: nat, k: string, u: int, now: int)
    requires IsRun(states, events, tokenOf) && r < n <= |events| && Ends(states[r], events[r], k)
    requires forall i :: r < i < n ==> !CachesUnder(events[i], k)
    ensures Silenced(states[n], k) && k !in ActiveKeys(states[n], u, now)
    decreases n
  {
    if n == r + 1 {
      EndSilences(states[r], events[r], states[n], k);
    } else {
      EndedStaysOut(states, events, tokenOf, r, n - 1, k, u, now);
      StepSilent(states[n - 1], events[n - 1], states[n], k);
    }
  }

  // ---------- the service ----------

  /** The sessions found are those under the active keys, each at least once. */
  ghost predicate Lists(st: Sessions, keys: set<string>, sessions: seq<Session>) {
    && |sessions| >= |keys|
    && (forall k :: k in keys ==> k in st && st[k].cell.Data? && st[k].cell.v in sessions)
    && (forall i :: 0 <= i < |sessions| ==> exists k :: k in keys && st[k].cell == Data(sessions[i]))
  }

  lemma {:induction false} SomeOldest(sessions: seq<Session>) returns (i: nat)
    requires sessions != []
    ensures i < |sessions| && forall s :: s in sessions ==> sessions[i].lastActivityAt <= s.lastActivityAt
  {
    i := 0;
    for j := 1 to |sessions|
      invariant i < j && forall k :: 0 <= k < j ==> sessions[i].lastActivityAt <= sessions[k].lastActivityAt
    {
      if sessions[j].lastActivityAt < sessions[i].lastActivityAt {
        i := j;
      }
    }
  }

  class SessionCacheService {
    const cache: RedisClient<Session>

    constructor (cache: RedisClient<Session>)
      ensures this.cache == cache
    {
      this.cache := cache;
    }

    /** SCAN may return a key more than once, and the slice keeps the repetitions. */
    method GetKeysByPattern(pattern: string, now: int) returns (keys: seq<string>)
      ensures forall k :: k in keys <==> k in Scan(cache.store, pattern, now)
    {
      var todo := Scan(cache.store, pattern, now);
      keys := [];
      while todo != {}
        invariant forall k :: k in keys || k in todo <==> k in Scan(cache.store, pattern, now)
        decreases todo
      {
        var key :| key in todo;
        keys, todo := keys + [key], todo - {key};
        if * {
          keys := keys + [key];
        }
      }
    }

    method GetUserActiveSessions(userId: int, now: int) returns (sessions: seq<Session>)
      ensures Lists(cache.store, ActiveKeys(cache.store, userId, now), sessions)
    {
      var keys := GetKeysByPattern(UserPattern(userId), now);
      ghost var done: set<string> := {};
      sessions := [];
      for i := 0 to |keys|
        invariant forall k :: k in done <==> k in keys[..i] && ActiveAt(cache.store, k, now)
        invariant Lists(cache.store, done, sessions)
      {
        var key := keys[i];
        var got := cache.Get(key, now);
        if got.Some? && got.value.Data? && IsActive(got.value.v, now) {
          ghost var before := sessions;
          sessions := sessions + [got.value.v];
          done := done + {key};
          assert forall j :: 0 <= j < |before| ==> sessions[j] == before[j];
          assert cache.store[key].cell == Data(sessions[|before|]);
        }
        assert forall k :: k in keys[..i + 1] <==> k in keys[..i] || k == key;
      }
      assert keys[..|keys|] == keys;
      assert done == ActiveKeys(cache.store, userId, now);
    }

    method SetSession(key: string, session: Session, now: int)
      modifies cache
      ensures cache.store == Write(old(cache.store), key, Saved(session, now))
    {
      var ttl := session.expiresAt - now;
      if ttl <= 0 {
        ttl := FALLBACK_TTL;
      }
      cache.Set(key, Data(session), ttl, now);
    }

    method CacheUserSession(session: Session, token: string, now: int)
      modifies cache
      ensures Step(old(cache.store), CacheIt(session, token, now), cache.store)
    {
      ghost var st := cache.store;
      var key := Key(session.userId, session.ipAddress, token);
      var activeSessions := GetUserActiveSessions(session.userId, now);
      if |activeSessions| >= MAX_SESSIONS {
        ghost var w := SomeOldest(activeSessions);
        assert activeSessions[w] in activeSessions;
        var oldestSession :| oldestSession in activeSessions &&
          forall s :: s in activeSessions ==> oldestSession.lastActivityAt <= s.lastActivityAt;
        ghost var active := ActiveKeys(st, session.userId, now);
        ghost var k :| k in active && st[k].cell == Data(oldestSession);
        assert Oldest(st, active, k);
        cache.Delete(Key(oldestSession.userId, oldestSession.ipAddress, oldestSession.sessionId));
      }
      SetSession(key, session, now);
    }

    method UpdateSessionActivity(userId: int, ip: string, token: string, now: int) returns (ok: bool)
      modifies cache
      ensures Step(old(cache.store), Touch(userId, ip, token, now), cache.store)
      ensures ok <==> var x := Read(Lookup(old(cache.store), Key(userId, ip, token)), now); x.Some? && x.value.Data?
    {
      var key := Key(userId, ip, token);
      var got := cache.Get(key, now);
      if got.None? || got.value.Integer? {
        return false;
      }
      SetSession(key, got.value.v.(lastActivityAt := now), now);
      return true;
    }

    method RevokeUserSession(userId: int, ip: string, token: string, now: int) returns (ok: bool)
      modifies cache
      ensures Step(old(cache.store), Revoke(userId, ip, token, now), cache.store)
      ensures ok <==> var x := Read(Lookup(old(cache.store), Key(userId, ip, token)), now); x.Some? && x.value.Data?
    {
      var key := Key(userId, ip, token);
      var got := cache.Get(key, now);
      if got.None? || got.value.Integer? {
        return false;
      }
      SetSession(key, got.value.v.(isRevoked := true), now);
      return true;
    }

    method InvalidateUserSession(userId: int, ip: string, token: string, now: int)
      modifies cache
      ensures Step(old(cache.store), Drop(userId, ip, token, now), cache.store)
    {
      cache.Delete(Key(userId, ip, token));
    }

    method InvalidateUserSessions(userId: int, now: int)
      modifies cache
      ensures Step(old(cache.store), DropAll(userId, now), cache.store)
    {
      var keys := GetKeysByPattern(AllDevicesPattern(userId), now);
      ghost var gone: set<string> := {};
      for i := 0 to |keys|
        invariant cache.store == old(cache.store) - gone
        invariant forall k :: k in gone <==> k in keys[..i]
      {
        cache.Delete(keys[i]);
        gone := gone + {keys[i]};
        assert forall k :: k in keys[..i + 1] <==> k in keys[..i] || k == keys[i];
      }
      assert keys[..|keys|] == keys;
      assert gone == Scan(old(cache.store), AllDevicesPattern(userId), now);
    }

    /** Logout from the other devices.  It panics exactly when one of the user's live
        keys is shorter than the token to keep; the keys come in any order. */
    method InvalidateUserSessionsExcept(userId: int, exceptToken: string, now: int) returns (panicked: bool)
      modifies cache
      ensures Step(old(cache.store), DropOthers(userId, exceptToken, now), cache.store)
      ensures panicked <==>
        exists k :: k in Scan(old(cache.store), UserPattern(userId), now) && ContainsPanics(k, exceptToken)
    {
      var keys := GetKeysByPattern(UserPattern(userId), now);
      ghost var doomed := set k | k in keys && !ContainsToken(k, exceptToken);
      assert doomed == set k | k in Scan(old(cache.store), UserPattern(userId), now) && !ContainsToken(k, exceptToken);
      ghost var gone: set<string> := {};
      for i := 0 to |keys|
        invariant cache.store == old(cache.store) - gone && gone <= doomed
        invariant forall k :: k in keys[..i] ==> !ContainsPanics(k, exceptToken)
        invariant forall k :: k in gone <==> k in keys[..i] && !ContainsToken(k, exceptToken)
      {
        var key := keys[i];
        if ContainsPanics(key, exceptToken) {
          return true;
        }
        if !ContainsToken(key, exceptToken) {
          cache.Delete(key);
          gone := gone + {key};
        }
        assert forall k :: k in keys[..i + 1] <==> k in keys[..i] || k == key;
      }
      assert keys[..|keys|] == keys;
      assert gone == doomed;
      return false;
    }
  }
}
