/** Refresh-token rotation.  A rotated token is put on a revocation list in Redis for
    seven days, whatever its own expiry; the token itself carries an `exp` claim
    (section 4.1.4 of RFC 7519) in whole seconds.  A token is its claims: two tokens
    signed for one user in the same second are the same string. */
module TokenRotation {
  import opened Basics
  import opened Redis

  datatype Token = Token(userId: int, email: string, role: string, issuedAt: int, expiresAt: int)

  datatype User = User(id: int, email: string, role: string, status: string)

  /** The configured lifetime of refresh tokens, and whether a revocation service is
      wired in. */
  datatype Config = Config(refreshExpiry: int, revocation: bool)

  /** Dates in claims are cut to whole seconds. */
  function NumericDate(t: nat): nat {
    t / SECOND * SECOND
  }

  function DateAt(t: int): int {
    if t >= 0 then NumericDate(t) else t
  }

  lemma Seconds(t: nat)
    ensures NumericDate(t) <= t < NumericDate(t) + SECOND
  {
  }

  function GenerateRefreshToken(c: Config, u: User, now: nat): Token {
    Token(u.id, u.email, u.role, NumericDate(now), DateAt(now + c.refreshExpiry))
  }

  type Revocations = map<Token, Entry<()>>

  function SlotOf(r: Revocations, t: Token): Slot<()> {
    if t in r then Some(r[t]) else None
  }

  /** RevokeToken: an expiry that has passed still revokes for an hour. */
  function RevokeSlot(expiresAt: int, now: nat): Slot<()> {
    var ttl := expiresAt - now;
    SetSlot(Data(()), if ttl <= 0 then HOUR else ttl, now)
  }

  /** `rotated` and `chains` are history: the tokens whose rotation succeeded, and for
      every login its token and those rotation derived from it. */
  datatype State = State(
    issued: set<Token>,
    revoked: Revocations,
    rotated: set<Token>,
    chains: seq<seq<Token>>)

  const START := State({}, map[], {}, [])

  predicate IsTokenRevoked(s: State, t: Token, now: nat) {
    Live(SlotOf(s.revoked, t), now)
  }

  /** Signature and expiry. */
  predicate ValidateRefreshToken(s: State, t: Token, now: nat) {
    t in s.issued && now < t.expiresAt
  }

  /** Rotation gets past the revocation list and the validation. */
  predicate Accepts(c: Config, s: State, t: Token, now: nat) {
    !(c.revocation && IsTokenRevoked(s, t, now)) && ValidateRefreshToken(s, t, now)
  }

  datatype Outcome = Rotated(refresh: Token, refreshExpiresAt: int) | Unauthorized | NotFound | Forbidden

  predicate MayRotate(u: User) {
    u.status == "Active" || u.status == "Verified"
  }

  datatype UserLookup = Found(user: User) | Missing

  /** The rotation service: it looks up, checks and builds a pair, and changes nothing. */
  function Rotate(c: Config, s: State, t: Token, user: UserLookup, now: nat): Outcome {
    if !ValidateRefreshToken(s, t, now) then Unauthorized
    else match user
      case Missing => NotFound
      case Found(u) =>
        if !MayRotate(u) then Forbidden else Rotated(GenerateRefreshToken(c, u, now), now + WEEK)
  }

  /** The handler: check the list, rotate, put the old token on the list. */
  function Handle(c: Config, s: State, t: Token, user: UserLookup, now: nat): (State, Outcome) {
    if c.revocation && IsTokenRevoked(s, t, now) then (s, Unauthorized)
    else
      var r := Rotate(c, s, t, user, now);
      if !r.Rotated? then (s, r)
      else
        (State(s.issued + {r.refresh},
               if c.revocation then s.revoked[t := RevokeSlot(r.refreshExpiresAt, now).value] else s.revoked,
               s.rotated + {t},
               Extended(s.chains, t, r.refresh)), r)
  }

  function Extended(chains: seq<seq<Token>>, t: Token, successor: Token): seq<seq<Token>> {
    seq(|chains|, i requires 0 <= i < |chains| =>
      if chains[i] != [] && chains[i][|chains[i]| - 1] == t then chains[i] + [successor] else chains[i])
  }

  datatype Event =
    | Login(user: User, at: nat)
    | Present(token: Token, lookup: UserLookup, at: nat)
    | Revoke(token: Token, at: nat)

  function Step(c: Config, s: State, e: Event): State {
    match e
    case Login(u, now) =>
      var t := GenerateRefreshToken(c, u, now);
      s.(issued := s.issued + {t}, chains := s.chains + [[t]])
    case Present(t, user, now) => Handle(c, s, t, user, now).0
    case Revoke(t, now) => if c.revocation then s.(revoked := s.revoked[t := RevokeSlot(now + WEEK, now).value]) else s
  }

  function Run(c: Config, es: seq<Event>): State {
    if es == [] then START else Step(c, Run(c, es[..|es| - 1]), es[|es| - 1])
  }

  ghost predicate InOrder(es: seq<Event>) {
    forall i, j :: 0 <= i < j < |es| ==> es[i].at <= es[j].at
  }

  ghost predicate Before(es: seq<Event>, now: nat) {
    es != [] ==> es[|es| - 1].at <= now
  }

  /** In every run, a token that has been rotated is not accepted at any later time. */
  ghost predicate NeverReused(c: Config) {
    forall es: seq<Event>, t: Token, q: nat ::
      InOrder(es) && Before(es, q) && t in Run(c, es).rotated ==> !Accepts(c, Run(c, es), t, q)
  }

  /** Tokens are dead on arrival, or the list outlives every token. */
  predicate Safe(c: Config) {
    c.refreshExpiry <= 0 || (c.revocation && c.refreshExpiry <= WEEK)
  }

  // ---------- safe configurations ----------

  ghost predicate Protected(c: Config, s: State, now: int) {
    && (forall t :: t in s.issued ==> t.expiresAt <= now + c.refreshExpiry)
    && (forall t :: t in s.rotated ==> t in s.issued)
    && (c.refreshExpiry > 0 ==>
          forall t :: t in s.rotated ==>
            t in s.revoked && s.revoked[t].expiry.Some? && t.expiresAt <= s.revoked[t].expiry.value)
  }

  lemma StepProtected(c: Config, s: State, e: Event, before: int)
    requires Safe(c) && Protected(c, s, before) && before <= e.at
    ensures Protected(c, Step(c, s, e), e.at)
  {
    match e {
      case Login(u, now) => NewTokenExpiry(c, u, now);
      case Present(t, user, now) =>
        if user.Found? {
          NewTokenExpiry(c, user.user, now);
        }
      case Revoke(_, _) =>
    }
  }

  lemma NewTokenExpiry(c: Config, u: User, now: nat)
    ensures GenerateRefreshToken(c, u, now).expiresAt <= now + c.refreshExpiry
  {
    if now + c.refreshExpiry >= 0 {
      Seconds(now + c.refreshExpiry);
    }
  }

  lemma {:induction false} RunProtected(c: Config, es: seq<Event>, now: nat)
    requires Safe(c) && InOrder(es) && Before(es, now)
    ensures Protected(c, Run(c, es), now)
    decreases |es|
  {
    if es != [] {
      var n := |es| - 1;
      RunProtected(c, es[..n], es[n].at);
      StepProtected(c, Run(c, es[..n]), es[n], es[n].at);
    }
  }

  lemma ProtectedNotAccepted(c: Config, s: State, t: Token, now: nat)
    requires Safe(c) && Protected(c, s, now) && t in s.rotated
    ensures !Accepts(c, s, t, now)
  {
  }

  // ---------- unsafe configurations ----------

  /** A login in the last nanosecond of a second, rotated at once; when the list has
      forgotten it, the token is still good. */
  lemma ReusedToken(c: Config, u: User) returns (es: seq<Event>, t: Token, q: nat)
    requires !Safe(c) && MayRotate(u)
    ensures InOrder(es) && Before(es, q) && t in Run(c, es).rotated && Accepts(c, Run(c, es), t, q)
  {
    var at := SECOND - 1;
    t := GenerateRefreshToken(c, u, at);
    var login, rotate := Login(u, at), Present(t, Found(u), at);
    es := [login, rotate];
    q := if c.revocation then at + WEEK else at;
    DateAfter(c.refreshExpiry);
    var s1 := Step(c, START, login);
    assert es[..1] == [login] && [login][..0] == [];
    assert Run(c, [login]) == s1;
    assert Run(c, es) == Handle(c, s1, t, Found(u), at).0;
  }

  lemma DateAfter(e: int)
    requires e > 0
    ensures NumericDate(SECOND - 1 + e) > SECOND - 1
    ensures e > WEEK ==> NumericDate(SECOND - 1 + e) > SECOND - 1 + WEEK
  {
    var t := SECOND - 1 + e;
    assert t / SECOND >= 1;
    if e > WEEK {
      assert t >= SECOND * (1 + 7 * 24 * 3600);
      assert t / SECOND >= 1 + 7 * 24 * 3600;
    }
  }

  // ---------- the theorems ----------

  /** A rotated token is never accepted again exactly when refresh tokens live at most
      seven days and a revocation service is present (or no token is ever valid). */
  lemma RotatedTokensNeverReused(c: Config)
    ensures NeverReused(c) <==> c.refreshExpiry <= 0 || (c.revocation && c.refreshExpiry <= WEEK)
  {
    if Safe(c) {
      forall es: seq<Event>, t: Token, q: nat | InOrder(es) && Before(es, q) && t in Run(c, es).rotated
        ensures !Accepts(c, Run(c, es), t, q)
      {
        RunProtected(c, es, q);
        ProtectedNotAccepted(c, Run(c, es), t, q);
      }
    } else {
      var es, t, q := ReusedToken(c, User(0, "", "", "Active"));
    }
  }

  ghost predicate ChainsRotated(s: State) {
    && (forall i, k :: 0 <= i < |s.chains| && 0 <= k < |s.chains[i]| - 1 ==> s.chains[i][k] in s.rotated)
    && (forall i :: 0 <= i < |s.chains| ==> s.chains[i] != [])
  }

  lemma {:induction false} RunChainsRotated(c: Config, es: seq<Event>)
    ensures ChainsRotated(Run(c, es))
    decreases |es|
  {
    if es != [] {
      var n := |es| - 1;
      RunChainsRotated(c, es[..n]);
      StepChainsRotated(c, Run(c, es[..n]), es[n]);
    }
  }

  lemma StepChainsRotated(c: Config, s: State, e: Event)
    requires ChainsRotated(s)
    ensures ChainsRotated(Step(c, s, e))
  {
  }

  /** Of the tokens that stem from one login, at most the newest is accepted. */
  lemma OneLiveTokenPerChain(c: Config, es: seq<Event>, i: nat, t: Token, now: nat)
    requires Safe(c) && InOrder(es) && Before(es, now)
    requires i < |Run(c, es).chains| && t in Run(c, es).chains[i] && Accepts(c, Run(c, es), t, now)
    ensures var chain := Run(c, es).chains[i];
      |chain| > 0 && t == chain[|chain| - 1] && t !in chain[..|chain| - 1]
  {
    var s := Run(c, es);
    RunChainsRotated(c, es);
    RunProtected(c, es, now);
    var chain := s.chains[i];
    forall k | 0 <= k < |chain| - 1
      ensures chain[k] != t
    {
      ProtectedNotAccepted(c, s, chain[k], now);
    }
  }

  // ---------- whose tokens these are ----------

  /** The users that have logged in, one for every chain. */
  function Logins(es: seq<Event>): seq<User> {
    if es == [] then []
    else
      var e := es[|es| - 1];
      Logins(es[..|es| - 1]) + if e.Login? then [e.user] else []
  }

  /** The user table answers for the user whose token is presented. */
  ghost predicate LooksUpOwners(es: seq<Event>) {
    forall k :: 0 <= k < |es| && es[k].Present? && es[k].lookup.Found? ==> es[k].lookup.user.id == es[k].token.userId
  }

  /** A token signed for this user at this instant. */
  predicate SignedFor(c: Config, t: Token, u: User, now: nat) {
    && t.userId == u.id && t.email == u.email && t.role == u.role
    && t.issuedAt <= now < t.issuedAt + SECOND
    && (now + c.refreshExpiry >= 0 ==> t.expiresAt <= now + c.refreshExpiry < t.expiresAt + SECOND)
  }

  /** A rotation hands out a token for the user found: the current email and role, and
      dates cut to whole seconds. */
  lemma HandsOut(c: Config, s: State, t: Token, lookup: UserLookup, now: nat)
    requires Handle(c, s, t, lookup, now).1.Rotated?
    ensures lookup.Found? && MayRotate(lookup.user)
    ensures SignedFor(c, Handle(c, s, t, lookup, now).1.refresh, lookup.user, now)
  {
    Seconds(now);
    if now + c.refreshExpiry >= 0 {
      Seconds(now + c.refreshExpiry);
    }
  }

  ghost predicate OwnedBy(s: State, users: seq<User>) {
    && |s.chains| == |users|
    && (forall i, k :: 0 <= i < |s.chains| && 0 <= k < |s.chains[i]| ==> s.chains[i][k].userId == users[i].id)
  }

  lemma StepOwned(c: Config, s: State, e: Event, users: seq<User>)
    requires OwnedBy(s, users)
    requires e.Present? && e.lookup.Found? ==> e.lookup.user.id == e.token.userId
    ensures OwnedBy(Step(c, s, e), users + if e.Login? then [e.user] else [])
  {
    if e.Present? && Handle(c, s, e.token, e.lookup, e.at).1.Rotated? {
      HandsOut(c, s, e.token, e.lookup, e.at);
    }
  }

  /** In every run with an honest user table, all tokens of a chain are those of the user
      whose login started it. */
  lemma {:induction false} ChainsHaveOneOwner(c: Config, es: seq<Event>)
    requires LooksUpOwners(es)
    ensures OwnedBy(Run(c, es), Logins(es))
    decreases |es|
  {
    if es != [] {
      var n := |es| - 1;
      ChainsHaveOneOwner(c, es[..n]);
      StepOwned(c, Run(c, es[..n]), es[n], Logins(es[..n]));
    }
  }

  /** A revocation lasts until the given instant, or for an hour if that has passed. */
  lemma RevocationLasts(r: Revocations, t: Token, expiresAt: int, now: nat, q: nat)
    ensures Live(SlotOf(r[t := RevokeSlot(expiresAt, now).value], t), q) <==>
      q < (if now < expiresAt then expiresAt else now + HOUR)
  {
  }

  // ---------- when a token is accepted, by events ----------

  /** The event puts the token into somebody's hands. */
  predicate Issues(c: Config, s: State, e: Event, t: Token) {
    match e
    case Login(u, now) => t == GenerateRefreshToken(c, u, now)
    case Present(presented, user, now) =>
      var r := Handle(c, s, presented, user, now).1;
      r.Rotated? && t == r.refresh
    case Revoke(_, _) => false
  }

  /** The event puts the token on the list: it is rotated, or revoked. */
  predicate Lists(c: Config, s: State, e: Event, t: Token) {
    match e
    case Login(_, _) => false
    case Present(presented, user, now) => t == presented && Handle(c, s, presented, user, now).1.Rotated?
    case Revoke(revoked, _) => t == revoked
  }

  ghost predicate Issued(c: Config, es: seq<Event>, t: Token) {
    exists k :: IssuedAt(c, es, t, k)
  }

  ghost predicate IssuedAt(c: Config, es: seq<Event>, t: Token, k: int) {
    0 <= k < |es| && Issues(c, Run(c, es[..k]), es[k], t)
  }

  /** When the token was last put on the list. */
  function LastListed(c: Config, es: seq<Event>, t: Token): Option<nat> {
    if es == [] then None
    else
      var init, e := es[..|es| - 1], es[|es| - 1];
      if Lists(c, Run(c, init), e, t) then Some(e.at) else LastListed(c, init, t)
  }

  /** It was put on the list less than seven days before q. */
  predicate ListedLately(c: Config, es: seq<Event>, t: Token, q: nat) {
    var last := LastListed(c, es, t);
    last.Some? && q < last.value + WEEK
  }

  lemma {:induction false} IssuedIs(c: Config, es: seq<Event>, t: Token)
    ensures t in Run(c, es).issued <==> Issued(c, es, t)
    decreases |es|
  {
    if es != [] {
      var n := |es| - 1;
      var init := es[..n];
      IssuedIs(c, init, t);
      forall k | 0 <= k < n
        ensures IssuedAt(c, init, t, k) <==> IssuedAt(c, es, t, k)
      {
        assert init[..k] == es[..k];
      }
      assert IssuedAt(c, es, t, n) <==> Issues(c, Run(c, init), es[n], t);
      if k :| IssuedAt(c, init, t, k) {
        assert IssuedAt(c, es, t, k);
      }
    }
  }

  /** The entry on the list is that of the last event that put the token there. */
  lemma {:induction false} ListIs(c: Config, es: seq<Event>, t: Token)
    requires c.revocation
    ensures SlotOf(Run(c, es).revoked, t) ==
      match LastListed(c, es, t)
      case None => None
      case Some(at) => Some(Entry(Data(()), Some(at + WEEK)))
    decreases |es|
  {
    if es != [] {
      ListIs(c, es[..|es| - 1], t);
    }
  }

  /** After any run, a token is accepted exactly if some login or rotation has issued it,
      it has not expired, and it was not rotated or revoked in the last seven days. */
  lemma {:induction false} AcceptedByEvents(c: Config, es: seq<Event>, t: Token, q: nat)
    ensures Accepts(c, Run(c, es), t, q) <==>
      Issued(c, es, t) && q < t.expiresAt && !(c.revocation && ListedLately(c, es, t, q))
  {
    IssuedIs(c, es, t);
    if c.revocation {
      ListIs(c, es, t);
    }
  }

  /** After any run, the answer to a rotation: unauthorized exactly if the token is not
      accepted, then not found without the user, and forbidden unless the user is active
      or verified.  A refusal changes nothing. */
  lemma {:induction false} RotationAnswers(c: Config, es: seq<Event>, t: Token, lookup: UserLookup, now: nat)
    ensures
      var s := Run(c, es);
      var (s', outcome) := Handle(c, s, t, lookup, now);
      var good := Issued(c, es, t) && now < t.expiresAt && !(c.revocation && ListedLately(c, es, t, now));
      && (outcome.Unauthorized? <==> !good)
      && (outcome.NotFound? <==> good && lookup.Missing?)
      && (outcome.Forbidden? <==> good && lookup.Found? && lookup.user.status !in {"Active", "Verified"})
      && (outcome.Rotated? <==> good && lookup.Found? && lookup.user.status in {"Active", "Verified"})
      && (!outcome.Rotated? ==> s' == s)
  {
    AcceptedByEvents(c, es, t, now);
  }

  // ---------- is the successor any good? ----------

  /** After any run, the token that a rotation hands out is accepted until it expires,
      unless it is the token that it replaces, which was listed just now, or was itself
      listed in the last seven days. */
  lemma {:induction false} SuccessorAccepted(c: Config, es: seq<Event>, t: Token, lookup: UserLookup, now: nat, q: nat)
    requires now <= q && Handle(c, Run(c, es), t, lookup, now).1.Rotated?
    ensures
      var n := Handle(c, Run(c, es), t, lookup, now).1.refresh;
      Accepts(c, Run(c, es + [Present(t, lookup, now)]), n, q) <==>
        q < n.expiresAt && !(c.revocation && (if n == t then q < now + WEEK else ListedLately(c, es, n, q)))
  {
    var n, all := Handle(c, Run(c, es), t, lookup, now).1.refresh, es + [Present(t, lookup, now)];
    assert all[..|es|] == es;
    assert IssuedAt(c, all, n, |es|);
    AcceptedByEvents(c, all, n, q);
  }

  lemma ChainExtended(c: Config, es: seq<Event>, t: Token, lookup: UserLookup, now: nat, i: nat)
    requires Handle(c, Run(c, es), t, lookup, now).1.Rotated? && i < |Run(c, es).chains|
    requires var chain := Run(c, es).chains[i]; chain != [] && chain[|chain| - 1] == t
    ensures
      var n, s' := Handle(c, Run(c, es), t, lookup, now).1.refresh, Run(c, es + [Present(t, lookup, now)]);
      |s'.chains| == |Run(c, es).chains| && s'.chains[i] == Run(c, es).chains[i] + [n] && t in s'.rotated
  {
    var all := es + [Present(t, lookup, now)];
    assert all[..|es|] == es;
  }

  /** After any run, when the newest token of a login is rotated: some token of that
      login is accepted at q exactly if the successor is a new one, has not expired, and
      was not rotated or revoked, on behalf of another login, in the last seven days.
      It is a new one unless its claims and both its dates, in seconds, are the old ones. */
  lemma {:induction false} RotationKeepsSession(c: Config, es: seq<Event>, i: nat, t: Token, lookup: UserLookup,
                                                now: nat, q: nat)
    requires Safe(c) && c.revocation && InOrder(es) && Before(es, now) && now <= q
    requires Handle(c, Run(c, es), t, lookup, now).1.Rotated? && i < |Run(c, es).chains|
    requires var chain := Run(c, es).chains[i]; chain != [] && chain[|chain| - 1] == t
    ensures
      var n := Handle(c, Run(c, es), t, lookup, now).1.refresh;
      var s' := Run(c, es + [Present(t, lookup, now)]);
      && i < |s'.chains|
      && ((exists x :: x in s'.chains[i] && Accepts(c, s', x, q)) <==>
            q < n.expiresAt && n != t && !ListedLately(c, es, n, q))
  {
    var n := Handle(c, Run(c, es), t, lookup, now).1.refresh;
    var all := es + [Present(t, lookup, now)];
    var s' := Run(c, all);
    ChainExtended(c, es, t, lookup, now, i);
    SuccessorAccepted(c, es, t, lookup, now, q);
    RunProtected(c, all, q);
    ProtectedNotAccepted(c, s', t, q);
    assert s'.chains[i][|s'.chains[i]| - 1] == n;
    if x :| x in s'.chains[i] && Accepts(c, s', x, q) {
      OneLiveTokenPerChain(c, all, i, x, q);
      assert x == n;
    }
  }

  // ---------- the handler ----------

  class AuthHandler {
    const config: Config
    ghost var history: State
    var issued: set<Token>
    var revoked: Revocations

    ghost predicate Valid()
      reads this
    {
      history.issued == issued && history.revoked == revoked
    }

    constructor (config: Config)
      ensures Valid() && this.config == config && history == START
    {
      this.config := config;
      history, issued, revoked := START, {}, map[];
    }

    method RevokeToken(token: Token, expiresAt: int, now: nat)
      modifies this`revoked
      ensures revoked == old(revoked)[token := RevokeSlot(expiresAt, now).value]
    {
      var ttl := expiresAt - now;
      if ttl <= 0 {
        ttl := HOUR;
      }
      revoked := revoked[token := SetSlot(Data(()), ttl, now).value];
    }

    method RotateToken(cookie: Option<Token>, user: UserLookup, now: nat) returns (r: Outcome)
      requires Valid()
      modifies this
      ensures Valid()
      ensures cookie.None? ==> r == Unauthorized && history == old(history)
      ensures cookie.Some? ==> (history, r) == Handle(config, old(history), cookie.value, user, now)
    {
      if cookie.None? {
        return Unauthorized;
      }
      var refreshToken := cookie.value;
      ghost var after := Handle(config, history, refreshToken, user, now).0;
      if config.revocation {
        if Live(SlotOf(revoked, refreshToken), now) {
          return Unauthorized;
        }
      }
      if refreshToken !in issued || now >= refreshToken.expiresAt {
        return Unauthorized;
      }
      match user {
        case Missing => return NotFound;
        case Found(u) =>
          if !MayRotate(u) {
            return Forbidden;
          }
          r := Rotated(GenerateRefreshToken(config, u, now), now + WEEK);
      }
      issued := issued + {r.refresh};
      if config.revocation {
        RevokeToken(refreshToken, r.refreshExpiresAt, now);
      }
      history := after;
    }
  }
}
