/** GET /licenses behind its Redis cache, and the handlers that write licenses.

    A miss caches the whole table under the caller's key, and a write invalidates only
    the owner's key and the admin key, so another user's entry may go stale.  What a
    caller sees must still be what the table says.  The bulk handlers invalidate
    nothing: when that shows is stated exactly. */
module LicenseListCache {
  import opened Basics
  import opened Redis
  import opened Text
  import BulkRevoke

  datatype License = License(
    id: int, licenseKey: string, userId: int, status: string,
    createdAt: int, expiresAt: int, revokedAt: Option<int>, maxActivations: int)

  const FETCH_LIMIT := 10000

  /** licenseRepo.GetAll(1, 10000); the table is kept in primary-key order. */
  function Fetch(rows: seq<License>): seq<License> {
    if |rows| <= FETCH_LIMIT then rows else rows[..FETCH_LIMIT]
  }

  // ---------- the cache ----------

  function AdminKey(): string { "license:cache:admin:all" }

  function CacheKey(userId: int, isAdmin: bool): string {
    if isAdmin then AdminKey() else "license:cache:user:" + DecInt(userId)
  }

  lemma CacheKeysDistinct(a: int, b: int)
    ensures CacheKey(a, false) != AdminKey()
    ensures CacheKey(a, false) == CacheKey(b, false) ==> a == b
  {
    var n := |"license:cache:user:"|;
    assert CacheKey(a, false)[14] == 'u' && AdminKey()[14] == 'a';
    assert CacheKey(a, false)[n..] == DecInt(a) && CacheKey(b, false)[n..] == DecInt(b);
    if CacheKey(a, false) == CacheKey(b, false) {
      DecIntInjective(a, b);
    }
  }

  type ListStore = Store<seq<License>>

  function Cached(store: ListStore, userId: int, isAdmin: bool, now: int): Option<seq<License>> {
    match Read(Lookup(store, CacheKey(userId, isAdmin)), now)
    case Some(Data(ls)) => Some(ls)
    case _ => None
  }

  function InvalidateLicense(store: ListStore, owner: int): ListStore {
    Write(Write(store, CacheKey(owner, false), None), AdminKey(), None)
  }

  // ---------- what a request shows ----------

  /** The filters and the page of a request.  A `user_id` that is not a number filters
      nothing and is the same as none. */
  datatype Query = Query(status: string, userId: Option<int>, search: string, pageIndex: int, pageSize: int)

  predicate Contains(s: string, t: string) {
    Prefixed(s, t) || (s != "" && Contains(s[1..], t))
  }

  predicate Shown(l: License, userId: int, isAdmin: bool, q: Query) {
    && (isAdmin || l.userId == userId)
    && (q.status == "" || Lower(l.status) == Lower(q.status))
    && (q.userId.Some? ==> (isAdmin || q.userId.value == userId) && l.userId == q.userId.value)
    && (q.search == "" || Contains(Lower(l.licenseKey), Lower(q.search)))
  }

  function Filter(ls: seq<License>, userId: int, isAdmin: bool, q: Query): seq<License> {
    if ls == [] then []
    else
      var n := |ls| - 1;
      Filter(ls[..n], userId, isAdmin, q) + (if Shown(ls[n], userId, isAdmin, q) then [ls[n]] else [])
  }

  function Page(ls: seq<License>, q: Query): seq<License>
    requires q.pageIndex >= 1 && q.pageSize >= 1
  {
    var offset := (q.pageIndex - 1) * q.pageSize;
    if offset >= |ls| then []
    else if offset + q.pageSize > |ls| then ls[offset..]
    else ls[offset..offset + q.pageSize]
  }

  /** sort.Slice with the comparison of the requested column; it need not be stable,
      but its result is a function of the slice it is given. */
  type Sorter = seq<License> -> seq<License>

  /** The total and the page. */
  function Response(ls: seq<License>, userId: int, isAdmin: bool, q: Query, sorter: Sorter): (nat, seq<License>)
    requires q.pageIndex >= 1 && q.pageSize >= 1
  {
    var filtered := sorter(Filter(ls, userId, isAdmin, q));
    (|filtered|, Page(filtered, q))
  }

  // ---------- the writers ----------

  datatype Outcome = Ok | Forbidden | NotFound | BadRequest | ValidationError | Conflict | InternalError

  datatype State = State(rows: seq<License>, store: ListStore)

  function IndexOf(rows: seq<License>, id: int): Option<nat> {
    if rows == [] then None
    else if rows[0].id == id then Some(0)
    else match IndexOf(rows[1..], id) case None => None case Some(i) => Some(i + 1)
  }

  lemma {:induction false} IndexOfBound(rows: seq<License>, id: int)
    ensures IndexOf(rows, id).Some? ==> IndexOf(rows, id).value < |rows| && rows[IndexOf(rows, id).value].id == id
  {
    if rows != [] {
      IndexOfBound(rows[1..], id);
    }
  }

  /** What an admin's write does to the license it finds. */
  datatype Change =
    | Renew(expiresAt: int)
    | Revoke(at: int)
    | SetStatus(status: string, at: int)

  function Changed(l: License, c: Change): License {
    match c
    case Renew(expiresAt) => l.(expiresAt := expiresAt)
    case Revoke(at) => l.(status := "Revoked", revokedAt := Some(at))
    case SetStatus(status, at) => l.(status := status, revokedAt := if status == "Revoked" then Some(at) else None)
  }

  predicate ValidStatus(status: string) {
    status == "Active" || status == "Revoked" || status == "Suspended"
  }

  /** Create, change and (de)activate; `dbOk` says whether the database accepts the
      write.  Activations live in a table of their own, which the list does not load:
      `registered` says whether it holds the machine.  The license is read before the
      write and, to invalidate, once more after it; either read may fail. */
  datatype Action =
    | Create(id: int, licenseKey: string, userId: int, expiresAt: int, maxActivations: int, at: int)
    | Alter(id: int, change: Change, isAdmin: bool)
    | Activate(licenseKey: string, now: int, firstRead: bool, secondRead: bool)
    | Deactivate(licenseKey: string, registered: bool, firstRead: bool, secondRead: bool)

  /** A created license is active. */
  function NewLicense(a: Action): License
    requires a.Create?
  {
    License(a.id, a.licenseKey, a.userId, "Active", a.at, a.expiresAt, None, a.maxActivations)
  }

  function ByKey(rows: seq<License>, key: string, readOk: bool): Option<License> {
    if !readOk || rows == [] then None
    else if rows[0].licenseKey == key then Some(rows[0])
    else ByKey(rows[1..], key, readOk)
  }

  /** The activations are not loaded with the license, so that they count as none and
      a limit of zero means no limit. */
  predicate CanActivate(l: License, now: int) {
    now <= l.expiresAt && l.revokedAt.None? && l.maxActivations >= 0
  }

  function Act(s: State, a: Action, dbOk: bool): (State, Outcome) {
    match a
    case Create(_, _, _, _, _, _) =>
      var l := NewLicense(a);
      if !dbOk then (s, InternalError) else (State(s.rows + [l], InvalidateLicense(s.store, l.userId)), Ok)
    case Alter(id, c, isAdmin) =>
      if !isAdmin then (s, Forbidden)
      else if c.SetStatus? && !ValidStatus(c.status) then (s, BadRequest)
      else (
        IndexOfBound(s.rows, id);
        match IndexOf(s.rows, id)
        case None => (s, NotFound)
        case Some(i) =>
          if c.Revoke? && s.rows[i].revokedAt.Some? then (s, BadRequest)
          else if !dbOk then (s, InternalError)
          else (State(s.rows[i := Changed(s.rows[i], c)], InvalidateLicense(s.store, s.rows[i].userId)), Ok))
    case Activate(key, now, firstRead, secondRead) => (
      match ByKey(s.rows, key, firstRead)
      case None => (s, NotFound)
      case Some(l) => if !CanActivate(l, now) then (s, Conflict) else ActivationChange(s, l, secondRead, dbOk))
    case Deactivate(key, registered, firstRead, secondRead) => (
      match ByKey(s.rows, key, firstRead)
      case None => (s, NotFound)
      case Some(l) => if !registered then (s, NotFound) else ActivationChange(s, l, secondRead, dbOk))
  }

  /** The end of both activation handlers: without the second read nothing is
      invalidated, and nothing that a list shows has changed. */
  function ActivationChange(s: State, l: License, secondRead: bool, dbOk: bool): (State, Outcome) {
    if !dbOk then (s, InternalError)
    else if secondRead then (s.(store := InvalidateLicense(s.store, l.userId)), Ok)
    else (s, Ok)
  }

  /** GetLicenses: the list it works from and the cache it leaves. */
  function GetList(s: State, userId: int, isAdmin: bool, dbOk: bool, ttl: int, now: int)
    : (State, Option<seq<License>>)
  {
    match Cached(s.store, userId, isAdmin, now)
    case Some(ls) => (s, Some(ls))
    case None =>
      if !dbOk then (s, None)
      else
        var ls := Fetch(s.rows);
        (s.(store := Write(s.store, CacheKey(userId, isAdmin), SetSlot(Data(ls), ttl, now))), Some(ls))
  }

  // ---------- the invariant ----------

  /** The rows that a user may see. */
  function Own(ls: seq<License>, userId: int): seq<License> {
    if ls == [] then []
    else
      var n := |ls| - 1;
      Own(ls[..n], userId) + (if ls[n].userId == userId then [ls[n]] else [])
  }

  /** An entry is right about whom it is for, expired or not: the admin's about every
      license, a user's about the user's own. */
  ghost predicate Coherent(s: State) {
    && (AdminKey() in s.store ==> s.store[AdminKey()].cell == Data(Fetch(s.rows)))
    && (forall u :: CacheKey(u, false) in s.store ==>
          var cell := s.store[CacheKey(u, false)].cell;
          cell.Data? && Own(cell.v, u) == Own(Fetch(s.rows), u))
  }

  lemma {:induction false} FilterSeesOwn(ls: seq<License>, userId: int, q: Query)
    ensures Filter(ls, userId, false, q) == Filter(Own(ls, userId), userId, false, q)
    decreases |ls|
  {
    if ls != [] {
      var n := |ls| - 1;
      FilterSeesOwn(ls[..n], userId, q);
      var own := Own(ls[..n], userId);
      assert (own + [ls[n]])[..|own|] == own;
      assert own + [] == own;
    }
  }

  lemma FetchOwnAfterUpdate(rows: seq<License>, i: nat, l: License, userId: int)
    requires i < |rows| && rows[i].userId == l.userId != userId
    ensures Own(Fetch(rows[i := l]), userId) == Own(Fetch(rows), userId)
  {
    FetchTells(rows, rows[i := l], userId);
  }

  lemma FetchOwnAfterCreate(rows: seq<License>, l: License, userId: int)
    requires l.userId != userId
    ensures Own(Fetch(rows + [l]), userId) == Own(Fetch(rows), userId)
  {
    if |rows| < FETCH_LIMIT {
      assert (rows + [l])[..|rows|] == rows;
    } else {
      assert Fetch(rows + [l]) == Fetch(rows);
    }
  }

  /** A write that leaves everyone's rows but the owner's as they were. */
  lemma InvalidationRestores(s: State, rows: seq<License>, owner: int)
    requires Coherent(s)
    requires forall u :: u != owner ==> Own(Fetch(rows), u) == Own(Fetch(s.rows), u)
    ensures Coherent(State(rows, InvalidateLicense(s.store, owner)))
  {
    forall u
      ensures CacheKey(u, false) != AdminKey()
      ensures CacheKey(u, false) == CacheKey(owner, false) ==> u == owner
    {
      CacheKeysDistinct(u, owner);
    }
  }

  lemma ActCoherent(s: State, a: Action, dbOk: bool)
    requires Coherent(s)
    ensures Coherent(Act(s, a, dbOk).0)
  {
    match a {
      case Create(_, _, _, _, _, _) =>
        var l := NewLicense(a);
        if dbOk {
          forall u | u != l.userId
            ensures Own(Fetch(s.rows + [l]), u) == Own(Fetch(s.rows), u)
          {
            FetchOwnAfterCreate(s.rows, l, u);
          }
          InvalidationRestores(s, s.rows + [l], l.userId);
        }
      case Alter(id, c, isAdmin) =>
        IndexOfBound(s.rows, id);
        if Act(s, a, dbOk).1.Ok? {
          var i := IndexOf(s.rows, id).value;
          var l := Changed(s.rows[i], c);
          forall u | u != l.userId
            ensures Own(Fetch(s.rows[i := l]), u) == Own(Fetch(s.rows), u)
          {
            FetchOwnAfterUpdate(s.rows, i, l, u);
          }
          InvalidationRestores(s, s.rows[i := l], l.userId);
        }
      case Activate(key, _, firstRead, _) =>
        var l := ByKey(s.rows, key, firstRead);
        if l.Some? { InvalidationRestores(s, s.rows, l.value.userId); }
      case Deactivate(key, _, firstRead, _) =>
        var l := ByKey(s.rows, key, firstRead);
        if l.Some? { InvalidationRestores(s, s.rows, l.value.userId); }
    }
  }

  lemma GetCoherent(s: State, userId: int, isAdmin: bool, dbOk: bool, ttl: int, now: int)
    requires Coherent(s)
    ensures Coherent(GetList(s, userId, isAdmin, dbOk, ttl, now).0)
  {
    forall u
      ensures CacheKey(u, false) != AdminKey()
      ensures CacheKey(u, false) == CacheKey(userId, false) ==> u == userId
    {
      CacheKeysDistinct(u, userId);
    }
  }

  lemma CoherentShowsTruth(s: State, userId: int, isAdmin: bool, dbOk: bool, ttl: int, now: int, q: Query)
    requires Coherent(s)
    ensures var ls := GetList(s, userId, isAdmin, dbOk, ttl, now).1;
      ls.Some? ==> Filter(ls.value, userId, isAdmin, q) == Filter(Fetch(s.rows), userId, isAdmin, q)
  {
    var ls := GetList(s, userId, isAdmin, dbOk, ttl, now).1;
    if ls.Some? && !isAdmin {
      FilterSeesOwn(ls.value, userId, q);
      FilterSeesOwn(Fetch(s.rows), userId, q);
    }
  }

  // ---------- runs ----------

  datatype Event =
    | WriteBy(action: Action, dbOk: bool)
    | Get(userId: int, isAdmin: bool, dbOk: bool, now: int)

  function Step(s: State, e: Event, ttl: int): State {
    match e
    case WriteBy(a, dbOk) => Act(s, a, dbOk).0
    case Get(u, isAdmin, dbOk, now) => GetList(s, u, isAdmin, dbOk, ttl, now).0
  }

  function Run(s: State, es: seq<Event>, ttl: int): State {
    if es == [] then s else Step(Run(s, es[..|es| - 1], ttl), es[|es| - 1], ttl)
  }

  lemma {:induction false} RunCoherent(rows: seq<License>, es: seq<Event>, ttl: int)
    ensures Coherent(Run(State(rows, map[]), es, ttl))
    decreases |es|
  {
    if es != [] {
      var n := |es| - 1;
      RunCoherent(rows, es[..n], ttl);
      var s := Run(State(rows, map[]), es[..n], ttl);
      match es[n] {
        case WriteBy(a, dbOk) => ActCoherent(s, a, dbOk);
        case Get(u, isAdmin, dbOk, now) => GetCoherent(s, u, isAdmin, dbOk, ttl, now);
      }
    }
  }

  /** After any run of requests and writes, whatever the clock says, a request that is
      answered is answered as without a cache. */
  lemma {:induction false} CacheIsTransparent(rows: seq<License>, es: seq<Event>, ttl: int,
                           userId: int, isAdmin: bool, dbOk: bool, now: int, q: Query, sorter: Sorter)
    requires q.pageIndex >= 1 && q.pageSize >= 1
    ensures
      var s := Run(State(rows, map[]), es, ttl);
      var ls := GetList(s, userId, isAdmin, dbOk, ttl, now).1;
      && (dbOk ==> ls.Some?)
      && (ls.Some? ==>
            Response(ls.value, userId, isAdmin, q, sorter) == Response(Fetch(s.rows), userId, isAdmin, q, sorter))
  {
    RunCoherent(rows, es, ttl);
    CoherentShowsTruth(Run(State(rows, map[]), es, ttl), userId, isAdmin, dbOk, ttl, now, q);
  }

  // ---------- what the filters mean ----------

  /** A text occurs in another at some position. */
  predicate HoldsAt(s: string, t: string, i: int) {
    0 <= i <= |s| - |t| && s[i..i + |t|] == t
  }

  lemma {:induction false} ContainsIs(s: string, t: string)
    ensures Contains(s, t) <==> exists i :: HoldsAt(s, t, i)
    decreases |s|
  {
    assert HoldsAt(s, t, 0) <==> Prefixed(s, t);
    if s != "" {
      ContainsIs(s[1..], t);
      forall i | i >= 0
        ensures HoldsAt(s[1..], t, i) <==> HoldsAt(s, t, i + 1)
      {
        if i <= |s[1..]| - |t| {
          assert s[1..][i..i + |t|] == s[i + 1..i + 1 + |t|];
        }
      }
      if i :| HoldsAt(s, t, i) {
        assert i > 0 ==> HoldsAt(s[1..], t, i - 1);
      }
      if i :| HoldsAt(s[1..], t, i) {
        assert HoldsAt(s, t, i + 1);
      }
    }
  }

  lemma {:induction false} LowerTwice(s: string)
    ensures Lower(Lower(s)) == Lower(s)
  {
  }

  /** The filter shows a row as often as it is in the list, or not at all; the search and
      the status ignore the case of letters; and a user who asks for another's licenses
      is shown none. */
  lemma {:induction false} FilterTells(ls: seq<License>, userId: int, isAdmin: bool, q: Query, l: License)
    ensures multiset(Filter(ls, userId, isAdmin, q))[l] ==
      if Shown(l, userId, isAdmin, q) then multiset(ls)[l] else 0
    ensures Shown(l, userId, isAdmin, q) ==
      Shown(l.(status := Lower(l.status), licenseKey := Lower(l.licenseKey)), userId, isAdmin,
            q.(status := Lower(q.status), search := Lower(q.search)))
    ensures Shown(l, userId, isAdmin, q) ==
      (Shown(l, userId, isAdmin, q.(search := "")) &&
       (q.search == "" || exists i :: HoldsAt(Lower(l.licenseKey), Lower(q.search), i)))
    ensures Shown(l, userId, isAdmin, q) ==
      (Shown(l, userId, isAdmin, q.(status := "")) &&
       (q.status == "" || Lower(l.status) == Lower(q.status)))
    ensures Shown(l, userId, isAdmin, q) ==
      (Shown(l, userId, isAdmin, q.(userId := None)) &&
       (q.userId.Some? ==> l.userId == q.userId.value))
    ensures !isAdmin && q.userId.Some? && q.userId.value != userId ==> Filter(ls, userId, isAdmin, q) == []
    decreases |ls|
  {
    LowerTwice(l.status);
    LowerTwice(q.status);
    LowerTwice(l.licenseKey);
    LowerTwice(q.search);
    ContainsIs(Lower(l.licenseKey), Lower(q.search));
    if ls != [] {
      FilterTells(ls[..|ls| - 1], userId, isAdmin, q, l);
      assert ls == ls[..|ls| - 1] + [ls[|ls| - 1]];
    }
  }

  // ---------- what the outcomes mean ----------

  /** Ok is answered exactly when the change is made, NotFound by an admin's valid request
      exactly when no license has the id, and otherwise nothing changes. */
  lemma {:induction false} OutcomeTells(s: State, id: int, c: Change, isAdmin: bool, dbOk: bool)
    ensures
      var (s', outcome) := Act(s, Alter(id, c, isAdmin), dbOk);
      && (outcome.Ok? <==> exists i: nat :: Alters(s, WriteBy(Alter(id, c, isAdmin), dbOk), i))
      && (outcome.Forbidden? <==> !isAdmin)
      && (outcome.BadRequest? <==>
            isAdmin && ((c.SetStatus? && !ValidStatus(c.status)) ||
                        (c.Revoke? && exists i: nat :: AlreadyRevoked(s, id, i))))
      && (outcome.InternalError? ==> !dbOk)
      && outcome in {Ok, Forbidden, BadRequest, NotFound, InternalError}
      && (outcome.NotFound? <==>
            (isAdmin && (c.SetStatus? ==> ValidStatus(c.status)) && forall l :: l in s.rows ==> l.id != id))
      && (!outcome.Ok? ==> s' == s)
  {
    IndexOfBound(s.rows, id);
    IndexOfFinds(s.rows, id);
    if IndexOf(s.rows, id).Some? {
      var i := IndexOf(s.rows, id).value;
      assert AlreadyRevoked(s, id, i) <==> s.rows[i].revokedAt.Some?;
      assert Act(s, Alter(id, c, isAdmin), dbOk).1.Ok? ==> Alters(s, WriteBy(Alter(id, c, isAdmin), dbOk), i);
    }
  }

  /** The license that the id finds is revoked. */
  predicate AlreadyRevoked(s: State, id: int, i: nat) {
    i < |s.rows| && IndexOf(s.rows, id) == Some(i) && s.rows[i].revokedAt.Some?
  }

  lemma {:induction false} IndexOfFinds(rows: seq<License>, id: int)
    ensures IndexOf(rows, id).None? <==> forall l :: l in rows ==> l.id != id
  {
    if rows != [] {
      IndexOfFinds(rows[1..], id);
      assert forall l :: l in rows <==> l == rows[0] || l in rows[1..];
    }
  }

  // ---------- what the writes do to one license ----------

  /** The event appends the i-th row. */
  predicate Creates(s: State, e: Event, i: nat) {
    e.WriteBy? && e.dbOk && e.action.Create? && i == |s.rows|
  }

  /** The event is an admin's change of the i-th row, and nothing is against it. */
  predicate Alters(s: State, e: Event, i: nat) {
    && e.WriteBy? && e.dbOk && e.action.Alter? && e.action.isAdmin
    && i < |s.rows| && IndexOf(s.rows, e.action.id) == Some(i)
    && (e.action.change.SetStatus? ==> ValidStatus(e.action.change.status))
    && (e.action.change.Revoke? ==> s.rows[i].revokedAt.None?)
  }

  /** The expiry that the i-th row was last given: when it was created, or renewed. */
  function LastExpiry(rows: seq<License>, es: seq<Event>, ttl: int, i: nat): Option<int> {
    if es == [] then (if i < |rows| then Some(rows[i].expiresAt) else None)
    else
      var init, e := es[..|es| - 1], es[|es| - 1];
      var s := Run(State(rows, map[]), init, ttl);
      if Creates(s, e, i) then Some(e.action.expiresAt)
      else if Alters(s, e, i) && e.action.change.Renew? then Some(e.action.change.expiresAt)
      else LastExpiry(rows, init, ttl, i)
  }

  /** The status and the revocation time that it was last given. */
  function LastStatus(rows: seq<License>, es: seq<Event>, ttl: int, i: nat): Option<(string, Option<int>)> {
    if es == [] then (if i < |rows| then Some((rows[i].status, rows[i].revokedAt)) else None)
    else
      var init, e := es[..|es| - 1], es[|es| - 1];
      var s := Run(State(rows, map[]), init, ttl);
      if Creates(s, e, i) then Some(("Active", None))
      else if Alters(s, e, i) && e.action.change.Revoke? then Some(("Revoked", Some(e.action.change.at)))
      else if Alters(s, e, i) && e.action.change.SetStatus? then
        Some((e.action.change.status, if e.action.change.status == "Revoked" then Some(e.action.change.at) else None))
      else LastStatus(rows, init, ttl, i)
  }

  /** What it was created with and no write changes: id, key, owner, creation, limit. */
  function Creation(rows: seq<License>, es: seq<Event>, ttl: int, i: nat): Option<(int, string, int, int, int)> {
    if es == [] then
      if i >= |rows| then None
      else
        var l := rows[i];
        Some((l.id, l.licenseKey, l.userId, l.createdAt, l.maxActivations))
    else
      var init, e := es[..|es| - 1], es[|es| - 1];
      var a := if e.WriteBy? then e.action else Alter(0, Renew(0), false);
      if Creates(Run(State(rows, map[]), init, ttl), e, i)
      then Some((a.id, a.licenseKey, a.userId, a.at, a.maxActivations))
      else Creation(rows, init, ttl, i)
  }

  lemma StepOnRow(s: State, e: Event, ttl: int, i: nat)
    ensures var s' := Step(s, e, ttl);
      && |s.rows| <= |s'.rows|
      && (i < |s'.rows| <==> i < |s.rows| || Creates(s, e, i))
      && (i < |s.rows| && !Alters(s, e, i) ==> s'.rows[i] == s.rows[i])
      && (i < |s.rows| && Alters(s, e, i) ==> s'.rows[i] == Changed(s.rows[i], e.action.change))
      && (Creates(s, e, i) ==> s'.rows[i] == NewLicense(e.action))
  {
    if e.WriteBy? && e.action.Alter? {
      IndexOfBound(s.rows, e.action.id);
    }
  }

  /** After any run of requests and writes, a license has the expiry, the status and the
      revocation time that it was last given, and is otherwise as created.  What is done
      to one license does not change another. */
  lemma {:induction false} LicenseAsLastWritten(rows: seq<License>, es: seq<Event>, ttl: int, i: nat)
    ensures
      var after := Run(State(rows, map[]), es, ttl).rows;
      if i < |after| then
        && LastExpiry(rows, es, ttl, i) == Some(after[i].expiresAt)
        && LastStatus(rows, es, ttl, i) == Some((after[i].status, after[i].revokedAt))
        && Creation(rows, es, ttl, i) ==
             Some((after[i].id, after[i].licenseKey, after[i].userId, after[i].createdAt, after[i].maxActivations))
      else LastExpiry(rows, es, ttl, i).None? && LastStatus(rows, es, ttl, i).None? && Creation(rows, es, ttl, i).None?
    decreases |es|
  {
    if es != [] {
      var n := |es| - 1;
      LicenseAsLastWritten(rows, es[..n], ttl, i);
      StepOnRow(Run(State(rows, map[]), es[..n], ttl), es[n], ttl, i);
    }
  }

  // ---------- activations ----------

  /** The first row with this key. */
  ghost predicate FirstWithKey(rows: seq<License>, key: string, i: nat) {
    i < |rows| && rows[i].licenseKey == key && forall j :: 0 <= j < i ==> rows[j].licenseKey != key
  }

  lemma {:induction false} ByKeyFinds(rows: seq<License>, key: string, i: nat)
    requires FirstWithKey(rows, key, i)
    ensures ByKey(rows, key, true) == Some(rows[i])
    decreases i
  {
    if i > 0 {
      assert FirstWithKey(rows[1..], key, i - 1) by {
        assert forall j :: 0 <= j < i - 1 ==> rows[1..][j] == rows[j + 1];
      }
      ByKeyFinds(rows[1..], key, i - 1);
    }
  }

  lemma {:induction false} ByKeyMisses(rows: seq<License>, key: string, readOk: bool)
    ensures ByKey(rows, key, readOk).None? <==> !readOk || forall i: nat :: !FirstWithKey(rows, key, i)
    ensures !readOk ==> ByKey(rows, key, readOk).None?
  {
    if i: nat :| FirstWithKey(rows, key, i) {
      ByKeyFinds(rows, key, i);
    } else {
      NoneHasKey(rows, key);
    }
  }

  lemma {:induction false} NoneHasKey(rows: seq<License>, key: string)
    requires forall i: nat :: !FirstWithKey(rows, key, i)
    ensures ByKey(rows, key, true).None?
    decreases |rows|
  {
    if rows != [] {
      assert !FirstWithKey(rows, key, 0);
      forall i: nat
        ensures !FirstWithKey(rows[1..], key, i)
      {
        assert !FirstWithKey(rows, key, i + 1);
        if FirstWithKey(rows[1..], key, i) {
          forall j | 0 <= j < i + 1
            ensures rows[j].licenseKey != key
          {
            assert j > 0 ==> rows[j] == rows[1..][j - 1];
          }
        }
      }
      NoneHasKey(rows[1..], key);
    }
  }

  /** After any run: the license that the key finds can be activated exactly if it has not
      passed the expiry it was last given, is not revoked by the last change of its
      status, and has no negative limit. */
  lemma {:induction false} ActivationTells(rows: seq<License>, es: seq<Event>, ttl: int, key: string, i: nat,
                                           now: int, dbOk: bool, secondRead: bool)
    requires FirstWithKey(Run(State(rows, map[]), es, ttl).rows, key, i)
    ensures
      var s := Run(State(rows, map[]), es, ttl);
      var expiry, status := LastExpiry(rows, es, ttl, i), LastStatus(rows, es, ttl, i);
      var outcome := Act(s, Activate(key, now, true, secondRead), dbOk).1;
      && expiry.Some? && status.Some?
      && (outcome.Conflict? <==> now > expiry.value || status.value.1.Some? || s.rows[i].maxActivations < 0)
      && (outcome.Ok? <==> !outcome.Conflict? && dbOk)
      && outcome in {Ok, Conflict, InternalError}
  {
    ByKeyFinds(Run(State(rows, map[]), es, ttl).rows, key, i);
    LicenseAsLastWritten(rows, es, ttl, i);
  }

  /** Without the license nothing can be done, and a machine that is not registered is not
      found either. */
  lemma {:induction false} DeactivationTells(s: State, key: string, registered: bool, firstRead: bool,
                                             secondRead: bool, dbOk: bool, now: int)
    ensures
      var found := firstRead && exists i: nat :: FirstWithKey(s.rows, key, i);
      var outcome := Act(s, Deactivate(key, registered, firstRead, secondRead), dbOk).1;
      && (outcome.NotFound? <==> !found || !registered)
      && (outcome.Ok? <==> found && registered && dbOk)
      && outcome in {Ok, NotFound, InternalError}
      && (Act(s, Activate(key, now, firstRead, secondRead), dbOk).1.NotFound? <==> !found)
  {
    ByKeyMisses(s.rows, key, firstRead);
  }

  // ---------- what the cache is for ----------

  /** After a miss the same caller is served without the database for the time to live,
      and not a moment longer. */
  lemma {:induction false} ServedWhileFresh(s: State, userId: int, isAdmin: bool, ttl: int, now: int, q: int)
    requires ttl > 0 && now <= q && Cached(s.store, userId, isAdmin, now).None?
    ensures
      var (s', ls) := GetList(s, userId, isAdmin, true, ttl, now);
      && ls == Some(Fetch(s.rows))
      && GetList(s', userId, isAdmin, false, ttl, q).1 == if q < now + ttl then ls else None
  {
  }

  // ---------- pages ----------

  /** The answers for pages 1 to n, one after another. */
  function FirstPages(ls: seq<License>, userId: int, isAdmin: bool, q: Query, sorter: Sorter, n: nat): seq<License>
    requires q.pageSize >= 1
  {
    if n == 0 then []
    else
      FirstPages(ls, userId, isAdmin, q, sorter, n - 1) +
      Response(ls, userId, isAdmin, q.(pageIndex := n), sorter).1
  }

  function AtMost(n: int, f: seq<License>): nat
    requires n >= 0
  {
    if n <= |f| then n else |f|
  }

  lemma PageExtends(f: seq<License>, q: Query, n: nat)
    requires q.pageSize >= 1 && n >= 1 && n * q.pageSize == (n - 1) * q.pageSize + q.pageSize
    requires (n - 1) * q.pageSize >= 0
    ensures f[..AtMost((n - 1) * q.pageSize, f)] + Page(f, q.(pageIndex := n)) == f[..AtMost(n * q.pageSize, f)]
  {
  }

  lemma Multiple(n: nat, s: nat)
    ensures n * s >= 0 && (n >= 1 ==> n * s == (n - 1) * s + s && (n - 1) * s >= 0)
  {
  }

  /** The first n pages are the first rows of the filtered and sorted list, as many as
      they have room for: every row is on one page, and enough pages show the total. */
  lemma {:induction false} PagesInOrder(ls: seq<License>, userId: int, isAdmin: bool, q: Query, sorter: Sorter, n: nat)
    requires q.pageIndex >= 1 && q.pageSize >= 1
    ensures n * q.pageSize >= 0
    ensures
      var f := sorter(Filter(ls, userId, isAdmin, q));
      && FirstPages(ls, userId, isAdmin, q, sorter, n) == f[..AtMost(n * q.pageSize, f)]
      && (n * q.pageSize >= |f| ==> FirstPages(ls, userId, isAdmin, q, sorter, n) == f)
      && Response(ls, userId, isAdmin, q, sorter).0 == |f|
  {
    Multiple(n, q.pageSize);
    var f := sorter(Filter(ls, userId, isAdmin, q));
    if n > 0 {
      PagesInOrder(ls, userId, isAdmin, q, sorter, n - 1);
      FilterIgnoresPage(ls, userId, isAdmin, q, q.(pageIndex := n));
      PageExtends(f, q, n);
    }
  }

  /** A license is revoked in its status exactly when it has a revocation time. */
  ghost predicate StatusAgrees(rows: seq<License>) {
    forall i :: 0 <= i < |rows| ==> (rows[i].status == "Revoked" <==> rows[i].revokedAt.Some?)
  }

  lemma ActKeepsStatus(s: State, a: Action, dbOk: bool)
    requires StatusAgrees(s.rows)
    ensures StatusAgrees(Act(s, a, dbOk).0.rows)
  {
    if a.Alter? {
      IndexOfBound(s.rows, a.id);
    }
  }

  /** The single-license handlers keep the two in step over every run. */
  lemma {:induction false} StatusAlwaysAgrees(rows: seq<License>, es: seq<Event>, ttl: int)
    requires StatusAgrees(rows)
    ensures StatusAgrees(Run(State(rows, map[]), es, ttl).rows)
    decreases |es|
  {
    if es != [] {
      var n := |es| - 1;
      StatusAlwaysAgrees(rows, es[..n], ttl);
      if es[n].WriteBy? {
        ActKeepsStatus(Run(State(rows, map[]), es[..n], ttl), es[n].action, es[n].dbOk);
      }
    }
  }

  /** The filter keeps the rows that are to be shown, and a user's request none of
      another user. */
  lemma {:induction false} FilterMembers(ls: seq<License>, userId: int, isAdmin: bool, q: Query, l: License)
    ensures l in Filter(ls, userId, isAdmin, q) <==> l in ls && Shown(l, userId, isAdmin, q)
    ensures !isAdmin && l in Filter(ls, userId, isAdmin, q) ==> l.userId == userId
    decreases |ls|
  {
    if ls != [] {
      var n := |ls| - 1;
      FilterMembers(ls[..n], userId, isAdmin, q, l);
      assert l in ls <==> l in ls[..n] || l == ls[n];
    }
  }

  // ---------- bulk revocation ----------

  /** One attempt at one id: read, check, write, with no change of the status. */
  function RevokeOne(rows: seq<License>, id: int, t: BulkRevoke.Try): (r: seq<License>)
    ensures |r| == |rows| && forall i :: 0 <= i < |rows| ==> r[i].id == rows[i].id && r[i].userId == rows[i].userId
  {
    IndexOfBound(rows, id);
    match IndexOf(rows, id)
    case None => rows
    case Some(i) =>
      if t.fault.NoFault? && rows[i].revokedAt.None? then rows[i := rows[i].(revokedAt := Some(t.now))] else rows
  }

  /** The whole list.  A job's retries are the same id listed again: an attempt on a
      license that is revoked by then changes nothing. */
  function RevokeListed(rows: seq<License>, ids: seq<int>, tries: seq<BulkRevoke.Try>): (r: seq<License>)
    requires |ids| == |tries|
    ensures |r| == |rows| && forall i :: 0 <= i < |rows| ==> r[i].id == rows[i].id && r[i].userId == rows[i].userId
  {
    if ids == [] then rows
    else
      var n := |ids| - 1;
      RevokeOne(RevokeListed(rows, ids[..n], tries[..n]), ids[n], tries[n])
  }

  ghost predicate SameOwners(ls: seq<License>, ls': seq<License>) {
    |ls| == |ls'| && forall i :: 0 <= i < |ls| ==> ls'[i].userId == ls[i].userId
  }

  /** A user's rows are the same exactly when each of them is. */
  lemma {:induction false} OwnTells(ls: seq<License>, ls': seq<License>, u: int)
    requires SameOwners(ls, ls')
    ensures |Own(ls', u)| == |Own(ls, u)|
    ensures Own(ls', u) == Own(ls, u) <==> forall i :: 0 <= i < |ls| && ls[i].userId == u ==> ls'[i] == ls[i]
  {
    if ls != [] {
      var n := |ls| - 1;
      var own, own' := Own(ls[..n], u), Own(ls'[..n], u);
      OwnTells(ls[..n], ls'[..n], u);
      assert forall i :: 0 <= i < n ==> ls[..n][i] == ls[i] && ls'[..n][i] == ls'[i];
      if ls[n].userId == u {
        assert (own + [ls[n]])[|own|] == ls[n] && (own' + [ls'[n]])[|own'|] == ls'[n];
        assert (own + [ls[n]])[..|own|] == own && (own' + [ls'[n]])[..|own'|] == own';
      } else {
        assert own + [] == own && own' + [] == own';
      }
    }
  }

  /** A change of a row that the caller's list holds. */
  ghost predicate Differs(rows: seq<License>, rows': seq<License>, i: nat, userId: int, isAdmin: bool)
    requires SameOwners(rows, rows') && i < |rows|
  {
    i < FETCH_LIMIT && rows'[i] != rows[i] && (isAdmin || rows[i].userId == userId)
  }

  lemma FetchTells(rows: seq<License>, rows': seq<License>, u: int)
    requires SameOwners(rows, rows')
    ensures Fetch(rows') == Fetch(rows) <==> forall i: nat :: i < |rows| ==> !Differs(rows, rows', i, u, true)
    ensures |Own(Fetch(rows'), u)| == |Own(Fetch(rows), u)|
    ensures Own(Fetch(rows'), u) == Own(Fetch(rows), u) <==>
      forall i: nat :: i < |rows| ==> !Differs(rows, rows', i, u, false)
  {
    var ls, ls' := Fetch(rows), Fetch(rows');
    OwnTells(ls, ls', u);
    assert forall i :: 0 <= i < |ls| ==> ls[i] == rows[i] && ls'[i] == rows'[i];
    assert forall i: nat :: i < |ls| && ls'[i] != ls[i] ==> Differs(rows, rows', i, u, true);
    assert forall i: nat :: i < |ls| && ls'[i] != ls[i] && ls[i].userId == u ==> Differs(rows, rows', i, u, false);
  }

  /** The i-th row has changed, and is among the rows that the admins' or its owner's
      list would show, while such a list is cached. */
  ghost predicate CachedDiffers(s: State, rows': seq<License>, i: nat)
    requires SameOwners(s.rows, rows') && i < |s.rows|
  {
    i < FETCH_LIMIT && rows'[i] != s.rows[i] &&
    (AdminKey() in s.store || CacheKey(s.rows[i].userId, false) in s.store)
  }

  lemma UnseenChangesStay(s: State, rows': seq<License>)
    requires Coherent(s) && SameOwners(s.rows, rows')
    requires forall i: nat :: i < |s.rows| ==> !CachedDiffers(s, rows', i)
    ensures Coherent(s.(rows := rows'))
  {
    if AdminKey() in s.store {
      forall i: nat | i < |s.rows|
        ensures !Differs(s.rows, rows', i, 0, true)
      {
        assert !CachedDiffers(s, rows', i);
      }
      FetchTells(s.rows, rows', 0);
    }
    forall u | CacheKey(u, false) in s.store
      ensures Own(Fetch(rows'), u) == Own(Fetch(s.rows), u)
    {
      forall i: nat | i < |s.rows|
        ensures !Differs(s.rows, rows', i, u, false)
      {
        assert !CachedDiffers(s, rows', i);
      }
      FetchTells(s.rows, rows', u);
    }
  }

  lemma SeenChangeBreaks(s: State, rows': seq<License>, i: nat)
    requires Coherent(s) && SameOwners(s.rows, rows') && i < |s.rows| && CachedDiffers(s, rows', i)
    ensures !Coherent(s.(rows := rows'))
  {
    var u := s.rows[i].userId;
    FetchTells(s.rows, rows', u);
    assert Differs(s.rows, rows', i, u, true) && Differs(s.rows, rows', i, u, false);
  }

  /** Some attempt at the i-th row succeeds: it is not revoked, it is the row that one
      of the ids finds, and the database does not fail then. */
  ghost predicate ToBeRevoked(rows: seq<License>, ids: seq<int>, tries: seq<BulkRevoke.Try>, i: nat)
    requires |ids| == |tries| && i < |rows|
  {
    rows[i].revokedAt.None? && exists k :: Reaches(rows, ids, tries, i, k)
  }

  ghost predicate Reaches(rows: seq<License>, ids: seq<int>, tries: seq<BulkRevoke.Try>, i: nat, k: int)
    requires |ids| == |tries|
  {
    0 <= k < |ids| && IndexOf(rows, ids[k]) == Some(i) && tries[k].fault.NoFault?
  }

  lemma {:induction false} IndexOfSameIds(rows: seq<License>, rows': seq<License>, id: int)
    requires |rows'| == |rows| && forall i :: 0 <= i < |rows| ==> rows'[i].id == rows[i].id
    ensures IndexOf(rows', id) == IndexOf(rows, id)
    decreases |rows|
  {
    if rows != [] {
      IndexOfSameIds(rows[1..], rows'[1..], id);
    }
  }

  /** The first attempt that reaches the i-th row. */
  function FirstReach(rows: seq<License>, ids: seq<int>, tries: seq<BulkRevoke.Try>, i: nat): (first: Option<nat>)
    requires |ids| == |tries|
    ensures first.Some? ==> first.value < |ids|
  {
    if ids == [] then None
    else
      var n := |ids| - 1;
      var earlier := FirstReach(rows, ids[..n], tries[..n], i);
      if earlier.Some? then earlier
      else if IndexOf(rows, ids[n]) == Some(i) && tries[n].fault.NoFault? then Some(n) else None
  }

  lemma {:induction false} FirstReachIs(rows: seq<License>, ids: seq<int>, tries: seq<BulkRevoke.Try>, i: nat)
    requires |ids| == |tries|
    ensures match FirstReach(rows, ids, tries, i)
      case None => forall k :: !Reaches(rows, ids, tries, i, k)
      case Some(k) => Reaches(rows, ids, tries, i, k) && forall j :: j < k ==> !Reaches(rows, ids, tries, i, j)
    decreases |ids|
  {
    if ids != [] {
      var n := |ids| - 1;
      FirstReachIs(rows, ids[..n], tries[..n], i);
      forall k: int | k < n
        ensures Reaches(rows, ids[..n], tries[..n], i, k) <==> Reaches(rows, ids, tries, i, k)
      {
      }
    }
  }

  /** The i-th row after a bulk revocation. */
  lemma {:induction false} RowAfterRevocation(rows: seq<License>, ids: seq<int>, tries: seq<BulkRevoke.Try>, i: nat)
    requires |ids| == |tries| && i < |rows|
    ensures
      var first := FirstReach(rows, ids, tries, i);
      RevokeListed(rows, ids, tries)[i] ==
        if rows[i].revokedAt.Some? || first.None? then rows[i]
        else rows[i].(revokedAt := Some(tries[first.value].now))
    decreases |ids|
  {
    if ids != [] {
      var n := |ids| - 1;
      var before := RevokeListed(rows, ids[..n], tries[..n]);
      RowAfterRevocation(rows, ids[..n], tries[..n], i);
      FirstReachIs(rows, ids[..n], tries[..n], i);
      IndexOfSameIds(rows, before, ids[n]);
      IndexOfBound(before, ids[n]);
    }
  }

  /** A bulk revocation changes the rows to be revoked, and no others; each gets the clock
      reading of the first attempt that reaches it. */
  lemma {:induction false} RowsRevoked(rows: seq<License>, ids: seq<int>, tries: seq<BulkRevoke.Try>, i: nat)
    requires |ids| == |tries| && i < |rows|
    ensures var rows' := RevokeListed(rows, ids, tries);
      && (rows'[i] != rows[i] <==> ToBeRevoked(rows, ids, tries, i))
      && (rows'[i] != rows[i] ==>
            exists k :: (Reaches(rows, ids, tries, i, k) &&
                         (forall j :: j < k ==> !Reaches(rows, ids, tries, i, j)) &&
                         rows'[i] == rows[i].(revokedAt := Some(tries[k].now))))
  {
    RowAfterRevocation(rows, ids, tries, i);
    FirstReachIs(rows, ids, tries, i);
  }

  /** A row to be revoked that the caller's list holds. */
  ghost predicate Concerned(rows: seq<License>, ids: seq<int>, tries: seq<BulkRevoke.Try>, i: nat,
                            userId: int, isAdmin: bool)
    requires |ids| == |tries| && i < |rows|
  {
    i < FETCH_LIMIT && ToBeRevoked(rows, ids, tries, i) && (isAdmin || rows[i].userId == userId)
  }

  /** A row to be revoked that the admins' or its owner's list holds, while such a list
      is cached. */
  ghost predicate CachedConcerned(s: State, ids: seq<int>, tries: seq<BulkRevoke.Try>, i: nat)
    requires |ids| == |tries| && i < |s.rows|
  {
    i < FETCH_LIMIT && ToBeRevoked(s.rows, ids, tries, i) &&
    (AdminKey() in s.store || CacheKey(s.rows[i].userId, false) in s.store)
  }

  /** A bulk revocation leaves the cached lists right exactly when each license that it
      is going to revoke lies beyond the rows that are cached, or neither the admins'
      list nor its owner's is cached. */
  lemma {:induction false} BulkRevokeCoherent(s: State, ids: seq<int>, tries: seq<BulkRevoke.Try>)
    requires Coherent(s) && |ids| == |tries|
    ensures Coherent(s.(rows := RevokeListed(s.rows, ids, tries))) <==>
      forall i: nat :: i < |s.rows| ==> !CachedConcerned(s, ids, tries, i)
  {
    var rows' := RevokeListed(s.rows, ids, tries);
    if i: nat :| i < |s.rows| && CachedConcerned(s, ids, tries, i) {
      RowsRevoked(s.rows, ids, tries, i);
      SeenChangeBreaks(s, rows', i);
    } else {
      forall i: nat | i < |s.rows|
        ensures !CachedDiffers(s, rows', i)
      {
        RowsRevoked(s.rows, ids, tries, i);
        assert !CachedConcerned(s, ids, tries, i);
      }
      UnseenChangesStay(s, rows');
    }
  }

  const EVERYTHING := Query("", None, "", 1, 1)

  lemma {:induction false} FilterOfEverything(ls: seq<License>, userId: int, isAdmin: bool)
    ensures Filter(ls, userId, isAdmin, EVERYTHING) == if isAdmin then ls else Own(ls, userId)
  {
    if ls != [] {
      FilterOfEverything(ls[..|ls| - 1], userId, isAdmin);
    }
  }

  /** No sort column. */
  function Unsorted(ls: seq<License>): seq<License> { ls }

  lemma PageOfOne(f: seq<License>, q: Query)
    requires q.pageSize == 1 && 1 <= q.pageIndex <= |f|
    ensures Page(f, q) == [f[q.pageIndex - 1]]
  {
    assert (q.pageIndex - 1) * q.pageSize == q.pageIndex - 1;
  }

  lemma ResponseOfOne(ls: seq<License>, userId: int, isAdmin: bool, q: Query)
    requires q == EVERYTHING.(pageIndex := q.pageIndex)
    requires 1 <= q.pageIndex <= |Filter(ls, userId, isAdmin, EVERYTHING)|
    ensures Response(ls, userId, isAdmin, q, Unsorted).1 == [Filter(ls, userId, isAdmin, EVERYTHING)[q.pageIndex - 1]]
  {
    FilterIgnoresPage(ls, userId, isAdmin, EVERYTHING, q);
    PageOfOne(Filter(ls, userId, isAdmin, EVERYTHING), q);
  }

  /** Two lists whose every unsorted page is the same show the same rows. */
  lemma PagesTell(ls: seq<License>, ls': seq<License>, userId: int, isAdmin: bool)
    requires |Filter(ls', userId, isAdmin, EVERYTHING)| == |Filter(ls, userId, isAdmin, EVERYTHING)|
    requires forall q: Query :: q.pageIndex >= 1 && q.pageSize >= 1 ==>
      Response(ls', userId, isAdmin, q, Unsorted) == Response(ls, userId, isAdmin, q, Unsorted)
    ensures Filter(ls', userId, isAdmin, EVERYTHING) == Filter(ls, userId, isAdmin, EVERYTHING)
  {
    var f, f' := Filter(ls, userId, isAdmin, EVERYTHING), Filter(ls', userId, isAdmin, EVERYTHING);
    forall j | 0 <= j < |f|
      ensures f'[j] == f[j]
    {
      var q := EVERYTHING.(pageIndex := j + 1);
      ResponseOfOne(ls, userId, isAdmin, q);
      ResponseOfOne(ls', userId, isAdmin, q);
      assert Response(ls', userId, isAdmin, q, Unsorted) == Response(ls, userId, isAdmin, q, Unsorted);
      assert [f[j]] == [f'[j]];
    }
  }

  lemma {:induction false} FilterIgnoresPage(ls: seq<License>, userId: int, isAdmin: bool, q: Query, q': Query)
    requires q' == q.(pageIndex := q'.pageIndex, pageSize := q'.pageSize)
    ensures Filter(ls, userId, isAdmin, q') == Filter(ls, userId, isAdmin, q)
  {
    if ls != [] {
      FilterIgnoresPage(ls[..|ls| - 1], userId, isAdmin, q, q');
    }
  }

  /** The answers to one caller after a bulk revocation: right, whatever is asked for,
      exactly when the caller's list is not cached or holds no license that is going to
      be revoked; and then in every order of sorting. */
  lemma {:induction false} BulkRevokeSeenBy(s: State, ids: seq<int>, tries: seq<BulkRevoke.Try>,
                                            userId: int, isAdmin: bool, ttl: int, now: int, sorter: Sorter)
    requires Coherent(s) && |ids| == |tries|
    ensures
      var rows' := RevokeListed(s.rows, ids, tries);
      var ls := GetList(s.(rows := rows'), userId, isAdmin, true, ttl, now).1;
      var unseen := Cached(s.store, userId, isAdmin, now).None? ||
        forall i: nat :: i < |s.rows| ==> !Concerned(s.rows, ids, tries, i, userId, isAdmin);
      && ls.Some?
      && ((forall q: Query :: q.pageIndex >= 1 && q.pageSize >= 1 ==>
             Response(ls.value, userId, isAdmin, q, Unsorted) == Response(Fetch(rows'), userId, isAdmin, q, Unsorted))
          <==> unseen)
      && (unseen ==> forall q: Query :: q.pageIndex >= 1 && q.pageSize >= 1 ==>
            Response(ls.value, userId, isAdmin, q, sorter) == Response(Fetch(rows'), userId, isAdmin, q, sorter))
  {
    var rows' := RevokeListed(s.rows, ids, tries);
    FetchTells(s.rows, rows', userId);
    forall i: nat | i < |s.rows|
      ensures Differs(s.rows, rows', i, userId, isAdmin) <==> Concerned(s.rows, ids, tries, i, userId, isAdmin)
    {
      RowsRevoked(s.rows, ids, tries, i);
    }
    if Cached(s.store, userId, isAdmin, now).Some? {
      var ls := Cached(s.store, userId, isAdmin, now).value;
      FilterOfEverything(ls, userId, isAdmin);
      FilterOfEverything(Fetch(rows'), userId, isAdmin);
      if forall i: nat :: i < |s.rows| ==> !Concerned(s.rows, ids, tries, i, userId, isAdmin) {
        forall q: Query
          ensures Filter(ls, userId, isAdmin, q) == Filter(Fetch(rows'), userId, isAdmin, q)
        {
          FilterSeesOwn(ls, userId, q);
          FilterSeesOwn(Fetch(rows'), userId, q);
        }
      } else if forall q: Query :: q.pageIndex >= 1 && q.pageSize >= 1 ==>
          Response(Fetch(rows'), userId, isAdmin, q, Unsorted) == Response(ls, userId, isAdmin, q, Unsorted) {
        PagesTell(ls, Fetch(rows'), userId, isAdmin);
      }
    }
  }

  // ---------- the handlers ----------

  class LicenseHandler {
    const cache: RedisClient<seq<License>>
    const ttl: int
    var rows: seq<License>

    constructor (cache: RedisClient<seq<License>>, ttl: int, rows: seq<License>)
      ensures this.cache == cache && this.ttl == ttl && this.rows == rows
    {
      this.cache, this.ttl, this.rows := cache, ttl, rows;
    }

    function Now(): State
      reads this, cache
    {
      State(rows, cache.store)
    }

    method Invalidate(owner: int)
      modifies cache
      ensures cache.store == InvalidateLicense(old(cache.store), owner)
    {
      cache.Delete(CacheKey(owner, false));
      cache.Delete(AdminKey());
    }

    /** The filter loop of GetLicenses. */
    method ApplyFilters(licenses: seq<License>, userId: int, isAdmin: bool, q: Query) returns (filtered: seq<License>)
      ensures filtered == Filter(licenses, userId, isAdmin, q)
    {
      filtered := [];
      for i := 0 to |licenses|
        invariant filtered == Filter(licenses[..i], userId, isAdmin, q)
      {
        assert licenses[..i + 1][..i] == licenses[..i];
        if Shown(licenses[i], userId, isAdmin, q) {
          filtered := filtered + [licenses[i]];
        }
      }
      assert licenses[..|licenses|] == licenses;
    }

    method GetLicenses(userId: int, isAdmin: bool, q: Query, sorter: Sorter, dbOk: bool, now: int)
      returns (r: Option<(nat, seq<License>)>)
      requires q.pageIndex >= 1 && q.pageSize >= 1 && Coherent(Now())
      modifies cache
      ensures Coherent(Now())
      ensures Now() == GetList(old(Now()), userId, isAdmin, dbOk, ttl, now).0
      ensures r.None? <==> !dbOk && Cached(old(cache.store), userId, isAdmin, now).None?
      ensures r.Some? ==> r.value == Response(Fetch(rows), userId, isAdmin, q, sorter)
    {
      GetCoherent(Now(), userId, isAdmin, dbOk, ttl, now);
      CoherentShowsTruth(Now(), userId, isAdmin, dbOk, ttl, now, q);
      var licenses: seq<License>;
      var hit := cache.Get(CacheKey(userId, isAdmin), now);
      if hit.Some? && hit.value.Data? {
        licenses := hit.value.v;
      } else {
        if !dbOk {
          return None;
        }
        licenses := Fetch(rows);
        cache.Set(CacheKey(userId, isAdmin), Data(licenses), ttl, now);
      }
      var filtered := ApplyFilters(licenses, userId, isAdmin, q);
      filtered := sorter(filtered);
      r := Some((|filtered|, Page(filtered, q)));
    }

    method CreateLicense(id: int, licenseKey: string, userId: int, expiresAt: int, maxActivations: int, now: int,
                         dbOk: bool)
      returns (outcome: Outcome)
      requires Coherent(Now())
      modifies this`rows, cache
      ensures Coherent(Now())
      ensures (Now(), outcome) == Act(old(Now()), Create(id, licenseKey, userId, expiresAt, maxActivations, now), dbOk)
    {
      ActCoherent(Now(), Create(id, licenseKey, userId, expiresAt, maxActivations, now), dbOk);
      if !dbOk {
        return InternalError;
      }
      var license := License(id, licenseKey, userId, "Active", now, expiresAt, None, maxActivations);
      rows := rows + [license];
      Invalidate(license.userId);
      return Ok;
    }

    /** RenewLicense, RevokeLicense and UpdateLicenseStatus share this shape. */
    method AlterLicense(id: int, change: Change, isAdmin: bool, dbOk: bool) returns (outcome: Outcome)
      requires Coherent(Now())
      modifies this`rows, cache
      ensures Coherent(Now()) && (Now(), outcome) == Act(old(Now()), Alter(id, change, isAdmin), dbOk)
    {
      ActCoherent(Now(), Alter(id, change, isAdmin), dbOk);
      IndexOfBound(rows, id);
      if !isAdmin {
        return Forbidden;
      }
      if change.SetStatus? && !ValidStatus(change.status) {
        return BadRequest;
      }
      var found := IndexOf(rows, id);
      if found.None? {
        return NotFound;
      }
      var license := rows[found.value];
      if change.Revoke? && license.revokedAt.Some? {
        return BadRequest;
      }
      if !dbOk {
        return InternalError;
      }
      rows := rows[found.value := Changed(license, change)];
      Invalidate(license.userId);
      return Ok;
    }

    /** What both activation handlers do after the service call. */
    method InvalidateByKey(licenseKey: string, readOk: bool)
      modifies cache
      ensures cache.store ==
        match ByKey(rows, licenseKey, readOk)
        case None => old(cache.store)
        case Some(l) => InvalidateLicense(old(cache.store), l.userId)
    {
      var license := ByKey(rows, licenseKey, readOk);
      if license.Some? {
        Invalidate(license.value.userId);
      }
    }

    method ActivateLicense(licenseKey: string, now: int, firstRead: bool, dbOk: bool, secondRead: bool)
      returns (outcome: Outcome)
      requires Coherent(Now())
      modifies cache
      ensures Coherent(Now())
      ensures (Now(), outcome) == Act(old(Now()), Activate(licenseKey, now, firstRead, secondRead), dbOk)
    {
      ActCoherent(Now(), Activate(licenseKey, now, firstRead, secondRead), dbOk);
      var license := ByKey(rows, licenseKey, firstRead);
      if license.None? {
        return NotFound;
      }
      if !CanActivate(license.value, now) {
        return Conflict;
      }
      if !dbOk {
        return InternalError;
      }
      InvalidateByKey(licenseKey, secondRead);
      return Ok;
    }

    method DeactivateLicense(licenseKey: string, registered: bool, firstRead: bool, dbOk: bool, secondRead: bool)
      returns (outcome: Outcome)
      requires Coherent(Now())
      modifies cache
      ensures Coherent(Now())
      ensures (Now(), outcome) == Act(old(Now()), Deactivate(licenseKey, registered, firstRead, secondRead), dbOk)
    {
      ActCoherent(Now(), Deactivate(licenseKey, registered, firstRead, secondRead), dbOk);
      var license := ByKey(rows, licenseKey, firstRead);
      if license.None? || !registered {
        return NotFound;
      }
      if !dbOk {
        return InternalError;
      }
      InvalidateByKey(licenseKey, secondRead);
      return Ok;
    }

    /** The synchronous bulk handler: rows change, the cache does not. */
    method BulkRevokeLicenses(ids: seq<int>, tries: seq<BulkRevoke.Try>, isAdmin: bool) returns (outcome: Outcome)
      requires |ids| == |tries|
      modifies this`rows
      ensures outcome == if !isAdmin then Forbidden else if ids == [] then ValidationError else Ok
      ensures rows == if outcome.Ok? then RevokeListed(old(rows), ids, tries) else old(rows)
    {
      if !isAdmin {
        return Forbidden;
      }
      if ids == [] {
        return ValidationError;
      }
      for k := 0 to |ids|
        invariant rows == RevokeListed(old(rows), ids[..k], tries[..k])
      {
        assert ids[..k + 1][..k] == ids[..k] && tries[..k + 1][..k] == tries[..k];
        IndexOfBound(rows, ids[k]);
        var found := IndexOf(rows, ids[k]);
        if found.None? || tries[k].fault.GetFails? {
          continue;
        }
        var license := rows[found.value];
        if license.revokedAt.Some? {
          continue;
        }
        if tries[k].fault.UpdateFails? {
          continue;
        }
        rows := rows[found.value := license.(revokedAt := Some(tries[k].now))];
      }
      assert ids[..|ids|] == ids && tries[..|tries|] == tries;
      return Ok;
    }
  }
}
