/** Role-based permissions with a per-user cache in front of the role table. */
module PermissionCache {

  type Permission = string
  type Role = string

  datatype User = User(id: int, role: Role)

  const VIEWER := ["view_licenses", "view_activations", "export_data"]
  const MANAGER := ["view_users", "view_licenses", "create_licenses", "edit_licenses", "revoke_licenses",
    "view_activations", "manage_activations", "view_audit_logs", "view_analytics", "export_data"]
  const ADMIN := ["view_users", "create_users", "edit_users", "delete_users", "manage_roles", "manage_permissions",
    "view_licenses", "create_licenses", "edit_licenses", "revoke_licenses", "bulk_revoke",
    "view_activations", "manage_activations", "view_audit_logs", "view_analytics", "export_data",
    "manage_settings", "view_system_health", "manage_notifications"]

  function Defaults(): map<Role, seq<Permission>> {
    map["User" := VIEWER, "Manager" := MANAGER, "Admin" := ADMIN]
  }

  type RoleTable = map<Role, seq<Permission>>

  function RolePermissions(roles: RoleTable, role: Role): seq<Permission> {
    if role in roles then roles[role]
    else if role in Defaults() then Defaults()[role]
    else []
  }

  const FETCH_LIMIT := 10000

  /** An empty role counts as that of a plain user. */
  function Named(role: Role): Role {
    if role == "" then "User" else role
  }

  /** The role of the first user with this id; unknown users count as plain users. */
  function RoleOf(users: seq<User>, userId: int): Role {
    if users == [] then "User"
    else if users[0].id == userId then Named(users[0].role)
    else RoleOf(users[1..], userId)
  }

  function Fetched(users: seq<User>): seq<User> {
    if |users| <= FETCH_LIMIT then users else users[..FETCH_LIMIT]
  }

  /** The permissions computed directly, without the user cache. */
  function Direct(users: seq<User>, roles: RoleTable, userId: int): seq<Permission> {
    if users == [] then [] else RolePermissions(roles, RoleOf(Fetched(users), userId))
  }

  ghost predicate HasAny(granted: seq<Permission>, required: seq<Permission>) {
    exists p :: p in required && p in granted
  }

  ghost predicate HasAll(granted: seq<Permission>, required: seq<Permission>) {
    forall p :: p in required ==> p in granted
  }

  // ---------- runs ----------

  /** The user table belongs to the database; the service keeps the other two. */
  datatype State = State(users: seq<User>, roles: RoleTable, cache: map<int, seq<Permission>>)

  /** `Ask` is any permission check; `dbOk` says whether the user list can be read.
      `ChangeRole` is the user handler's update, which clears no cache. */
  datatype Event =
    | Ask(userId: int, dbOk: bool)
    | SetRole(role: Role, permissions: seq<Permission>)
    | InvalidateUser(userId: int)
    | InvalidateRole(role: Role)
    | ChangeRole(userId: int, role: Role)

  /** What a check works with. */
  function Used(s: State, userId: int, dbOk: bool): seq<Permission> {
    if userId in s.cache then s.cache[userId]
    else if dbOk then Direct(s.users, s.roles, userId) else []
  }

  function Reset(roles: RoleTable, role: Role): RoleTable {
    if role in Defaults() then roles[role := Defaults()[role]] else roles - {role}
  }

  /** The user with this id, if there is one, gets the role. */
  function WithRole(users: seq<User>, userId: int, role: Role): (r: seq<User>)
    ensures |r| == |users|
  {
    if users == [] then []
    else if users[0].id == userId then [users[0].(role := role)] + users[1..]
    else [users[0]] + WithRole(users[1..], userId, role)
  }

  lemma {:induction false} WithRoleAt(users: seq<User>, i: nat, userId: int, role: Role)
    requires i < |users| && users[i].id == userId && forall k :: 0 <= k < i ==> users[k].id != userId
    ensures WithRole(users, userId, role) == users[i := users[i].(role := role)]
    decreases i
  {
    if i > 0 {
      WithRoleAt(users[1..], i - 1, userId, role);
    }
  }

  function Step(s: State, e: Event): State {
    match e
    case Ask(u, dbOk) => s.(cache := s.cache[u := Used(s, u, dbOk)])
    case SetRole(r, ps) => s.(roles := s.roles[r := ps], cache := map[])
    case InvalidateUser(u) => s.(cache := s.cache - {u})
    case InvalidateRole(r) => s.(roles := Reset(s.roles, r))
    case ChangeRole(u, r) => s.(users := WithRole(s.users, u, r))
  }

  /** The user is among those that are fetched. */
  ghost predicate Listed(users: seq<User>, userId: int) {
    exists i :: 0 <= i < |Fetched(users)| && users[i].id == userId
  }

  /** Every cached list is what would be computed now. */
  ghost predicate Coherent(s: State) {
    forall u :: u in s.cache ==> s.cache[u] == Direct(s.users, s.roles, u)
  }

  /** What an event must satisfy for the cache to stay right: the user list can be read
      when it is needed, a role is reset only to what it already grants or while
      nobody who has it is cached, and a user changes role only while not cached, while
      beyond the users that are fetched, or to a role that grants the same. */
  ghost predicate Harmless(s: State, e: Event) {
    match e
    case Ask(u, dbOk) => dbOk || u in s.cache || Direct(s.users, s.roles, u) == []
    case InvalidateRole(r) =>
      || s.users == []
      || RolePermissions(Reset(s.roles, r), r) == RolePermissions(s.roles, r)
      || forall u :: u in s.cache ==> RoleOf(Fetched(s.users), u) != r
    case ChangeRole(u, r) =>
      || u !in s.cache
      || !Listed(s.users, u)
      || RolePermissions(s.roles, Named(r)) == RolePermissions(s.roles, RoleOf(Fetched(s.users), u))
    case _ => true
  }

  lemma {:induction false} OthersKeepRole(users: seq<User>, userId: int, role: Role, n: nat, other: int)
    requires n <= |users| && other != userId
    ensures RoleOf(WithRole(users, userId, role)[..n], other) == RoleOf(users[..n], other)
    decreases |users|
  {
    if n > 0 {
      var users' := WithRole(users, userId, role);
      assert users[..n][1..] == users[1..][..n - 1] && users'[..n][1..] == users'[1..][..n - 1];
      if users[0].id != userId {
        OthersKeepRole(users[1..], userId, role, n - 1, other);
      }
    }
  }

  lemma {:induction false} OwnRoleChanges(users: seq<User>, userId: int, role: Role, n: nat)
    requires n <= |users|
    ensures RoleOf(WithRole(users, userId, role)[..n], userId) ==
      if exists i :: 0 <= i < n && users[i].id == userId then Named(role) else "User"
    ensures (forall i :: 0 <= i < n ==> users[i].id != userId) ==> RoleOf(users[..n], userId) == "User"
    decreases |users|
  {
    if n > 0 {
      var users' := WithRole(users, userId, role);
      assert users[..n][1..] == users[1..][..n - 1] && users'[..n][1..] == users'[1..][..n - 1];
      if users[0].id != userId {
        OwnRoleChanges(users[1..], userId, role, n - 1);
        if i :| 0 <= i < n && users[i].id == userId {
          assert users[1..][i - 1].id == userId;
        }
      }
    }
  }

  /** The user's own permissions after the change. */
  lemma OwnPermissionsChange(users: seq<User>, roles: RoleTable, userId: int, role: Role)
    ensures Direct(WithRole(users, userId, role), roles, userId) ==
      if Listed(users, userId) then RolePermissions(roles, Named(role)) else Direct(users, roles, userId)
  {
    var n := |Fetched(users)|;
    OwnRoleChanges(users, userId, role, n);
    assert Fetched(users) == users[..n] && Fetched(WithRole(users, userId, role)) == WithRole(users, userId, role)[..n];
  }

  /** A user's change of role is nobody else's. */
  lemma OthersKeepPermissions(users: seq<User>, roles: RoleTable, userId: int, role: Role, other: int)
    requires other != userId
    ensures Direct(WithRole(users, userId, role), roles, other) == Direct(users, roles, other)
  {
    var n := |Fetched(users)|;
    OthersKeepRole(users, userId, role, n, other);
    assert Fetched(users) == users[..n] && Fetched(WithRole(users, userId, role)) == WithRole(users, userId, role)[..n];
  }

  /** An event keeps the cache right exactly when it is harmless; setting a role and
      invalidating a user always are. */
  lemma {:induction false} CoherentIffHarmless(s: State, e: Event)
    requires Coherent(s)
    ensures Coherent(Step(s, e)) <==> Harmless(s, e)
  {
    var s' := Step(s, e);
    match e {
      case Ask(u, dbOk) =>
        assert s'.cache[u] == Used(s, u, dbOk);
      case InvalidateRole(r) =>
        forall role | role != r
          ensures RolePermissions(s'.roles, role) == RolePermissions(s.roles, role)
        {
        }
      case ChangeRole(u, r) =>
        OwnPermissionsChange(s.users, s.roles, u, r);
        forall other | other != u
          ensures Direct(s'.users, s.roles, other) == Direct(s.users, s.roles, other)
        {
          OthersKeepPermissions(s.users, s.roles, u, r, other);
        }
      case _ =>
    }
  }

  function Run(users: seq<User>, es: seq<Event>): State {
    if es == [] then State(users, Defaults(), map[]) else Step(Run(users, es[..|es| - 1]), es[|es| - 1])
  }

  /** From the start, or from a setting of role permissions, which clears the cache. */
  lemma {:induction false} RunCoherent(users: seq<User>, es: seq<Event>, from: nat)
    requires from <= |es| && (from == 0 || es[from - 1].SetRole?)
    requires forall k :: from <= k < |es| ==> Harmless(Run(users, es[..k]), es[k])
    ensures Coherent(Run(users, es))
    decreases |es|
  {
    if |es| > from {
      var n := |es| - 1;
      forall k | from <= k < n
        ensures Harmless(Run(users, es[..n][..k]), es[..n][k])
      {
        assert es[..n][..k] == es[..k];
      }
      RunCoherent(users, es[..n], from);
      CoherentIffHarmless(Run(users, es[..n]), es[n]);
    }
  }

  /** From the start, or after any setting of role permissions whatever came before it:
      while there are only checks over a readable user list, settings of role
      permissions, user invalidations, and role changes of users who are not cached, the
      next check answers from the current tables.  Right after a setting, everyone with
      the role has the new list. */
  lemma {:induction false} CacheIsTransparent(users: seq<User>, es: seq<Event>, from: nat,
                                              userId: int, required: seq<Permission>)
    requires from <= |es| && (from == 0 || es[from - 1].SetRole?)
    requires forall k :: from <= k < |es| ==>
      && !es[k].InvalidateRole?
      && (es[k].Ask? ==> es[k].dbOk)
      && (es[k].ChangeRole? ==> es[k].userId !in Run(users, es[..k]).cache)
    ensures
      var s := Run(users, es);
      && Used(s, userId, true) == Direct(s.users, s.roles, userId)
      && (HasAny(Used(s, userId, true), required) <==> HasAny(Direct(s.users, s.roles, userId), required))
      && (HasAll(Used(s, userId, true), required) <==> HasAll(Direct(s.users, s.roles, userId), required))
      && (0 < from == |es| && s.users != [] && RoleOf(Fetched(s.users), userId) == es[from - 1].role ==>
            Used(s, userId, true) == es[from - 1].permissions)
  {
    RunCoherent(users, es, from);
  }

  // ---------- who may do what ----------

  /** The first user with this id among those fetched. */
  ghost predicate FirstWithId(users: seq<User>, userId: int, i: nat) {
    i < |users| && i < FETCH_LIMIT && users[i].id == userId && forall j :: 0 <= j < i ==> users[j].id != userId
  }

  lemma {:induction false} RoleOfFirst(users: seq<User>, userId: int)
    ensures forall i: nat | i < |users| && users[i].id == userId && (forall j :: 0 <= j < i ==> users[j].id != userId)
      :: RoleOf(users, userId) == Named(users[i].role)
    ensures (forall u :: u in users ==> u.id != userId) ==> RoleOf(users, userId) == "User"
  {
    if users != [] {
      RoleOfFirst(users[1..], userId);
      assert forall j :: 1 <= j < |users| ==> users[j] == users[1..][j - 1];
      assert forall u :: u in users[1..] ==> u in users;
      forall i: nat | i < |users| && users[i].id == userId && (forall j :: 0 <= j < i ==> users[j].id != userId)
        ensures RoleOf(users, userId) == Named(users[i].role)
      {
        if i > 0 {
          assert users[0].id != userId && users[1..][i - 1] == users[i];
          assert forall j :: 0 <= j < i - 1 ==> users[1..][j] == users[j + 1];
        }
      }
    }
  }

  /** Whose permissions these are: none if there are no users at all; those of the first
      user with the id; otherwise, and for an empty role, those of a plain user. */
  lemma {:induction false} DirectMeans(users: seq<User>, roles: RoleTable, userId: int, i: nat)
    ensures users == [] ==> Direct(users, roles, userId) == []
    ensures FirstWithId(users, userId, i) ==>
      Direct(users, roles, userId) == RolePermissions(roles, if users[i].role == "" then "User" else users[i].role)
    ensures users != [] && !Listed(users, userId) ==> Direct(users, roles, userId) == RolePermissions(roles, "User")
  {
    var fetched := Fetched(users);
    RoleOfFirst(fetched, userId);
    if FirstWithId(users, userId, i) {
      assert fetched[i] == users[i] && forall j :: 0 <= j < i ==> fetched[j] == users[j];
    }
    if !Listed(users, userId) {
      forall u | u in fetched
        ensures u.id != userId
      {
        var k :| 0 <= k < |fetched| && fetched[k] == u;
        assert users[k] == u;
      }
    }
  }

  /** Whatever the cache held, after a user's invalidation the next check of that user
      computes the list anew, and everybody else's is as it was. */
  lemma InvalidationRefreshes(s: State, userId: int, other: int, dbOk: bool)
    ensures var s' := Step(s, InvalidateUser(userId));
      && Used(s', userId, dbOk) == (if dbOk then Direct(s.users, s.roles, userId) else [])
      && (other != userId ==> Used(s', other, dbOk) == Used(s, other, dbOk))
  {
  }

  /** By default every role grants what the one below it grants, and more; an unknown role
      grants nothing. */
  lemma {:induction false} DefaultRolesNested(p: Permission, role: Role)
    ensures p in RolePermissions(Defaults(), "User") ==> p in RolePermissions(Defaults(), "Manager")
    ensures p in RolePermissions(Defaults(), "Manager") ==> p in RolePermissions(Defaults(), "Admin")
    ensures p in RolePermissions(Defaults(), "User") <==> p in {"view_licenses", "view_activations", "export_data"}
    ensures p in RolePermissions(Defaults(), "Manager") && p !in RolePermissions(Defaults(), "User") <==>
      p in {"view_users", "create_licenses", "edit_licenses", "revoke_licenses", "manage_activations",
            "view_audit_logs", "view_analytics"}
    ensures p in RolePermissions(Defaults(), "Admin") && p !in RolePermissions(Defaults(), "Manager") <==>
      p in {"create_users", "edit_users", "delete_users", "manage_roles", "manage_permissions", "bulk_revoke",
            "manage_settings", "view_system_health", "manage_notifications"}
    ensures role !in {"User", "Manager", "Admin"} ==> RolePermissions(Defaults(), role) == []
  {
  }

  /** What a role was last given: set, reset to its default, or its default from the start. */
  function LastGrant(es: seq<Event>, role: Role): seq<Permission> {
    if es == [] then RolePermissions(Defaults(), role)
    else
      var e := es[|es| - 1];
      if e.SetRole? && e.role == role then e.permissions
      else if e.InvalidateRole? && e.role == role then RolePermissions(Defaults(), role)
      else LastGrant(es[..|es| - 1], role)
  }

  /** After any run, every role grants what it was last given; others are not touched. */
  lemma {:induction false} RolesAsLastSet(users: seq<User>, es: seq<Event>, role: Role)
    ensures RolePermissions(Run(users, es).roles, role) == LastGrant(es, role)
    decreases |es|
  {
    if es != [] {
      RolesAsLastSet(users, es[..|es| - 1], role);
    }
  }

  // ---------- the service ----------

  class PermissionService {
    var users: seq<User>   // the user table, which the user handler writes
    var roleCache: RoleTable
    var userCache: map<int, seq<Permission>>

    constructor (users: seq<User>)
      ensures this.users == users && Now() == Run(users, [])
    {
      this.users := users;
      roleCache, userCache := Defaults(), map[];
    }

    function Now(): State
      reads this
    {
      State(users, roleCache, userCache)
    }

    method GetRolePermissions(role: Role) returns (r: seq<Permission>)
      ensures r == RolePermissions(roleCache, role)
    {
      if role in roleCache {
        return roleCache[role];
      }
      if role in Defaults() {
        return Defaults()[role];
      }
      return [];
    }

    method BuildUserPermissions(userId: int, dbOk: bool) returns (r: seq<Permission>)
      ensures r == if dbOk then Direct(users, roleCache, userId) else []
    {
      if !dbOk || |users| == 0 {
        return [];
      }
      var list := Fetched(users);
      var userRole := "";
      var i := 0;
      while i < |list|
        invariant 0 <= i <= |list| && userRole == ""
        invariant RoleOf(list, userId) == RoleOf(list[i..], userId)
      {
        assert list[i..][1..] == list[i + 1..];
        if list[i].id == userId {
          userRole := list[i].role;
          break;
        }
        i := i + 1;
      }
      if userRole == "" {
        userRole := "User";
      }
      r := GetRolePermissions(userRole);
    }

    method GetPermissionsWithCache(userId: int, dbOk: bool) returns (r: seq<Permission>)
      modifies this`userCache
      ensures r == Used(old(Now()), userId, dbOk)
      ensures Now() == Step(old(Now()), Ask(userId, dbOk))
    {
      if userId in userCache {
        assert userCache[userId := userCache[userId]] == userCache;
        return userCache[userId];
      }
      r := BuildUserPermissions(userId, dbOk);
      userCache := userCache[userId := r];
    }

    /** The answer is that of the list in use; on a coherent cache with a readable user
        list, the one computed directly. */
    method HasAnyPermission(userId: int, permissions: seq<Permission>, dbOk: bool) returns (r: bool)
      modifies this`userCache
      ensures Now() == Step(old(Now()), Ask(userId, dbOk))
      ensures r <==> HasAny(Used(old(Now()), userId, dbOk), permissions)
      ensures Coherent(old(Now())) && dbOk ==>
        Coherent(Now()) && (r <==> HasAny(Direct(users, roleCache, userId), permissions))
    {
      if Coherent(Now()) {
        CoherentIffHarmless(Now(), Ask(userId, dbOk));
      }
      var userPerms := GetPermissionsWithCache(userId, dbOk);
      for i := 0 to |permissions|
        invariant forall k :: 0 <= k < i ==> permissions[k] !in userPerms
      {
        for j := 0 to |userPerms|
          invariant forall k :: 0 <= k < j ==> userPerms[k] != permissions[i]
        {
          if userPerms[j] == permissions[i] {
            assert permissions[i] in permissions && userPerms[j] in userPerms;
            return true;
          }
        }
      }
      return false;
    }

    method HasAllPermissions(userId: int, permissions: seq<Permission>, dbOk: bool) returns (r: bool)
      modifies this`userCache
      ensures Now() == Step(old(Now()), Ask(userId, dbOk))
      ensures r <==> HasAll(Used(old(Now()), userId, dbOk), permissions)
      ensures Coherent(old(Now())) && dbOk ==>
        Coherent(Now()) && (r <==> HasAll(Direct(users, roleCache, userId), permissions))
    {
      if Coherent(Now()) {
        CoherentIffHarmless(Now(), Ask(userId, dbOk));
      }
      var userPerms := GetPermissionsWithCache(userId, dbOk);
      for i := 0 to |permissions|
        invariant forall k :: 0 <= k < i ==> permissions[k] in userPerms
      {
        var found := false;
        for j := 0 to |userPerms|
          invariant !found && forall k :: 0 <= k < j ==> userPerms[k] != permissions[i]
        {
          if userPerms[j] == permissions[i] {
            found := true;
            break;
          }
        }
        if !found {
          assert permissions[i] in permissions;
          return false;
        }
      }
      return true;
    }

    method SetRolePermissions(role: Role, permissions: seq<Permission>)
      modifies this
      ensures Coherent(Now()) && Now() == Step(old(Now()), SetRole(role, permissions))
    {
      roleCache := roleCache[role := permissions];
      userCache := map[];
    }

    method InvalidateUserPermissionCache(userId: int)
      modifies this`userCache
      ensures Now() == Step(old(Now()), InvalidateUser(userId))
      ensures Coherent(old(Now())) ==> Coherent(Now())
    {
      userCache := userCache - {userId};
    }

    method InvalidateRolePermissionCache(role: Role)
      modifies this`roleCache
      ensures Now() == Step(old(Now()), InvalidateRole(role))
    {
      roleCache := roleCache - {role};
      if role in Defaults() {
        roleCache := roleCache[role := Defaults()[role]];
      }
    }

    /** The user handler's UpdateUserRole, after its admin check: the caches are not
        told. */
    method UpdateUserRole(userId: int, role: Role, dbOk: bool) returns (ok: bool)
      modifies this`users
      ensures ok <==> dbOk && exists i :: 0 <= i < |old(users)| && old(users)[i].id == userId
      ensures Now() == if ok then Step(old(Now()), ChangeRole(userId, role)) else old(Now())
    {
      var i := 0;
      while i < |users|
        invariant 0 <= i <= |users| && forall k :: 0 <= k < i ==> users[k].id != userId
      {
        if users[i].id == userId {
          if !dbOk {
            return false;
          }
          WithRoleAt(users, i, userId, role);
          users := users[i := users[i].(role := role)];
          return true;
        }
        i := i + 1;
      }
      return false;
    }
  }
}
