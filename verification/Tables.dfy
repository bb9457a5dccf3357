// The database rows the authorization decision depends on, the reference
// decision they define, and how that decision moves with time.

module Tables {
  import opened PermissionMatcher

  type Id = string
  type Time = int // milliseconds

  datatype Option<+T> = None | Some(value: T)

  datatype Permission = Permission(id: Id, code: string)
  datatype Role = Role(tenant: Option<Id>, isSystem: bool, name: string)
  datatype RolePermission = RolePermission(roleId: Id, permissionId: Id)
  datatype UserRole = UserRole(tenant: Id, user: Id, roleId: Id, expires: Option<Time>)
  datatype OverrideKind = Grant | Deny
  datatype Override = Override(id: Id, tenant: Id, user: Id, permissionId: Id, kind: OverrideKind)
  datatype Acl = Acl(id: Id, tenant: Id, user: Id, resourceType: string, resourceId: string, permission: string)

  /** Rows are sequences: only `permissions.code` and the override key are unique in the schema. */
  datatype Db = Db(
    tenants: set<Id>,
    users: map<Id, Id>, // user id to tenant id
    permissions: seq<Permission>,
    roles: map<Id, Role>,
    rolePermissions: seq<RolePermission>,
    userRoles: seq<UserRole>,
    overrides: seq<Override>,
    acls: seq<Acl>)

  /** One authorization question; "" stands for an absent resource field. */
  datatype Query = Query(tenant: Id, user: Id, permission: string, resourceType: string, resourceId: string)
  {
    predicate HasResource() { resourceType != "" && resourceId != "" }
  }

  // ---- the reference decision ----

  predicate Active(expires: Option<Time>, now: Time)
  {
    expires.None? || expires.value > now
  }

  predicate Belongs(ur: UserRole, tenant: Id, user: Id)
  {
    ur.tenant == tenant && ur.user == user
  }

  predicate RoleGives(db: Db, tenant: Id, user: Id, now: Time, permissionId: Id)
  {
    exists ur | ur in db.userRoles ::
      Belongs(ur, tenant, user) && Active(ur.expires, now) && RolePermission(ur.roleId, permissionId) in db.rolePermissions
  }

  predicate HasOverride(db: Db, tenant: Id, user: Id, permissionId: Id, kind: OverrideKind)
  {
    exists o | o in db.overrides :: o.tenant == tenant && o.user == user && o.permissionId == permissionId && o.kind == kind
  }

  predicate Holds(db: Db, tenant: Id, user: Id, now: Time, permissionId: Id)
  {
    && (RoleGives(db, tenant, user, now, permissionId) || HasOverride(db, tenant, user, permissionId, Grant))
    && !HasOverride(db, tenant, user, permissionId, Deny)
  }

  /** Row by row: an unexpired assignment of a role mapped to it, or a grant, and no deny, all of this tenant and user. */
  lemma HeldByRows(db: Db, tenant: Id, user: Id, now: Time, permissionId: Id)
    ensures Holds(db, tenant, user, now, permissionId) <==>
            && (|| (exists ur :: ur in db.userRoles && ur.tenant == tenant && ur.user == user
                     && (ur.expires == None || ur.expires.value > now) && RolePermission(ur.roleId, permissionId) in db.rolePermissions)
                || exists o :: o in db.overrides && o.tenant == tenant && o.user == user && o.permissionId == permissionId && o.kind == Grant)
            && !exists o :: o in db.overrides && o.tenant == tenant && o.user == user && o.permissionId == permissionId && o.kind == Deny
  {
  }

  /** The codes the user effectively holds: role permissions, plus grants, minus denies. */
  function Effective(db: Db, tenant: Id, user: Id, now: Time): set<string>
  {
    set p | p in db.permissions && Holds(db, tenant, user, now, p.id) :: p.code
  }

  // ---- the effective set as it is read, in three statements ----

  /** First read: the roles of the unexpired assignments. */
  function HeldRoles(db: Db, tenant: Id, user: Id, now: Time): set<Id>
  {
    set ur | ur in db.userRoles && Belongs(ur, tenant, user) && Active(ur.expires, now) :: ur.roleId
  }

  /** Second read: the permissions mapped to those roles. */
  function PermissionsOf(db: Db, roles: set<Id>): set<Permission>
  {
    set p | p in db.permissions && exists r | r in roles :: RolePermission(r, p.id) in db.rolePermissions
  }

  /** Third read: the overrides, and the set they leave. */
  function Overridden(db: Db, tenant: Id, user: Id, given: set<Permission>): set<string>
  {
    var grants := set p | p in db.permissions && HasOverride(db, tenant, user, p.id, Grant);
    set p | p in given + grants && !HasOverride(db, tenant, user, p.id, Deny) :: p.code
  }

  lemma PermissionsGiven(db: Db, tenant: Id, user: Id, now: Time, p: Permission)
    ensures p in PermissionsOf(db, HeldRoles(db, tenant, user, now)) <==> p in db.permissions && RoleGives(db, tenant, user, now, p.id)
  {
    if RoleGives(db, tenant, user, now, p.id) {
      var ur :| ur in db.userRoles && Belongs(ur, tenant, user) && Active(ur.expires, now)
        && RolePermission(ur.roleId, p.id) in db.rolePermissions;
      assert ur.roleId in HeldRoles(db, tenant, user, now);
    }
  }

  /** Three reads of the same tables at the same time give the effective set. */
  lemma EffectiveInThreeReads(db: Db, tenant: Id, user: Id, now: Time)
    ensures Overridden(db, tenant, user, PermissionsOf(db, HeldRoles(db, tenant, user, now))) == Effective(db, tenant, user, now)
  {
    forall p: Permission
      ensures p in PermissionsOf(db, HeldRoles(db, tenant, user, now)) <==> p in db.permissions && RoleGives(db, tenant, user, now, p.id)
    {
      PermissionsGiven(db, tenant, user, now, p);
    }
  }

  lemma OverriddenMonotone(db: Db, tenant: Id, user: Id, fewer: set<Permission>, more: set<Permission>)
    requires fewer <= more
    ensures Overridden(db, tenant, user, fewer) <= Overridden(db, tenant, user, more)
  {
  }

  predicate Matches(acl: Acl, q: Query)
  {
    && acl.tenant == q.tenant && acl.user == q.user && acl.permission == q.permission
    && acl.resourceType == q.resourceType && acl.resourceId == q.resourceId
  }

  predicate AclAllows(db: Db, q: Query)
  {
    exists a | a in db.acls :: Matches(a, q)
  }

  ghost predicate RbacAllows(db: Db, q: Query, now: Time)
  {
    Grants(Effective(db, q.tenant, q.user, now), q.permission)
  }

  /** RBAC first; an exact ACL row only when RBAC denies and a full resource is given. */
  ghost predicate Decide(db: Db, q: Query, now: Time)
  {
    RbacAllows(db, q, now) || (q.HasResource() && AclAllows(db, q))
  }

  // ---- the code-level set formula ----

  function RoleCodes(db: Db, tenant: Id, user: Id, now: Time): set<string>
  {
    set p | p in db.permissions && RoleGives(db, tenant, user, now, p.id) :: p.code
  }

  function OverrideCodes(db: Db, tenant: Id, user: Id, kind: OverrideKind): set<string>
  {
    set p | p in db.permissions && HasOverride(db, tenant, user, p.id, kind) :: p.code
  }

  /** The schema's primary key on `id` and unique constraint on `code`. */
  ghost predicate UniquePermissions(rows: seq<Permission>)
  {
    forall p, q | p in rows && q in rows :: p.id == q.id <==> p.code == q.code
  }

  /** No id twice in a list of permission rows. */
  ghost predicate DistinctIds(rows: seq<Permission>)
  {
    forall i, j | 0 <= i < j < |rows| :: rows[i].id != rows[j].id
  }

  /** Denying by permission id and denying by code are the same thing when both are unique. */
  lemma EffectiveIsSetFormula(db: Db, tenant: Id, user: Id, now: Time)
    requires UniquePermissions(db.permissions)
    ensures Effective(db, tenant, user, now) ==
            (RoleCodes(db, tenant, user, now) + OverrideCodes(db, tenant, user, Grant))
            - OverrideCodes(db, tenant, user, Deny)
  {
    var formula := (RoleCodes(db, tenant, user, now) + OverrideCodes(db, tenant, user, Grant))
      - OverrideCodes(db, tenant, user, Deny);
    forall c | c in Effective(db, tenant, user, now)
      ensures c in formula
    {
      var p :| p in db.permissions && Holds(db, tenant, user, now, p.id) && p.code == c;
      assert forall q | q in db.permissions && q.code == c :: q.id == p.id;
    }
    forall c | c in formula
      ensures c in Effective(db, tenant, user, now)
    {
      var p :| p in db.permissions && p.code == c &&
        (RoleGives(db, tenant, user, now, p.id) || HasOverride(db, tenant, user, p.id, Grant));
      assert Holds(db, tenant, user, now, p.id);
    }
  }

  // ---- frame: which rows a user's decision depends on ----

  ghost predicate SameAssignments(db: Db, db': Db, tenant: Id, user: Id)
  {
    forall ur: UserRole | Belongs(ur, tenant, user) :: ur in db.userRoles <==> ur in db'.userRoles
  }

  ghost predicate SameOverrides(db: Db, db': Db, tenant: Id, user: Id)
  {
    forall p, kind :: HasOverride(db, tenant, user, p, kind) <==> HasOverride(db', tenant, user, p, kind)
  }

  ghost predicate SameRolePermissions(db: Db, db': Db, tenant: Id, user: Id)
  {
    forall ur, p | ur in db.userRoles && Belongs(ur, tenant, user) ::
      RolePermission(ur.roleId, p) in db.rolePermissions <==> RolePermission(ur.roleId, p) in db'.rolePermissions
  }

  /** The two tables agree on everything the effective set of this user reads. */
  ghost predicate SameForUser(db: Db, db': Db, tenant: Id, user: Id)
  {
    && db.permissions == db'.permissions
    && SameAssignments(db, db', tenant, user)
    && SameOverrides(db, db', tenant, user)
    && SameRolePermissions(db, db', tenant, user)
  }

  lemma FrameEffective(db: Db, db': Db, tenant: Id, user: Id, now: Time)
    requires SameForUser(db, db', tenant, user)
    ensures Effective(db, tenant, user, now) == Effective(db', tenant, user, now)
  {
    forall p
      ensures RoleGives(db, tenant, user, now, p) <==> RoleGives(db', tenant, user, now, p)
    {
      FrameRoleGives(db, db', tenant, user, now, p);
    }
    assert forall p :: Holds(db, tenant, user, now, p) <==> Holds(db', tenant, user, now, p);
  }

  lemma FrameRoleGives(db: Db, db': Db, tenant: Id, user: Id, now: Time, p: Id)
    requires SameAssignments(db, db', tenant, user) && SameRolePermissions(db, db', tenant, user)
    ensures RoleGives(db, tenant, user, now, p) <==> RoleGives(db', tenant, user, now, p)
  {
    if RoleGives(db, tenant, user, now, p) {
      var ur :| ur in db.userRoles && Belongs(ur, tenant, user) && Active(ur.expires, now)
        && RolePermission(ur.roleId, p) in db.rolePermissions;
      assert ur in db'.userRoles;
    }
    if RoleGives(db', tenant, user, now, p) {
      var ur :| ur in db'.userRoles && Belongs(ur, tenant, user) && Active(ur.expires, now)
        && RolePermission(ur.roleId, p) in db'.rolePermissions;
      assert ur in db.userRoles;
    }
  }

  // ---- time ----

  predicate ExpiresWithin(expires: Option<Time>, from: Time, to: Time)
  {
    expires.Some? && from < expires.value <= to
  }

  /** No assignment of the user, still stored or already purged, ran out in (from, to]. */
  ghost predicate NoExpiry(db: Db, purged: seq<UserRole>, tenant: Id, user: Id, from: Time, to: Time)
  {
    forall ur: UserRole | Belongs(ur, tenant, user) && (ur in db.userRoles || ur in purged) ::
      !ExpiresWithin(ur.expires, from, to)
  }

  /** As time passes the effective set can only shrink, and only by an expiry. */
  lemma EffectiveOverTime(db: Db, purged: seq<UserRole>, tenant: Id, user: Id, from: Time, to: Time)
    requires from <= to
    ensures Effective(db, tenant, user, to) <= Effective(db, tenant, user, from)
    ensures NoExpiry(db, purged, tenant, user, from, to) ==>
              Effective(db, tenant, user, to) == Effective(db, tenant, user, from)
  {
    forall p | RoleGives(db, tenant, user, to, p)
      ensures RoleGives(db, tenant, user, from, p)
    {
      var ur :| ur in db.userRoles && Belongs(ur, tenant, user) && Active(ur.expires, to)
        && RolePermission(ur.roleId, p) in db.rolePermissions;
      assert Active(ur.expires, from);
    }
    if NoExpiry(db, purged, tenant, user, from, to) {
      forall p | RoleGives(db, tenant, user, from, p)
        ensures RoleGives(db, tenant, user, to, p)
      {
        var ur :| ur in db.userRoles && Belongs(ur, tenant, user) && Active(ur.expires, from)
          && RolePermission(ur.roleId, p) in db.rolePermissions;
        assert Active(ur.expires, to);
      }
    }
    assert forall p :: Holds(db, tenant, user, to, p) ==> Holds(db, tenant, user, from, p);
  }

  // ---- small table operations ----

  /** Index of the first row satisfying `f`, or `|s|`: what `findOne` returns. */
  function IndexWhere<T>(s: seq<T>, f: T -> bool): (i: nat)
    ensures i <= |s|
    ensures i < |s| ==> f(s[i])
    ensures forall j | 0 <= j < i :: !f(s[j])
  {
    if s == [] || f(s[0]) then 0 else 1 + IndexWhere(s[1..], f)
  }

  function RemoveAt<T>(s: seq<T>, i: nat): seq<T>
    requires i < |s|
  {
    s[..i] + s[i + 1..]
  }

  function Keep<T(!new)>(s: seq<T>, f: T -> bool): (r: seq<T>)
    ensures forall x :: x in r <==> x in s && f(x)
  {
    if s == [] then []
    else if f(s[0]) then [s[0]] + Keep(s[1..], f)
    else Keep(s[1..], f)
  }

  lemma {:induction false} KeepAll<T(!new)>(s: seq<T>, f: T -> bool)
    requires forall x | x in s :: f(x)
    ensures Keep(s, f) == s
  {
    if s != [] {
      KeepAll(s[1..], f);
    }
  }
}
