// What each administrative operation does to the tables, as a function, and the
// one cache-invalidation event it emits. The service classes are proved against
// these functions; the protocol runs them.

module Mutations {
  import opened Tables

  /** What a consumer invalidates for one event: a user, a whole tenant, or one ACL answer. */
  datatype Invalidation =
    | UserInvalidation(tenant: Id, user: Id)
    | TenantInvalidation(tenant: Id)
    | AclInvalidation(q: Query)

  predicate CoversUser(inv: Invalidation, tenant: Id, user: Id)
  {
    match inv
    case UserInvalidation(t, u) => t == tenant && u == user
    case TenantInvalidation(t) => t == tenant
    case AclInvalidation(_) => false
  }

  predicate CoversAcl(inv: Invalidation, q: Query)
  {
    inv == AclInvalidation(q)
  }

  predicate CoversDecision(inv: Invalidation, q: Query)
  {
    CoversUser(inv, q.tenant, q.user) || CoversAcl(inv, q)
  }

  datatype RoleGrant = RoleGrant(roleId: Id, expires: Option<Time>)

  datatype Mutation =
    | AssignRole(tenant: Id, user: Id, grant: RoleGrant)
    | UpdateUserRoles(tenant: Id, user: Id, add: seq<RoleGrant>, remove: seq<Id>)
    | UpdateRolePermissions(tenant: Id, roleId: Id, addCodes: seq<string>, removeCodes: seq<string>)
    | AddOverride(newId: Id, tenant: Id, user: Id, permissionId: Id, kind: OverrideKind)
    | RemoveOverride(overrideId: Id, tenant: Id, user: Id)
    | CreateAcl(newId: Id, q: Query)
    | DeleteAcl(aclId: Id, tenant: Id)
    | CreateRole(newId: Id, tenant: Id, name: string)
    | DeleteRole(roleId: Id, tenant: Id)
    | CreateUser(newId: Id, tenant: Id, role: Option<Id>)

  datatype Refusal = NotFound | BadRequest | Conflict | Fault

  datatype Outcome =
    | Done(db: Db, event: Option<Invalidation>)
    | Refused(why: Refusal)

  // ---- role assignments ----

  predicate IsFor(ur: UserRole, tenant: Id, user: Id, roleId: Id)
  {
    Belongs(ur, tenant, user) && ur.roleId == roleId
  }

  function FindAssignment(rows: seq<UserRole>, tenant: Id, user: Id, roleId: Id): (i: nat)
    ensures i <= |rows|
    ensures i < |rows| ==> IsFor(rows[i], tenant, user, roleId)
    ensures forall j | 0 <= j < i :: !IsFor(rows[j], tenant, user, roleId)
  {
    IndexWhere(rows, (ur: UserRole) => IsFor(ur, tenant, user, roleId))
  }

  function Upsert(rows: seq<UserRole>, tenant: Id, user: Id, grant: RoleGrant): seq<UserRole>
  {
    var i := FindAssignment(rows, tenant, user, grant.roleId);
    if i < |rows| then rows[i := rows[i].(expires := grant.expires)]
    else rows + [UserRole(tenant, user, grant.roleId, grant.expires)]
  }

  function UpsertAll(rows: seq<UserRole>, tenant: Id, user: Id, add: seq<RoleGrant>): seq<UserRole>
  {
    if add == [] then rows
    else Upsert(UpsertAll(rows, tenant, user, add[..|add| - 1]), tenant, user, add[|add| - 1])
  }

  lemma UpsertAllStep(rows: seq<UserRole>, tenant: Id, user: Id, add: seq<RoleGrant>, i: nat)
    requires i < |add|
    ensures UpsertAll(rows, tenant, user, add[..i + 1]) == Upsert(UpsertAll(rows, tenant, user, add[..i]), tenant, user, add[i])
  {
    assert add[..i + 1][..i] == add[..i];
  }

  function Unassign(rows: seq<UserRole>, tenant: Id, user: Id, roleId: Id): seq<UserRole>
  {
    var i := FindAssignment(rows, tenant, user, roleId);
    if i < |rows| then RemoveAt(rows, i) else rows
  }

  function UnassignAll(rows: seq<UserRole>, tenant: Id, user: Id, remove: seq<Id>): seq<UserRole>
  {
    if remove == [] then rows
    else Unassign(UnassignAll(rows, tenant, user, remove[..|remove| - 1]), tenant, user, remove[|remove| - 1])
  }

  /** `findOneForTenant`: the tenant's own roles and the system roles. */
  predicate VisibleRole(db: Db, roleId: Id, tenant: Id)
  {
    roleId in db.roles && (db.roles[roleId].tenant == Some(tenant) || db.roles[roleId].isSystem)
  }

  predicate UserInTenant(db: Db, user: Id, tenant: Id)
  {
    user in db.users && db.users[user] == tenant
  }

  // ---- role permissions ----

  predicate IsHex(c: char)
  {
    '0' <= c <= '9' || 'a' <= c <= 'f' || 'A' <= c <= 'F'
  }

  /** The service's UUID pattern: versions 1 to 5, RFC 4122 variant, any case. */
  predicate IsUuid(s: string)
  {
    && |s| == 36
    && (forall i | 0 <= i < 36 :: if i == 8 || i == 13 || i == 18 || i == 23 then s[i] == '-' else IsHex(s[i]))
    && '1' <= s[14] <= '5'
    && s[19] in "89abAB"
  }

  /** Stored UUIDs are lower-case; the database compares them in any case. */
  function Lower(s: string): string
  {
    seq(|s|, i requires 0 <= i < |s| => if 'A' <= s[i] <= 'F' then s[i] - 'A' + 'a' else s[i])
  }

  predicate Names(identifier: string, p: Permission)
  {
    if IsUuid(identifier) then p.id == Lower(identifier) else p.code == identifier
  }

  /** The permissions some identifier names: each row once, in table order. */
  function Resolve(permissions: seq<Permission>, identifiers: seq<string>): (r: seq<Permission>)
    ensures forall p :: p in r <==> p in permissions && exists s | s in identifiers :: Names(s, p)
  {
    Keep(permissions, (p: Permission) => exists s | s in identifiers :: Names(s, p))
  }

  function AddMapping(rows: seq<RolePermission>, roleId: Id, permissionId: Id): seq<RolePermission>
  {
    var rp := RolePermission(roleId, permissionId);
    if rp in rows then rows else rows + [rp]
  }

  function AddMappings(rows: seq<RolePermission>, roleId: Id, permissions: seq<Permission>): seq<RolePermission>
  {
    if permissions == [] then rows
    else AddMapping(AddMappings(rows, roleId, permissions[..|permissions| - 1]), roleId, permissions[|permissions| - 1].id)
  }

  function FindMapping(rows: seq<RolePermission>, rp: RolePermission): (i: nat)
    ensures i <= |rows|
    ensures i < |rows| ==> rows[i] == rp
    ensures i == |rows| <==> rp !in rows
  {
    IndexWhere(rows, (r: RolePermission) => r == rp)
  }

  function DropMapping(rows: seq<RolePermission>, roleId: Id, permissionId: Id): seq<RolePermission>
  {
    var i := FindMapping(rows, RolePermission(roleId, permissionId));
    if i < |rows| then RemoveAt(rows, i) else rows
  }

  function DropMappings(rows: seq<RolePermission>, roleId: Id, permissions: seq<Permission>): seq<RolePermission>
  {
    if permissions == [] then rows
    else DropMapping(DropMappings(rows, roleId, permissions[..|permissions| - 1]), roleId, permissions[|permissions| - 1].id)
  }

  function UpdateMappings(db: Db, roleId: Id, add: seq<string>, remove: seq<string>): seq<RolePermission>
  {
    DropMappings(AddMappings(db.rolePermissions, roleId, Resolve(db.permissions, add)), roleId, Resolve(db.permissions, remove))
  }

  // ---- overrides and ACL rows ----

  function FindOverride(rows: seq<Override>, tenant: Id, user: Id, permissionId: Id): (i: nat)
    ensures i <= |rows|
    ensures i < |rows| ==> rows[i].tenant == tenant && rows[i].user == user && rows[i].permissionId == permissionId
    ensures forall j | 0 <= j < i :: !(rows[j].tenant == tenant && rows[j].user == user && rows[j].permissionId == permissionId)
  {
    IndexWhere(rows, (o: Override) => o.tenant == tenant && o.user == user && o.permissionId == permissionId)
  }

  function FindOverrideById(rows: seq<Override>, id: Id, tenant: Id, user: Id): (i: nat)
    ensures i <= |rows|
    ensures i < |rows| ==> rows[i].id == id && rows[i].tenant == tenant && rows[i].user == user
    ensures forall j | 0 <= j < i :: !(rows[j].id == id && rows[j].tenant == tenant && rows[j].user == user)
  {
    IndexWhere(rows, (o: Override) => o.id == id && o.tenant == tenant && o.user == user)
  }

  function FindAcl(rows: seq<Acl>, id: Id, tenant: Id): (i: nat)
    ensures i <= |rows|
    ensures i < |rows| ==> rows[i].id == id && rows[i].tenant == tenant
    ensures forall j | 0 <= j < i :: !(rows[j].id == id && rows[j].tenant == tenant)
  {
    IndexWhere(rows, (a: Acl) => a.id == id && a.tenant == tenant)
  }

  function AclQuery(a: Acl): Query
  {
    Query(a.tenant, a.user, a.permission, a.resourceType, a.resourceId)
  }

  /** The request validation on ACL fields. */
  predicate FilledIn(q: Query)
  {
    q.tenant != "" && q.user != "" && q.permission != "" && q.HasResource()
  }

  // ---- the operations ----

  function Assign(db: Db, tenant: Id, user: Id, grant: RoleGrant): Outcome
  {
    if !UserInTenant(db, user, tenant) || !VisibleRole(db, grant.roleId, tenant) then Refused(NotFound)
    else Done(db.(userRoles := Upsert(db.userRoles, tenant, user, grant)), Some(UserInvalidation(tenant, user)))
  }

  predicate AllVisible(db: Db, tenant: Id, add: seq<RoleGrant>)
  {
    forall g | g in add :: VisibleRole(db, g.roleId, tenant)
  }

  function UpdateRoles(db: Db, tenant: Id, user: Id, add: seq<RoleGrant>, remove: seq<Id>): Outcome
  {
    if !UserInTenant(db, user, tenant) || !AllVisible(db, tenant, add) then Refused(NotFound)
    else
      var rows := UnassignAll(UpsertAll(db.userRoles, tenant, user, add), tenant, user, remove);
      Done(db.(userRoles := rows), Some(UserInvalidation(tenant, user)))
  }

  /** Position of the first role the tenant cannot use, or `|add|`. */
  function FirstInvisible(db: Db, tenant: Id, add: seq<RoleGrant>): (i: nat)
    ensures i <= |add|
    ensures i < |add| ==> !VisibleRole(db, add[i].roleId, tenant)
    ensures forall j | 0 <= j < i :: VisibleRole(db, add[j].roleId, tenant)
    ensures i == |add| <==> AllVisible(db, tenant, add)
  {
    var i := IndexWhere(add, (g: RoleGrant) => !VisibleRole(db, g.roleId, tenant));
    assert i < |add| ==> add[i] in add;
    i
  }

  /** The tables a refused batch leaves before its transaction rolls back. */
  function HalfDone(db: Db, tenant: Id, user: Id, add: seq<RoleGrant>): Db
  {
    if UserInTenant(db, user, tenant)
    then db.(userRoles := UpsertAll(db.userRoles, tenant, user, add[..FirstInvisible(db, tenant, add)]))
    else db
  }

  function UpdatePermissions(db: Db, tenant: Id, roleId: Id, add: seq<string>, remove: seq<string>): Outcome
  {
    if !VisibleRole(db, roleId, tenant) then Refused(NotFound)
    else if db.roles[roleId].isSystem then Refused(BadRequest)
    else Done(db.(rolePermissions := UpdateMappings(db, roleId, add, remove)), Some(TenantInvalidation(tenant)))
  }

  function PutOverride(db: Db, newId: Id, tenant: Id, user: Id, permissionId: Id, kind: OverrideKind): Outcome
  {
    var rows := db.overrides;
    var i := FindOverride(rows, tenant, user, permissionId);
    if !exists p | p in db.permissions :: p.id == permissionId then Refused(NotFound)
    else if i < |rows| then
      if rows[i].kind == kind then Done(db, None)
      else Done(db.(overrides := rows[i := rows[i].(kind := kind)]), Some(UserInvalidation(tenant, user)))
    else if user !in db.users || tenant !in db.tenants then Refused(Fault)
    else Done(db.(overrides := rows + [Override(newId, tenant, user, permissionId, kind)]), Some(UserInvalidation(tenant, user)))
  }

  function DropOverride(db: Db, id: Id, tenant: Id, user: Id): Outcome
  {
    var i := FindOverrideById(db.overrides, id, tenant, user);
    if i < |db.overrides| then
      Done(db.(overrides := RemoveAt(db.overrides, i)), Some(UserInvalidation(tenant, user)))
    else Done(db, None)
  }

  function AllowAcl(db: Db, newId: Id, q: Query): Outcome
  {
    if !FilledIn(q) then Refused(BadRequest)
    else if AclAllows(db, q) then Done(db, None)
    else if q.tenant !in db.tenants || q.user !in db.users then Refused(NotFound)
    else
      Done(db.(acls := db.acls + [Acl(newId, q.tenant, q.user, q.resourceType, q.resourceId, q.permission)]),
           Some(AclInvalidation(q)))
  }

  function RevokeAcl(db: Db, id: Id, tenant: Id): Outcome
  {
    var i := FindAcl(db.acls, id, tenant);
    if i == |db.acls| then Refused(NotFound)
    else Done(db.(acls := RemoveAt(db.acls, i)), Some(AclInvalidation(AclQuery(db.acls[i]))))
  }

  function NewRole(db: Db, newId: Id, tenant: Id, name: string): Outcome
  {
    if newId in db.roles then Refused(Fault)
    else Done(db.(roles := db.roles[newId := Role(Some(tenant), false, name)]), None)
  }

  function DropRole(db: Db, roleId: Id, tenant: Id): Outcome
  {
    if !VisibleRole(db, roleId, tenant) then Refused(NotFound)
    else if db.roles[roleId].isSystem then Refused(BadRequest)
    else if exists ur | ur in db.userRoles :: ur.roleId == roleId then Refused(Conflict)
    else // the foreign key removes the role's permission rows with it
      Done(db.(roles := db.roles - {roleId},
               rolePermissions := Keep(db.rolePermissions, (rp: RolePermission) => rp.roleId != roleId)), None)
  }

  function NewUser(db: Db, newId: Id, tenant: Id, role: Option<Id>): Outcome
  {
    if newId in db.users || tenant !in db.tenants then Refused(Fault)
    else
      var db1 := db.(users := db.users[newId := tenant]);
      if role.None? then Done(db1, None) else Assign(db1, tenant, newId, RoleGrant(role.value, None))
  }

  function Apply(db: Db, m: Mutation): Outcome
  {
    match m
    case AssignRole(t, u, g) => Assign(db, t, u, g)
    case UpdateUserRoles(t, u, add, remove) => UpdateRoles(db, t, u, add, remove)
    case UpdateRolePermissions(t, r, add, remove) => UpdatePermissions(db, t, r, add, remove)
    case AddOverride(id, t, u, p, kind) => PutOverride(db, id, t, u, p, kind)
    case RemoveOverride(id, t, u) => DropOverride(db, id, t, u)
    case CreateAcl(id, q) => AllowAcl(db, id, q)
    case DeleteAcl(id, t) => RevokeAcl(db, id, t)
    case CreateRole(id, t, name) => NewRole(db, id, t, name)
    case DeleteRole(r, t) => DropRole(db, r, t)
    case CreateUser(id, t, role) => NewUser(db, id, t, role)
  }

  // ---- the hourly purge ----

  /** The assignments the purge deletes at `now`. */
  predicate PurgeDeletes(ur: UserRole, now: Time)
  {
    ur.expires.Some? && ur.expires.value < now
  }

  function PurgeRows(db: Db, now: Time): Db
  {
    db.(userRoles := Keep(db.userRoles, (ur: UserRole) => !PurgeDeletes(ur, now)))
  }

  function PurgedRows(db: Db, now: Time): seq<UserRole>
  {
    Keep(db.userRoles, (ur: UserRole) => PurgeDeletes(ur, now))
  }

  // ---- what every operation keeps ----

  /** Assignments reference visible roles only; ACL rows have every field filled in. */
  ghost predicate WellFormed(db: Db)
  {
    && (forall ur | ur in db.userRoles :: VisibleRole(db, ur.roleId, ur.tenant))
    && (forall a | a in db.acls :: FilledIn(AclQuery(a)))
  }

  ghost predicate EventCoversUser(event: Option<Invalidation>, tenant: Id, user: Id)
  {
    event.Some? && CoversUser(event.value, tenant, user)
  }

  ghost predicate EventCoversAcl(event: Option<Invalidation>, q: Query)
  {
    event.Some? && CoversAcl(event.value, q)
  }

  /** Every user and ACL answer outside the emitted event is untouched. */
  ghost predicate Covered(db: Db, db': Db, event: Option<Invalidation>)
  {
    && (forall t, u | !EventCoversUser(event, t, u) :: SameForUser(db, db', t, u))
    && (forall q | !EventCoversAcl(event, q) :: AclAllows(db, q) <==> AclAllows(db', q))
  }
}
