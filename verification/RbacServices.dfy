// The services that read and change the tables, over a mutable database object,
// each proved against the operation the protocol runs.

module RbacServices {
  import opened Tables
  import opened Mutations

  /** The repositories, and the invalidation events handed to the producer. */
  class Database {
    var tenants: set<Id>
    var users: map<Id, Id>
    var permissions: seq<Permission>
    var roles: map<Id, Role>
    var rolePermissions: seq<RolePermission>
    var userRoles: seq<UserRole>
    var overrides: seq<Override>
    var acls: seq<Acl>
    var emitted: seq<Invalidation>

    constructor (db: Db)
      ensures Snapshot() == db && emitted == []
    {
      tenants, users, permissions, roles := db.tenants, db.users, db.permissions, db.roles;
      rolePermissions, userRoles, overrides, acls := db.rolePermissions, db.userRoles, db.overrides, db.acls;
      emitted := [];
    }

    function Snapshot(): Db
      reads this
    {
      Db(tenants, users, permissions, roles, rolePermissions, userRoles, overrides, acls)
    }

    /** What a finished service call leaves: the operation's tables and its event, or a refusal. */
    twostate predicate Performed(new outcome: Outcome, new refusal: Option<Refusal>)
      reads this
    {
      match outcome
      case Done(db', event) =>
        && refusal == None && Snapshot() == db'
        && emitted == old(emitted) + (if event.Some? then [event.value] else [])
      case Refused(why) => refusal == Some(why) && emitted == old(emitted)
    }
  }

  class RoleService {
    const db: Database

    constructor (db: Database) ensures this.db == db { this.db := db; }

    method FindOneForTenant(id: Id, tenant: Id) returns (role: Option<Role>)
      ensures role.Some? <==> id in db.roles && (db.roles[id].tenant == Some(tenant) || db.roles[id].isSystem)
      ensures role.Some? <==> VisibleRole(db.Snapshot(), id, tenant)
      ensures role.Some? ==> role.value == db.roles[id]
    {
      if id in db.roles && (db.roles[id].tenant == Some(tenant) || db.roles[id].isSystem) {
        return Some(db.roles[id]);
      }
      return None;
    }

    method CreateCustomRole(newId: Id, tenant: Id, name: string) returns (refusal: Option<Refusal>)
      modifies db
      ensures db.Performed(NewRole(old(db.Snapshot()), newId, tenant, name), refusal)
    {
      if newId in db.roles { return Some(Fault); }
      db.roles := db.roles[newId := Role(Some(tenant), false, name)];
      return None;
    }

    method DeleteCustomRole(id: Id, tenant: Id) returns (refusal: Option<Refusal>)
      modifies db
      ensures db.Performed(DropRole(old(db.Snapshot()), id, tenant), refusal)
      ensures refusal.Some? ==> db.Snapshot() == old(db.Snapshot())
    {
      var role := FindOneForTenant(id, tenant);
      if role.None? { return Some(NotFound); }
      if role.value.isSystem { return Some(BadRequest); }
      var assignedUsers := |Keep(db.userRoles, (ur: UserRole) => ur.roleId == id)|;
      assert assignedUsers > 0 <==> exists ur | ur in db.userRoles :: ur.roleId == id by {
        var holders := Keep(db.userRoles, (ur: UserRole) => ur.roleId == id);
        assert |holders| > 0 ==> holders[0] in holders;
      }
      if assignedUsers > 0 { return Some(Conflict); }
      db.roles := db.roles - {id};
      db.rolePermissions := Keep(db.rolePermissions, (rp: RolePermission) => rp.roleId != id);
      return None;
    }
  }

  class AssignmentService {
    const db: Database
    const roleService: RoleService

    constructor (db: Database)
      ensures this.db == db && fresh(roleService) && roleService.db == db
    {
      this.db := db;
      roleService := new RoleService(db);
    }

    /** The upsert of one assignment, as `findOne` then `save`. */
    method Put(tenant: Id, user: Id, grant: RoleGrant)
      modifies db`userRoles
      ensures db.userRoles == Upsert(old(db.userRoles), tenant, user, grant)
    {
      var i := FindAssignment(db.userRoles, tenant, user, grant.roleId);
      if i < |db.userRoles| {
        var existing := db.userRoles[i];
        db.userRoles := db.userRoles[i := existing.(expires := grant.expires)];
      } else {
        db.userRoles := db.userRoles + [UserRole(tenant, user, grant.roleId, grant.expires)];
      }
    }

    method AssignToUser(user: Id, tenant: Id, grant: RoleGrant) returns (refusal: Option<Refusal>)
      requires roleService.db == db
      modifies db
      ensures db.Performed(Assign(old(db.Snapshot()), tenant, user, grant), refusal)
      ensures refusal.Some? ==> db.Snapshot() == old(db.Snapshot())
    {
      if !(user in db.users && db.users[user] == tenant) { return Some(NotFound); }
      var role := roleService.FindOneForTenant(grant.roleId, tenant);
      if role.None? { return Some(NotFound); }
      Put(tenant, user, grant);
      db.emitted := db.emitted + [UserInvalidation(tenant, user)];
      return None;
    }

    /** The first loop of the batch: stops at the first role that is not visible. */
    method PutAll(tenant: Id, user: Id, add: seq<RoleGrant>) returns (ok: bool)
      requires roleService.db == db
      modifies db`userRoles
      ensures ok <==> AllVisible(old(db.Snapshot()), tenant, add)
      ensures db.userRoles == UpsertAll(old(db.userRoles), tenant, user, add[..FirstInvisible(old(db.Snapshot()), tenant, add)])
    {
      ghost var stop := FirstInvisible(db.Snapshot(), tenant, add);
      for i := 0 to |add|
        invariant i <= stop
        invariant db.userRoles == UpsertAll(old(db.userRoles), tenant, user, add[..i])
      {
        var role := roleService.FindOneForTenant(add[i].roleId, tenant);
        if role.None? { return false; }
        Put(tenant, user, add[i]);
        UpsertAllStep(old(db.userRoles), tenant, user, add, i);
      }
      ok := true;
    }

    /** The second loop: each listed role's row goes, if there is one. */
    method DropAll(tenant: Id, user: Id, remove: seq<Id>)
      modifies db`userRoles
      ensures db.userRoles == UnassignAll(old(db.userRoles), tenant, user, remove)
    {
      for i := 0 to |remove|
        invariant db.userRoles == UnassignAll(old(db.userRoles), tenant, user, remove[..i])
      {
        var k := FindAssignment(db.userRoles, tenant, user, remove[i]);
        if k < |db.userRoles| {
          db.userRoles := RemoveAt(db.userRoles, k);
        }
        assert remove[..i + 1][..i] == remove[..i];
      }
      assert remove[..|remove|] == remove;
    }

    /**
     * The batch update. A role that is not visible stops it half way: the rows put
     * before it are in the table until the transaction around the call rolls back.
     */
    method UpdateUserRoles(user: Id, tenant: Id, add: seq<RoleGrant>, remove: seq<Id>) returns (refusal: Option<Refusal>)
      requires roleService.db == db
      modifies db
      ensures db.Performed(UpdateRoles(old(db.Snapshot()), tenant, user, add, remove), refusal)
      ensures refusal.Some? ==> db.Snapshot() == HalfDone(old(db.Snapshot()), tenant, user, add)
    {
      if !(user in db.users && db.users[user] == tenant) { return Some(NotFound); }
      var ok := PutAll(tenant, user, add);
      if !ok { return Some(NotFound); }
      assert add[..|add|] == add;
      DropAll(tenant, user, remove);
      db.emitted := db.emitted + [UserInvalidation(tenant, user)];
      return None;
    }

    /** Assignments with no expiry or a later one. */
    method GetUserRoles(user: Id, tenant: Id, now: Time) returns (rows: seq<UserRole>)
      ensures forall ur :: ur in rows <==>
                && ur in db.userRoles && ur.tenant == tenant && ur.user == user
                && (ur.expires == None || ur.expires.value > now)
    {
      rows := Keep(db.userRoles, (ur: UserRole) => Belongs(ur, tenant, user) && Active(ur.expires, now));
    }
  }

  class PermissionService {
    const db: Database
    const roleService: RoleService

    constructor (db: Database)
      ensures this.db == db && fresh(roleService) && roleService.db == db
    {
      this.db := db;
      roleService := new RoleService(db);
    }

    method UpdateRolePermissions(roleId: Id, tenant: Id, add: seq<string>, remove: seq<string>) returns (refusal: Option<Refusal>)
      requires roleService.db == db
      modifies db
      ensures db.Performed(UpdatePermissions(old(db.Snapshot()), tenant, roleId, add, remove), refusal)
      ensures refusal.Some? ==> db.Snapshot() == old(db.Snapshot())
    {
      var role := roleService.FindOneForTenant(roleId, tenant);
      if role.None? { return Some(NotFound); }
      if role.value.isSystem { return Some(BadRequest); }
      ghost var before := db.Snapshot();
      var toAdd := Resolve(db.permissions, add);
      for i := 0 to |toAdd|
        invariant db.Snapshot() == before.(rolePermissions := AddMappings(before.rolePermissions, roleId, toAdd[..i]))
        invariant db.emitted == old(db.emitted)
      {
        if RolePermission(roleId, toAdd[i].id) !in db.rolePermissions {
          db.rolePermissions := db.rolePermissions + [RolePermission(roleId, toAdd[i].id)];
        }
        assert toAdd[..i + 1][..i] == toAdd[..i];
      }
      assert toAdd[..|toAdd|] == toAdd;
      ghost var added := db.rolePermissions;
      var toRemove := Resolve(db.permissions, remove);
      for i := 0 to |toRemove|
        invariant db.Snapshot() == before.(rolePermissions := DropMappings(added, roleId, toRemove[..i]))
        invariant db.emitted == old(db.emitted)
      {
        var k := FindMapping(db.rolePermissions, RolePermission(roleId, toRemove[i].id));
        if k < |db.rolePermissions| {
          db.rolePermissions := RemoveAt(db.rolePermissions, k);
        }
        assert toRemove[..i + 1][..i] == toRemove[..i];
      }
      assert toRemove[..|toRemove|] == toRemove;
      db.emitted := db.emitted + [TenantInvalidation(tenant)];
      return None;
    }
  }

  class OverrideService {
    const db: Database
    const assignmentService: AssignmentService

    constructor (db: Database)
      ensures this.db == db && fresh(assignmentService) && assignmentService.db == db
    {
      this.db := db;
      assignmentService := new AssignmentService(db);
    }

    method AddOverride(newId: Id, user: Id, tenant: Id, permissionId: Id, kind: OverrideKind) returns (refusal: Option<Refusal>)
      modifies db
      ensures db.Performed(PutOverride(old(db.Snapshot()), newId, tenant, user, permissionId, kind), refusal)
      ensures refusal.Some? ==> db.Snapshot() == old(db.Snapshot())
    {
      if !exists p | p in db.permissions :: p.id == permissionId { return Some(NotFound); }
      var i := FindOverride(db.overrides, tenant, user, permissionId);
      if i < |db.overrides| {
        var existing := db.overrides[i];
        if existing.kind == kind { return None; }
        db.overrides := db.overrides[i := existing.(kind := kind)];
      } else {
        if user !in db.users || tenant !in db.tenants { return Some(Fault); }
        db.overrides := db.overrides + [Override(newId, tenant, user, permissionId, kind)];
      }
      db.emitted := db.emitted + [UserInvalidation(tenant, user)];
      return None;
    }

    method RemoveOverride(id: Id, user: Id, tenant: Id)
      modifies db
      ensures db.Performed(DropOverride(old(db.Snapshot()), id, tenant, user), None)
    {
      var i := FindOverrideById(db.overrides, id, tenant, user);
      if i < |db.overrides| {
        db.overrides := RemoveAt(db.overrides, i);
        db.emitted := db.emitted + [UserInvalidation(tenant, user)];
      }
    }

    /**
     * The Map-building loop, for granted rows in any order and with any repeats:
     * exactly the rows whose id is not denied, each id once.
     */
    method Combine(allGranted: seq<Permission>, denied: set<Id>) returns (effective: seq<Permission>)
      requires UniquePermissions(allGranted)
      ensures DistinctIds(effective)
      ensures forall p :: p in effective <==> p in allGranted && p.id !in denied
    {
      effective := [];
      for i := 0 to |allGranted|
        invariant DistinctIds(effective)
        invariant forall p :: p in effective <==> p in allGranted[..i] && p.id !in denied
      {
        var p := allGranted[i];
        assert allGranted[..i + 1] == allGranted[..i] + [p];
        assert forall x :: x in allGranted[..i + 1] <==> x in allGranted[..i] || x == p;
        if p.id !in denied {
          var k := IndexWhere(effective, (e: Permission) => e.id == p.id);
          if k < |effective| {
            assert effective[k] in effective && effective[k] in allGranted && p in allGranted;
            assert effective[k] == p && effective[k := p] == effective;
            effective := effective[k := p];
          } else {
            effective := effective + [p];
          }
        }
      }
      assert allGranted[..|allGranted|] == allGranted;
    }

    /** The overrides' permissions, one per override row of the kind, as the relation loads them. */
    method LoadPermissions(overrides: seq<Override>, kind: OverrideKind) returns (rows: seq<Permission>)
      ensures forall p :: p in rows <==> p in db.permissions && exists o :: o in overrides && o.kind == kind && o.permissionId == p.id
    {
      rows := [];
      for i := 0 to |overrides|
        invariant forall p :: p in rows <==> p in db.permissions && exists o :: o in overrides[..i] && o.kind == kind && o.permissionId == p.id
      {
        var o := overrides[i];
        assert overrides[..i + 1] == overrides[..i] + [o];
        if o.kind == kind {
          rows := rows + Keep(db.permissions, (p: Permission) => p.id == o.permissionId);
        }
      }
      assert overrides[..|overrides|] == overrides;
    }

    method GetEffectivePermissions(user: Id, tenant: Id, now: Time) returns (effective: seq<Permission>)
      requires assignmentService.db == db && UniquePermissions(db.permissions)
      ensures DistinctIds(effective)
      ensures forall p :: p in effective <==> p in db.permissions && Holds(db.Snapshot(), tenant, user, now, p.id)
    {
      var activeRoles := assignmentService.GetUserRoles(user, tenant, now);
      var roleIds := set ur | ur in activeRoles :: ur.roleId;
      var mappings := db.rolePermissions;
      var rolePermissions: seq<Permission> := [];
      if roleIds != {} {
        rolePermissions := Keep(db.permissions, (p: Permission) => exists r | r in roleIds :: RolePermission(r, p.id) in mappings);
      }
      var overrides := Keep(db.overrides, (o: Override) => o.tenant == tenant && o.user == user);
      var grants := LoadPermissions(overrides, Grant);
      var denied := set o | o in overrides && o.kind == Deny :: o.permissionId;
      ghost var snap := db.Snapshot();
      forall p: Permission | p in db.permissions
        ensures p in rolePermissions <==> RoleGives(snap, tenant, user, now, p.id)
      {
        if RoleGives(snap, tenant, user, now, p.id) {
          var ur :| ur in snap.userRoles && Belongs(ur, tenant, user) && Active(ur.expires, now)
            && RolePermission(ur.roleId, p.id) in snap.rolePermissions;
          assert ur in activeRoles && ur.roleId in roleIds;
        }
        if p in rolePermissions {
          var r :| r in roleIds && RolePermission(r, p.id) in mappings;
          var ur :| ur in activeRoles && ur.roleId == r;
        }
      }
      assert forall p: Permission | p in db.permissions :: p in grants <==> HasOverride(snap, tenant, user, p.id, Grant);
      assert forall p: Permission :: p.id in denied <==> HasOverride(snap, tenant, user, p.id, Deny);
      effective := Combine(rolePermissions + grants, denied);
    }
  }

  class AclRows {
    const db: Database

    constructor (db: Database) ensures this.db == db { this.db := db; }

    method CreateAcl(newId: Id, q: Query) returns (refusal: Option<Refusal>)
      modifies db
      ensures db.Performed(AllowAcl(old(db.Snapshot()), newId, q), refusal)
      ensures refusal.Some? ==> db.Snapshot() == old(db.Snapshot())
    {
      if !FilledIn(q) { return Some(BadRequest); }
      var existing := IndexWhere(db.acls, (a: Acl) => Matches(a, q));
      assert existing < |db.acls| <==> AclAllows(db.Snapshot(), q);
      if existing < |db.acls| { return None; }
      if q.tenant !in db.tenants || q.user !in db.users { return Some(NotFound); }
      db.acls := db.acls + [Acl(newId, q.tenant, q.user, q.resourceType, q.resourceId, q.permission)];
      db.emitted := db.emitted + [AclInvalidation(q)];
      return None;
    }

    method DeleteAcl(id: Id, tenant: Id) returns (refusal: Option<Refusal>)
      modifies db
      ensures db.Performed(RevokeAcl(old(db.Snapshot()), id, tenant), refusal)
      ensures refusal.Some? ==> db.Snapshot() == old(db.Snapshot())
    {
      var i := FindAcl(db.acls, id, tenant);
      if i == |db.acls| { return Some(NotFound); }
      var acl := db.acls[i];
      db.acls := RemoveAt(db.acls, i);
      db.emitted := db.emitted + [AclInvalidation(AclQuery(acl))];
      return None;
    }
  }

  class UserRows {
    const db: Database
    const assignmentService: AssignmentService

    constructor (db: Database)
      ensures this.db == db && fresh(assignmentService) && assignmentService.db == db && assignmentService.roleService.db == db
    {
      this.db := db;
      assignmentService := new AssignmentService(db);
    }

    /** The rows and events of `createUser`; a refused role leaves the user row for the rollback. */
    method CreateUser(newId: Id, tenant: Id, role: Option<Id>) returns (refusal: Option<Refusal>)
      requires assignmentService.db == db && assignmentService.roleService.db == db
      modifies db
      ensures db.Performed(NewUser(old(db.Snapshot()), newId, tenant, role), refusal)
    {
      if newId in db.users || tenant !in db.tenants { return Some(Fault); }
      db.users := db.users[newId := tenant];
      if role.Some? {
        refusal := assignmentService.AssignToUser(newId, tenant, RoleGrant(role.value, None));
      } else {
        refusal := None;
      }
    }
  }

  class RbacScheduler {
    const db: Database

    constructor (db: Database) ensures this.db == db { this.db := db; }

    /** The hourly purge: every row with an expiry before `now` goes, nothing is emitted. */
    method PurgeExpiredRoles(now: Time)
      modifies db`userRoles
      ensures forall ur :: ur in db.userRoles <==> ur in old(db.userRoles) && !(ur.expires.Some? && ur.expires.value < now)
      ensures db.Snapshot() == PurgeRows(old(db.Snapshot()), now)
    {
      db.userRoles := Keep(db.userRoles, (ur: UserRole) => !PurgeDeletes(ur, now));
    }
  }
}
