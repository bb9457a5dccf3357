// When each operation goes through, what it answers when it does not, which event it
// emits and which rows it leaves, all in terms of the rows themselves.

module Outcomes {
  import opened Tables
  import opened Mutations
  import opened RowEdits
  import opened BatchUpdates
  import opened Effects

  // ---- role assignments ----

  /** An assignment goes through exactly for a user of the tenant and a role it may use, and only the user's rows change. */
  lemma AssignOutcome(db: Db, tenant: Id, user: Id, grant: RoleGrant)
    ensures var o := Apply(db, AssignRole(tenant, user, grant));
            && (o.Done? <==>
                  && user in db.users && db.users[user] == tenant
                  && grant.roleId in db.roles
                  && (db.roles[grant.roleId].tenant == Some(tenant) || db.roles[grant.roleId].isSystem))
            && (o.Refused? ==> o.why == NotFound)
            && (o.Done? ==> o.event == Some(UserInvalidation(tenant, user)) && o.db == db.(userRoles := o.db.userRoles))
  {
  }

  /** So does a batch, where every role it adds must be one the tenant may use; those it removes need not exist. */
  lemma UpdateRolesOutcome(db: Db, tenant: Id, user: Id, add: seq<RoleGrant>, remove: seq<Id>)
    ensures var o := Apply(db, UpdateUserRoles(tenant, user, add, remove));
            && (o.Done? <==>
                  && user in db.users && db.users[user] == tenant
                  && forall i | 0 <= i < |add| ::
                       var id := add[i].roleId; id in db.roles && (db.roles[id].tenant == Some(tenant) || db.roles[id].isSystem))
            && (o.Refused? ==> o.why == NotFound)
            && (o.Done? ==> o.event == Some(UserInvalidation(tenant, user)) && o.db == db.(userRoles := o.db.userRoles))
  {
    assert forall i | 0 <= i < |add| :: add[i] in add;
  }

  /** The row is there afterwards with the expiry asked for, and no other row of the user or anybody else has moved. */
  lemma AssignedRow(db: Db, tenant: Id, user: Id, grant: RoleGrant, ur: UserRole)
    requires UniqueAssignments(db.userRoles) && Apply(db, AssignRole(tenant, user, grant)).Done?
    ensures ur in Apply(db, AssignRole(tenant, user, grant)).db.userRoles <==>
            if ur.tenant == tenant && ur.user == user && ur.roleId == grant.roleId then ur.expires == grant.expires
            else ur in db.userRoles
  {
    UpsertUnique(db.userRoles, tenant, user, grant);
    UpsertLookup(db.userRoles, tenant, user, grant, ur.tenant, ur.user, ur.roleId);
    RowIsLookup(db.userRoles, ur);
    RowIsLookup(Upsert(db.userRoles, tenant, user, grant), ur);
  }

  /** With one row per key, a row is in the table exactly when its key leads to its expiry. */
  lemma RowIsLookup(rows: seq<UserRole>, ur: UserRole)
    requires UniqueAssignments(rows)
    ensures ur in rows <==> Lookup(rows, ur.tenant, ur.user, ur.roleId) == Some(ur.expires)
  {
    var k := IndexWhere(rows, (x: UserRole) => x.tenant == ur.tenant && x.user == ur.user && x.roleId == ur.roleId);
    if ur in rows {
      var j :| 0 <= j < |rows| && rows[j] == ur;
    }
  }

  /** Position `i` is the last one in `add` that asks for the role. */
  predicate IsLastFor(add: seq<RoleGrant>, roleId: Id, i: int)
  {
    0 <= i < |add| && add[i].roleId == roleId && forall j | i < j < |add| :: add[j].roleId != roleId
  }

  lemma {:induction false} LastGrantIsLast(add: seq<RoleGrant>, roleId: Id)
    ensures LastGrant(add, roleId).None? ==> forall i | 0 <= i < |add| :: add[i].roleId != roleId
    ensures LastGrant(add, roleId).Some? ==> exists i :: IsLastFor(add, roleId, i) && add[i].expires == LastGrant(add, roleId).value
    ensures forall i | IsLastFor(add, roleId, i) :: LastGrant(add, roleId) == Some(add[i].expires)
  {
    if add != [] {
      var n := |add| - 1;
      LastGrantIsLast(add[..n], roleId);
      if add[n].roleId == roleId {
        assert IsLastFor(add, roleId, n);
      } else {
        assert forall i :: IsLastFor(add[..n], roleId, i) <==> IsLastFor(add, roleId, i);
      }
    }
  }

  /** The rows a batch leaves: removed roles are gone, added ones carry the last expiry asked for, the rest is as it was. */
  lemma UpdatedRow(db: Db, tenant: Id, user: Id, add: seq<RoleGrant>, remove: seq<Id>, ur: UserRole)
    requires UniqueAssignments(db.userRoles) && Apply(db, UpdateUserRoles(tenant, user, add, remove)).Done?
    ensures ur in Apply(db, UpdateUserRoles(tenant, user, add, remove)).db.userRoles <==>
            if ur.tenant != tenant || ur.user != user then ur in db.userRoles
            else if ur.roleId in remove then false
            else if exists i :: 0 <= i < |add| && add[i].roleId == ur.roleId
            then exists i :: IsLastFor(add, ur.roleId, i) && add[i].expires == ur.expires
            else ur in db.userRoles
  {
    UpdateRolesKeepsUnique(db, tenant, user, add, remove);
    RowIsLookup(db.userRoles, ur);
    RowIsLookup(UpdateRoles(db, tenant, user, add, remove).db.userRoles, ur);
    LastGrantIsLast(add, ur.roleId);
  }

  // ---- permission identifiers ----

  predicate AllHex(s: string)
  {
    forall i | 0 <= i < |s| :: s[i] in "0123456789abcdefABCDEF"
  }

  /** The pattern written out: 8-4-4-4-12 hex digits, version 1 to 5, variant 8, 9, a or b. */
  predicate IsUuidOf(s: string, a: string, b: string, c: string, d: string, e: string)
  {
    && s == a + "-" + b + "-" + c + "-" + d + "-" + e
    && |a| == 8 && |b| == |c| == |d| == 4 && |e| == 12
    && AllHex(a) && AllHex(b) && AllHex(c) && AllHex(d) && AllHex(e)
    && c[0] in "12345" && d[0] in "89abAB"
  }

  lemma HexDigits(c: char)
    ensures IsHex(c) <==> c in "0123456789abcdefABCDEF"
  {
  }

  lemma AllHexIs(s: string)
    ensures AllHex(s) <==> forall i | 0 <= i < |s| :: IsHex(s[i])
  {
    forall i | 0 <= i < |s| ensures s[i] in "0123456789abcdefABCDEF" <==> IsHex(s[i]) { HexDigits(s[i]); }
  }

  lemma HexSlice(s: string, i: nat, j: nat)
    requires i <= j <= |s| && forall k | i <= k < j :: IsHex(s[k])
    ensures AllHex(s[i..j])
  {
    AllHexIs(s[i..j]);
  }

  lemma FourDashes(s: string, a: string, b: string, c: string, d: string, e: string)
    requires |s| == 36 && s[8] == s[13] == s[18] == s[23] == '-'
    requires a == s[0..8] && b == s[9..13] && c == s[14..18] && d == s[19..23] && e == s[24..36]
    ensures s == a + "-" + b + "-" + c + "-" + d + "-" + e
  {
  }

  lemma VersionDigit(c: char)
    ensures '1' <= c <= '5' <==> c in "12345"
  {
  }

  lemma UuidParts(s: string, a: string, b: string, c: string, d: string, e: string)
    requires IsUuid(s)
    requires a == s[0..8] && b == s[9..13] && c == s[14..18] && d == s[19..23] && e == s[24..36]
    ensures IsUuidOf(s, a, b, c, d, e)
  {
    HexSlice(s, 0, 8);
    HexSlice(s, 9, 13);
    HexSlice(s, 14, 18);
    HexSlice(s, 19, 23);
    HexSlice(s, 24, 36);
    VersionDigit(c[0]);
    FourDashes(s, a, b, c, d, e);
  }

  lemma PartsAreUuid(s: string, a: string, b: string, c: string, d: string, e: string)
    requires IsUuidOf(s, a, b, c, d, e)
    ensures IsUuid(s)
  {
    AllHexIs(a); AllHexIs(b); AllHexIs(c); AllHexIs(d); AllHexIs(e);
    assert forall i | 0 <= i < 8 :: s[i] == a[i];
    assert forall i | 9 <= i < 13 :: s[i] == b[i - 9];
    assert forall i | 14 <= i < 18 :: s[i] == c[i - 14];
    assert forall i | 19 <= i < 23 :: s[i] == d[i - 19];
    assert forall i | 24 <= i < 36 :: s[i] == e[i - 24];
  }

  /** What the service takes for a UUID, exactly. */
  lemma UuidExactly(s: string)
    ensures IsUuid(s) <==> exists a, b, c, d, e :: IsUuidOf(s, a, b, c, d, e)
  {
    if IsUuid(s) {
      UuidParts(s, s[0..8], s[9..13], s[14..18], s[19..23], s[24..36]);
    }
    if a, b, c, d, e :| IsUuidOf(s, a, b, c, d, e) {
      PartsAreUuid(s, a, b, c, d, e);
    }
  }

  /** In any case of its letters: the same digits name the same rows, those with the lower-case id. */
  lemma UuidNamesAnyCase(s: string, p: Permission)
    requires IsUuid(s)
    ensures Names(s, p) <==>
            && |p.id| == 36
            && forall i | 0 <= i < 36 ::
                 p.id[i] == if s[i] in "ABCDEF" then "abcdef"[s[i] as int - 'A' as int] else s[i]
  {
    assert |Lower(s)| == 36;
  }

  /** Everything with a dot, which every code has, is taken as a code. */
  lemma DottedNamesItsCode(s: string, p: Permission)
    requires '.' in s
    ensures Names(s, p) <==> p.code == s
  {
  }

  // ---- role permissions ----

  /** The permissions of a role change only for the tenant's own custom roles, and the whole tenant is announced. */
  lemma UpdatePermissionsOutcome(db: Db, tenant: Id, roleId: Id, add: seq<string>, remove: seq<string>)
    ensures var o := Apply(db, UpdateRolePermissions(tenant, roleId, add, remove));
            && (o.Done? <==> roleId in db.roles && db.roles[roleId].tenant == Some(tenant) && !db.roles[roleId].isSystem)
            && (o == Refused(BadRequest) <==> roleId in db.roles && db.roles[roleId].isSystem)
            && (o.Refused? && o.why != BadRequest ==> o.why == NotFound)
            && (o.Done? ==> o.event == Some(TenantInvalidation(tenant)) && o.db == db.(rolePermissions := o.db.rolePermissions))
  {
  }

  // ---- overrides ----

  /** The permission exists. */
  predicate Offered(db: Db, permissionId: Id)
  {
    exists p | p in db.permissions :: p.id == permissionId
  }

  /** An override of an unknown permission is refused; one that says what is said already changes and emits nothing. */
  lemma PutOverrideOutcome(db: Db, newId: Id, tenant: Id, user: Id, permissionId: Id, kind: OverrideKind)
    ensures var o := Apply(db, AddOverride(newId, tenant, user, permissionId, kind));
            var given := exists x | x in db.overrides :: x.tenant == tenant && x.user == user && x.permissionId == permissionId;
            && (o == Refused(NotFound) <==> !Offered(db, permissionId))
            && (o == Refused(Fault) <==> Offered(db, permissionId) && !given && (user !in db.users || tenant !in db.tenants))
            && (o.Done? <==> Offered(db, permissionId) && (given || (user in db.users && tenant in db.tenants)))
            && (o.Done? ==> o.db == db.(overrides := o.db.overrides))
            && (o.Done? ==> o.event == (if o.db == db then None else Some(UserInvalidation(tenant, user))))
  {
    var i := FindOverride(db.overrides, tenant, user, permissionId);
    if i < |db.overrides| {
      assert db.overrides[i] in db.overrides;
      assert db.overrides[i].kind != kind ==> db.overrides[i := db.overrides[i].(kind := kind)][i] != db.overrides[i];
    } else {
      assert |db.overrides + [Override(newId, tenant, user, permissionId, kind)]| != |db.overrides|;
    }
  }

  /** The rows after an override is put: on its permission one row of the kind asked for, which keeps its id if it was there. */
  lemma PutOverrideRow(db: Db, newId: Id, tenant: Id, user: Id, permissionId: Id, kind: OverrideKind, o: Override)
    requires UniqueOverrides(db.overrides) && Apply(db, AddOverride(newId, tenant, user, permissionId, kind)).Done?
    ensures o in Apply(db, AddOverride(newId, tenant, user, permissionId, kind)).db.overrides <==>
            if o.tenant == tenant && o.user == user && o.permissionId == permissionId then
              && o.kind == kind
              && (if exists x | x in db.overrides :: x.tenant == tenant && x.user == user && x.permissionId == permissionId
                  then o.(kind := Grant) in db.overrides || o.(kind := Deny) in db.overrides
                  else o.id == newId)
            else o in db.overrides
  {
    var i := FindOverride(db.overrides, tenant, user, permissionId);
    PutOverrideRows(db, newId, tenant, user, permissionId, kind);
    var rows := Apply(db, AddOverride(newId, tenant, user, permissionId, kind)).db.overrides;
    if i < |db.overrides| {
      assert db.overrides[i] in db.overrides && rows[i] in rows && rows[i] == db.overrides[i].(kind := kind);
    } else {
      assert rows[i] in rows;
    }
  }

  /** Removing takes away exactly the row with that id, and only if it is that user's in that tenant; else nothing happens. */
  lemma DropOverrideOutcome(db: Db, id: Id, tenant: Id, user: Id, o: Override)
    requires forall i, j | 0 <= i < j < |db.overrides| :: db.overrides[i].id != db.overrides[j].id
    ensures var given := exists x | x in db.overrides :: x.id == id && x.tenant == tenant && x.user == user;
            var r := Apply(db, RemoveOverride(id, tenant, user));
            && r.Done? && r.db == db.(overrides := r.db.overrides)
            && r.event == (if given then Some(UserInvalidation(tenant, user)) else None)
            && (o in r.db.overrides <==> o in db.overrides && !(o.id == id && o.tenant == tenant && o.user == user))
  {
    var i := FindOverrideById(db.overrides, id, tenant, user);
    if i < |db.overrides| {
      assert db.overrides[i] in db.overrides;
      assert db.overrides == db.overrides[..i] + [db.overrides[i]] + db.overrides[i + 1..];
    }
  }

  /** So nothing speaks on its permission any more, and every other permission is decided as before. */
  lemma DroppedOverrideIsSilent(db: Db, k: nat, p: Id, kind: OverrideKind, t: Id, u: Id)
    requires UniqueOverrides(db.overrides) && k < |db.overrides|
    requires forall i, j | 0 <= i < j < |db.overrides| :: db.overrides[i].id != db.overrides[j].id
    ensures var row := db.overrides[k];
            HasOverride(Apply(db, RemoveOverride(row.id, row.tenant, row.user)).db, t, u, p, kind) <==>
            HasOverride(db, t, u, p, kind) && !(t == row.tenant && u == row.user && p == row.permissionId)
  {
    var row := db.overrides[k];
    var db' := Apply(db, RemoveOverride(row.id, row.tenant, row.user)).db;
    forall o: Override
      ensures o in db'.overrides <==> o in db.overrides && !(o.id == row.id && o.tenant == row.tenant && o.user == row.user)
    {
      DropOverrideOutcome(db, row.id, row.tenant, row.user, o);
    }
    assert row in db.overrides;
    assert forall o | o in db.overrides && o != row :: o.id != row.id && !IsOn(o, row.tenant, row.user, row.permissionId);
  }

  // ---- ACL rows ----

  /** A row needs all five fields, and to be created, a known tenant and user; a second request for it changes nothing. */
  lemma AllowAclOutcome(db: Db, newId: Id, q: Query)
    ensures var o := Apply(db, CreateAcl(newId, q));
            var filled := q.tenant != "" && q.user != "" && q.permission != "" && q.resourceType != "" && q.resourceId != "";
            var given := exists a | a in db.acls ::
              a.tenant == q.tenant && a.user == q.user && a.permission == q.permission
              && a.resourceType == q.resourceType && a.resourceId == q.resourceId;
            && (o == Refused(BadRequest) <==> !filled)
            && (o == Refused(NotFound) <==> filled && !given && (q.tenant !in db.tenants || q.user !in db.users))
            && (o == Done(db, None) <==> filled && given)
            && (o.Done? && !given ==>
                  && o.event == Some(AclInvalidation(q))
                  && o.db == db.(acls := db.acls + [Acl(newId, q.tenant, q.user, q.resourceType, q.resourceId, q.permission)]))
            && (o.Refused? ==> o.why == BadRequest || o.why == NotFound)
  {
    assert |db.acls + [Acl(newId, q.tenant, q.user, q.resourceType, q.resourceId, q.permission)]| != |db.acls|;
  }

  /** A row is deleted by its id and tenant, and the question it answered is announced. */
  lemma RevokeAclOutcome(db: Db, id: Id, tenant: Id, a: Acl)
    requires forall i, j | 0 <= i < j < |db.acls| :: db.acls[i].id != db.acls[j].id
    ensures var o := Apply(db, DeleteAcl(id, tenant));
            && (o == Refused(NotFound) <==> !exists x | x in db.acls :: x.id == id && x.tenant == tenant)
            && (o.Refused? ==> o.why == NotFound)
            && (o.Done? ==>
                  && o.db == db.(acls := o.db.acls)
                  && (a in o.db.acls <==> a in db.acls && !(a.id == id && a.tenant == tenant))
                  && (a in db.acls && a.id == id && a.tenant == tenant ==>
                        o.event == Some(AclInvalidation(Query(a.tenant, a.user, a.permission, a.resourceType, a.resourceId)))))
  {
    var i := FindAcl(db.acls, id, tenant);
    if i < |db.acls| {
      assert db.acls[i] in db.acls;
      assert db.acls == db.acls[..i] + [db.acls[i]] + db.acls[i + 1..];
    }
  }

  // ---- roles and users ----

  /** A custom role of the tenant is added under a new id; no other role changes and nothing is emitted. */
  lemma NewRoleOutcome(db: Db, newId: Id, tenant: Id, name: string, id: Id)
    ensures var o := Apply(db, CreateRole(newId, tenant, name));
            && (o == Refused(Fault) <==> newId in db.roles) && (o.Done? <==> newId !in db.roles)
            && (o.Done? ==>
                  && o.event == None && o.db == db.(roles := o.db.roles)
                  && (id in o.db.roles <==> id == newId || id in db.roles)
                  && (id in o.db.roles ==> o.db.roles[id] == if id == newId then Role(Some(tenant), false, name) else db.roles[id]))
  {
  }

  /** Only an own custom role that nobody is assigned can go, and its permissions go with it. */
  lemma DropRoleOutcome(db: Db, roleId: Id, tenant: Id, id: Id, rp: RolePermission)
    ensures var o := Apply(db, DeleteRole(roleId, tenant));
            var own := roleId in db.roles && db.roles[roleId].tenant == Some(tenant) && !db.roles[roleId].isSystem;
            var inUse := exists ur | ur in db.userRoles :: ur.roleId == roleId;
            && (o == Refused(BadRequest) <==> roleId in db.roles && db.roles[roleId].isSystem)
            && (o == Refused(Conflict) <==> own && inUse)
            && (o.Done? <==> own && !inUse)
            && (o.Refused? && o.why != BadRequest && o.why != Conflict ==> o.why == NotFound)
            && (o.Done? ==>
                  && o.event == None && o.db == db.(roles := o.db.roles, rolePermissions := o.db.rolePermissions)
                  && (id in o.db.roles <==> id in db.roles && id != roleId) && (id in o.db.roles ==> o.db.roles[id] == db.roles[id])
                  && (rp in o.db.rolePermissions <==> rp in db.rolePermissions && rp.roleId != roleId))
  {
  }

  /** A user is added under a new id; with a role, all or nothing, and with an event for the new user. */
  lemma NewUserOutcome(db: Db, newId: Id, tenant: Id, role: Option<Id>, id: Id)
    ensures var o := Apply(db, Mutation.CreateUser(newId, tenant, role));
            var may := role.Some? ==>
              role.value in db.roles && (db.roles[role.value].tenant == Some(tenant) || db.roles[role.value].isSystem);
            && (o == Refused(Fault) <==> newId in db.users || tenant !in db.tenants)
            && (o == Refused(NotFound) <==> newId !in db.users && tenant in db.tenants && !may)
            && (o.Done? <==> newId !in db.users && tenant in db.tenants && may)
            && (o.Done? ==>
                  && o.event == (if role.Some? then Some(UserInvalidation(tenant, newId)) else None)
                  && o.db == db.(users := o.db.users, userRoles := o.db.userRoles)
                  && (id in o.db.users <==> id == newId || id in db.users)
                  && (id in o.db.users ==> o.db.users[id] == if id == newId then tenant else db.users[id])
                  && (role == None ==> o.db.userRoles == db.userRoles))
  {
  }

  /** And its role row is the only one that is new. */
  lemma NewUsersRow(db: Db, newId: Id, tenant: Id, roleId: Id, ur: UserRole)
    requires UniqueAssignments(db.userRoles) && Apply(db, Mutation.CreateUser(newId, tenant, Some(roleId))).Done?
    ensures ur in Apply(db, Mutation.CreateUser(newId, tenant, Some(roleId))).db.userRoles <==>
            if ur.tenant == tenant && ur.user == newId && ur.roleId == roleId then ur.expires == None else ur in db.userRoles
  {
    AssignedRow(db.(users := db.users[newId := tenant]), tenant, newId, RoleGrant(roleId, None), ur);
  }

  // ---- the purge, and founding a tenant ----

  /** The purge splits the assignments by their expiry: one that runs out right now stays for the next time. */
  lemma PurgeOutcome(db: Db, now: Time, ur: UserRole)
    ensures PurgeRows(db, now) == db.(userRoles := PurgeRows(db, now).userRoles)
    ensures ur in PurgeRows(db, now).userRoles <==> ur in db.userRoles && (ur.expires == None || ur.expires.value >= now)
    ensures ur in PurgedRows(db, now) <==> ur in db.userRoles && ur.expires != None && ur.expires.value < now
  {
  }

  /** A founded tenant has its first user, who holds the system role for good if there is one; nothing else changes. */
  lemma FoundedOutcome(db: Db, tenant: Id, admin: Id, role: Option<Id>, id: Id, ur: UserRole)
    ensures var db' := Founded(db, tenant, admin, role);
            && db' == db.(tenants := db'.tenants, users := db'.users, userRoles := db'.userRoles)
            && (id in db'.tenants <==> id == tenant || id in db.tenants)
            && (id in db'.users <==> id == admin || id in db.users)
            && (id in db'.users ==> db'.users[id] == if id == admin then tenant else db.users[id])
            && (ur in db'.userRoles <==> ur in db.userRoles || (role.Some? && ur == UserRole(tenant, admin, role.value, None)))
  {
  }
}
