// The row changes an operation's handler makes. They land on whatever tables are
// committed when its transaction ends, which another transaction may have changed
// since the handler read them.

module RowEdits {
  import opened Tables
  import opened Mutations

  datatype Edit =
    | InsertAssignment(row: UserRole)
    | ChangeAssignment(was: UserRole, now: UserRole)
    | DeleteAssignment(row: UserRole)
    | InsertMapping(owner: Id, mapping: RolePermission)
    | DeleteMapping(owner: Id, mapping: RolePermission)
    | InsertOverride(override: Override)
    | ChangeOverride(before: Override, after: Override)
    | DeleteOverride(override: Override)
    | InsertAcl(acl: Acl)
    | DeleteAclRow(acl: Acl)
    | InsertRole(id: Id, role: Role)
    | DeleteRoleRow(id: Id)
    | InsertUser(user: Id, tenant: Id)

  // A row is found by the columns that never change: its id where the model has one.

  predicate SameAssignment(a: UserRole, b: UserRole) { a.(expires := None) == b.(expires := None) }
  predicate SameOverride(a: Override, b: Override) { a.(kind := Grant) == b.(kind := Grant) }

  /** The first row that is this one goes, if it is there. */
  function Without<T>(rows: seq<T>, same: T -> bool): seq<T>
  {
    var i := IndexWhere(rows, same);
    if i < |rows| then RemoveAt(rows, i) else rows
  }

  /** The first row that is this one becomes `row`, whatever it has become by now. */
  function Replaced<T>(rows: seq<T>, same: T -> bool, row: T): seq<T>
  {
    var i := IndexWhere(rows, same);
    if i < |rows| then rows[i := row] else rows
  }

  /** Deleting a role takes its mappings and its assignments with it: both foreign keys cascade. */
  function ApplyEdit(db: Db, e: Edit): Db
  {
    match e
    case InsertAssignment(row) => db.(userRoles := db.userRoles + [row])
    case ChangeAssignment(was, now) => db.(userRoles := Replaced(db.userRoles, r => SameAssignment(r, was), now))
    case DeleteAssignment(row) => db.(userRoles := Without(db.userRoles, r => SameAssignment(r, row)))
    case InsertMapping(_, row) => db.(rolePermissions := db.rolePermissions + [row])
    case DeleteMapping(_, row) => db.(rolePermissions := Without(db.rolePermissions, r => r == row))
    case InsertOverride(row) => db.(overrides := db.overrides + [row])
    case ChangeOverride(before, after) => db.(overrides := Replaced(db.overrides, r => SameOverride(r, before), after))
    case DeleteOverride(row) => db.(overrides := Without(db.overrides, r => SameOverride(r, row)))
    case InsertAcl(row) => db.(acls := db.acls + [row])
    case DeleteAclRow(row) => db.(acls := Without(db.acls, r => r == row))
    case InsertRole(id, role) => db.(roles := db.roles[id := role])
    case DeleteRoleRow(id) =>
      db.(roles := db.roles - {id},
          rolePermissions := Keep(db.rolePermissions, (rp: RolePermission) => rp.roleId != id),
          userRoles := Keep(db.userRoles, (ur: UserRole) => ur.roleId != id))
    case InsertUser(id, tenant) => db.(users := db.users[id := tenant])
  }

  function Landed(db: Db, edits: seq<Edit>): Db
  {
    if edits == [] then db else ApplyEdit(Landed(db, edits[..|edits| - 1]), edits[|edits| - 1])
  }

  predicate OwnRole(db: Db, roleId: Id, tenant: Id)
  {
    roleId in db.roles && db.roles[roleId].tenant == Some(tenant) && !db.roles[roleId].isSystem
  }

  /**
   * What the schema enforces when a row lands: primary, unique and foreign keys. A
   * role id is generated once, so a role that is still there is the one the handler saw.
   */
  predicate Admits(db: Db, e: Edit)
  {
    match e
    case InsertAssignment(row) => VisibleRole(db, row.roleId, row.tenant)
    case InsertMapping(owner, row) => OwnRole(db, row.roleId, owner)
    case DeleteMapping(owner, row) => row.roleId in db.roles ==> OwnRole(db, row.roleId, owner)
    case InsertOverride(row) => FindOverride(db.overrides, row.tenant, row.user, row.permissionId) == |db.overrides|
    case InsertRole(id, _) => id !in db.roles
    case InsertUser(id, _) => id !in db.users
    case _ => true
  }

  predicate AdmitsAll(db: Db, edits: seq<Edit>)
  {
    edits == [] ||
    (AdmitsAll(db, edits[..|edits| - 1]) && Admits(Landed(db, edits[..|edits| - 1]), edits[|edits| - 1]))
  }

  predicate Assigned(db: Db, roleId: Id)
  {
    exists ur | ur in db.userRoles :: ur.roleId == roleId
  }

  /** No deletion of a role takes an assignment with it. */
  predicate CascadeFree(db: Db, edits: seq<Edit>)
  {
    forall e | e in edits && e.DeleteRoleRow? :: !Assigned(db, e.id)
  }

  // ---- the edits of each operation ----

  function UpsertEdit(rows: seq<UserRole>, tenant: Id, user: Id, grant: RoleGrant): Edit
  {
    var i := FindAssignment(rows, tenant, user, grant.roleId);
    if i < |rows| then ChangeAssignment(rows[i], rows[i].(expires := grant.expires))
    else InsertAssignment(UserRole(tenant, user, grant.roleId, grant.expires))
  }

  function UpsertEdits(rows: seq<UserRole>, tenant: Id, user: Id, add: seq<RoleGrant>): seq<Edit>
  {
    if add == [] then []
    else
      var init := add[..|add| - 1];
      UpsertEdits(rows, tenant, user, init) + [UpsertEdit(UpsertAll(rows, tenant, user, init), tenant, user, add[|add| - 1])]
  }

  function UnassignEdits(rows: seq<UserRole>, tenant: Id, user: Id, remove: seq<Id>): seq<Edit>
  {
    if remove == [] then []
    else
      var init := remove[..|remove| - 1];
      var left := UnassignAll(rows, tenant, user, init);
      var i := FindAssignment(left, tenant, user, remove[|remove| - 1]);
      UnassignEdits(rows, tenant, user, init) + (if i < |left| then [DeleteAssignment(left[i])] else [])
  }

  function AddMappingEdits(rows: seq<RolePermission>, owner: Id, roleId: Id, permissions: seq<Permission>): seq<Edit>
  {
    if permissions == [] then []
    else
      var init := permissions[..|permissions| - 1];
      var rp := RolePermission(roleId, permissions[|permissions| - 1].id);
      AddMappingEdits(rows, owner, roleId, init) +
      (if rp in AddMappings(rows, roleId, init) then [] else [InsertMapping(owner, rp)])
  }

  function DropMappingEdits(owner: Id, roleId: Id, permissions: seq<Permission>): seq<Edit>
  {
    if permissions == [] then []
    else
      DropMappingEdits(owner, roleId, permissions[..|permissions| - 1])
      + [DeleteMapping(owner, RolePermission(roleId, permissions[|permissions| - 1].id))]
  }

  function UpdateRolesEdits(db: Db, tenant: Id, user: Id, add: seq<RoleGrant>, remove: seq<Id>): seq<Edit>
  {
    UpsertEdits(db.userRoles, tenant, user, add)
    + UnassignEdits(UpsertAll(db.userRoles, tenant, user, add), tenant, user, remove)
  }

  /** What the handler of a successful operation changes, decided on the tables it read. */
  function EditsOf(db: Db, m: Mutation): seq<Edit>
    requires Apply(db, m).Done?
  {
    match m
    case AssignRole(t, u, g) => [UpsertEdit(db.userRoles, t, u, g)]
    case UpdateUserRoles(t, u, add, remove) => UpdateRolesEdits(db, t, u, add, remove)
    case UpdateRolePermissions(t, r, add, remove) =>
      AddMappingEdits(db.rolePermissions, t, r, Resolve(db.permissions, add)) + DropMappingEdits(t, r, Resolve(db.permissions, remove))
    case AddOverride(id, t, u, p, kind) =>
      var i := FindOverride(db.overrides, t, u, p);
      if i == |db.overrides| then [InsertOverride(Override(id, t, u, p, kind))]
      else if db.overrides[i].kind == kind then []
      else [ChangeOverride(db.overrides[i], db.overrides[i].(kind := kind))]
    case RemoveOverride(id, t, u) =>
      var i := FindOverrideById(db.overrides, id, t, u);
      if i < |db.overrides| then [DeleteOverride(db.overrides[i])] else []
    case CreateAcl(id, q) =>
      if AclAllows(db, q) then [] else [InsertAcl(Acl(id, q.tenant, q.user, q.resourceType, q.resourceId, q.permission))]
    case DeleteAcl(id, t) => [DeleteAclRow(db.acls[FindAcl(db.acls, id, t)])]
    case CreateRole(id, t, name) => [InsertRole(id, Role(Some(t), false, name))]
    case DeleteRole(r, _) => [DeleteRoleRow(r)]
    case CreateUser(id, t, role) =>
      [InsertUser(id, t)] + (if role.Some? then [UpsertEdit(db.userRoles, t, id, RoleGrant(role.value, None))] else [])
  }

  // ---- landing on the tables the handler read gives the operation's result ----

  lemma {:induction false} LandedAfter(db: Db, first: seq<Edit>, second: seq<Edit>)
    ensures Landed(db, first + second) == Landed(Landed(db, first), second)
    ensures AdmitsAll(db, first) && AdmitsAll(Landed(db, first), second) ==> AdmitsAll(db, first + second)
    decreases |second|
  {
    if second == [] {
      assert first + second == first;
    } else {
      var both, init := first + second, second[..|second| - 1];
      assert both[..|both| - 1] == first + init;
      LandedAfter(db, first, init);
    }
  }

  lemma LandedOne(db: Db, e: Edit)
    ensures Landed(db, [e]) == ApplyEdit(db, e)
    ensures AdmitsAll(db, [e]) <==> Admits(db, e)
  {
    assert [e][..0] == [];
  }

  lemma UpsertLands(db: Db, tenant: Id, user: Id, grant: RoleGrant)
    ensures ApplyEdit(db, UpsertEdit(db.userRoles, tenant, user, grant)) == db.(userRoles := Upsert(db.userRoles, tenant, user, grant))
  {
  }

  lemma {:induction false} UpsertsLand(db: Db, tenant: Id, user: Id, add: seq<RoleGrant>)
    requires AllVisible(db, tenant, add)
    ensures var edits := UpsertEdits(db.userRoles, tenant, user, add);
            && Landed(db, edits) == db.(userRoles := UpsertAll(db.userRoles, tenant, user, add))
            && AdmitsAll(db, edits)
  {
    if add != [] {
      var init, last := add[..|add| - 1], add[|add| - 1];
      var rows := UpsertAll(db.userRoles, tenant, user, init);
      assert last in add && forall g | g in init :: g in add;
      UpsertsLand(db, tenant, user, init);
      UpsertLands(db.(userRoles := rows), tenant, user, last);
      LandedOne(db.(userRoles := rows), UpsertEdit(rows, tenant, user, last));
      LandedAfter(db, UpsertEdits(db.userRoles, tenant, user, init), [UpsertEdit(rows, tenant, user, last)]);
    }
  }

  lemma {:induction false} UnassignsLand(db: Db, tenant: Id, user: Id, remove: seq<Id>)
    ensures var edits := UnassignEdits(db.userRoles, tenant, user, remove);
            && Landed(db, edits) == db.(userRoles := UnassignAll(db.userRoles, tenant, user, remove))
            && AdmitsAll(db, edits)
  {
    if remove != [] {
      var init, last := remove[..|remove| - 1], remove[|remove| - 1];
      UnassignsLand(db, tenant, user, init);
      var rows := UnassignAll(db.userRoles, tenant, user, init);
      var i := FindAssignment(rows, tenant, user, last);
      if i < |rows| {
        LandedOne(db.(userRoles := rows), DeleteAssignment(rows[i]));
        LandedAfter(db, UnassignEdits(db.userRoles, tenant, user, init), [DeleteAssignment(rows[i])]);
      } else {
        assert UnassignEdits(db.userRoles, tenant, user, remove) == UnassignEdits(db.userRoles, tenant, user, init);
      }
    }
  }

  lemma {:induction false} AddMappingsLand(db: Db, owner: Id, roleId: Id, permissions: seq<Permission>)
    requires OwnRole(db, roleId, owner)
    ensures var edits := AddMappingEdits(db.rolePermissions, owner, roleId, permissions);
            && Landed(db, edits) == db.(rolePermissions := AddMappings(db.rolePermissions, roleId, permissions))
            && AdmitsAll(db, edits)
  {
    if permissions != [] {
      var init := permissions[..|permissions| - 1];
      var rp := RolePermission(roleId, permissions[|permissions| - 1].id);
      AddMappingsLand(db, owner, roleId, init);
      var rows := AddMappings(db.rolePermissions, roleId, init);
      var edits := AddMappingEdits(db.rolePermissions, owner, roleId, init);
      if rp !in rows {
        LandedOne(db.(rolePermissions := rows), InsertMapping(owner, rp));
        LandedAfter(db, edits, [InsertMapping(owner, rp)]);
      } else {
        assert AddMappingEdits(db.rolePermissions, owner, roleId, permissions) == edits;
      }
    }
  }

  lemma {:induction false} DropMappingsLand(db: Db, owner: Id, roleId: Id, permissions: seq<Permission>)
    requires OwnRole(db, roleId, owner)
    ensures var edits := DropMappingEdits(owner, roleId, permissions);
            && Landed(db, edits) == db.(rolePermissions := DropMappings(db.rolePermissions, roleId, permissions))
            && AdmitsAll(db, edits)
  {
    if permissions != [] {
      var init := permissions[..|permissions| - 1];
      var rp := RolePermission(roleId, permissions[|permissions| - 1].id);
      DropMappingsLand(db, owner, roleId, init);
      var rows := DropMappings(db.rolePermissions, roleId, init);
      LandedOne(db.(rolePermissions := rows), DeleteMapping(owner, rp));
      LandedAfter(db, DropMappingEdits(owner, roleId, init), [DeleteMapping(owner, rp)]);
    }
  }

  lemma UpdatePermissionsLands(db: Db, tenant: Id, roleId: Id, add: seq<string>, remove: seq<string>)
    requires UpdatePermissions(db, tenant, roleId, add, remove).Done?
    ensures var m := UpdateRolePermissions(tenant, roleId, add, remove);
            Landed(db, EditsOf(db, m)) == Apply(db, m).db && AdmitsAll(db, EditsOf(db, m))
  {
    var adds := AddMappingEdits(db.rolePermissions, tenant, roleId, Resolve(db.permissions, add));
    AddMappingsLand(db, tenant, roleId, Resolve(db.permissions, add));
    DropMappingsLand(Landed(db, adds), tenant, roleId, Resolve(db.permissions, remove));
    LandedAfter(db, adds, DropMappingEdits(tenant, roleId, Resolve(db.permissions, remove)));
  }

  lemma UpdateRolesLands(db: Db, tenant: Id, user: Id, add: seq<RoleGrant>, remove: seq<Id>)
    requires UpdateRoles(db, tenant, user, add, remove).Done?
    ensures var m := UpdateUserRoles(tenant, user, add, remove);
            Landed(db, EditsOf(db, m)) == Apply(db, m).db && AdmitsAll(db, EditsOf(db, m))
  {
    var adds := UpsertEdits(db.userRoles, tenant, user, add);
    UpsertsLand(db, tenant, user, add);
    UnassignsLand(Landed(db, adds), tenant, user, remove);
    LandedAfter(db, adds, UnassignEdits(UpsertAll(db.userRoles, tenant, user, add), tenant, user, remove));
  }

  lemma CreateUserLands(db: Db, id: Id, tenant: Id, role: Option<Id>)
    requires NewUser(db, id, tenant, role).Done?
    ensures var m := Mutation.CreateUser(id, tenant, role);
            Landed(db, EditsOf(db, m)) == Apply(db, m).db && AdmitsAll(db, EditsOf(db, m))
  {
    LandedOne(db, InsertUser(id, tenant));
    if role.Some? {
      var grant := RoleGrant(role.value, None);
      var db1 := ApplyEdit(db, InsertUser(id, tenant));
      UpsertLands(db1, tenant, id, grant);
      LandedOne(db1, UpsertEdit(db.userRoles, tenant, id, grant));
      LandedAfter(db, [InsertUser(id, tenant)], [UpsertEdit(db.userRoles, tenant, id, grant)]);
    } else {
      assert EditsOf(db, Mutation.CreateUser(id, tenant, role)) == [InsertUser(id, tenant)];
    }
  }

  /** The row at the first position found is the first equal row. */
  lemma FirstEqual<T>(rows: seq<T>, i: nat)
    requires i < |rows| && forall j | 0 <= j < i :: rows[j] != rows[i]
    ensures IndexWhere(rows, r => r == rows[i]) == i
  {
  }

  lemma FirstOverride(rows: seq<Override>, i: nat)
    requires i < |rows| && forall j | 0 <= j < i :: !SameOverride(rows[j], rows[i])
    ensures IndexWhere(rows, r => SameOverride(r, rows[i])) == i
  {
  }

  lemma AddOverrideLands(db: Db, id: Id, tenant: Id, user: Id, permissionId: Id, kind: OverrideKind)
    requires PutOverride(db, id, tenant, user, permissionId, kind).Done?
    ensures var m := AddOverride(id, tenant, user, permissionId, kind);
            Landed(db, EditsOf(db, m)) == Apply(db, m).db && AdmitsAll(db, EditsOf(db, m))
  {
    var edits := EditsOf(db, AddOverride(id, tenant, user, permissionId, kind));
    var i := FindOverride(db.overrides, tenant, user, permissionId);
    if i < |db.overrides| {
      FirstOverride(db.overrides, i);
    }
    if edits != [] {
      LandedOne(db, edits[0]);
    }
  }

  lemma RemoveOverrideLands(db: Db, id: Id, tenant: Id, user: Id)
    ensures var m := RemoveOverride(id, tenant, user);
            Landed(db, EditsOf(db, m)) == Apply(db, m).db && AdmitsAll(db, EditsOf(db, m))
  {
    var i := FindOverrideById(db.overrides, id, tenant, user);
    if i < |db.overrides| {
      FirstOverride(db.overrides, i);
      LandedOne(db, DeleteOverride(db.overrides[i]));
    }
  }

  lemma AclEditLands(db: Db, m: Mutation)
    requires Apply(db, m).Done? && (m.CreateAcl? || m.DeleteAcl?)
    ensures Landed(db, EditsOf(db, m)) == Apply(db, m).db && AdmitsAll(db, EditsOf(db, m))
  {
    var edits := EditsOf(db, m);
    if m.DeleteAcl? {
      FirstEqual(db.acls, FindAcl(db.acls, m.aclId, m.tenant));
    }
    if edits != [] {
      LandedOne(db, edits[0]);
    }
  }

  lemma AssignLands(db: Db, tenant: Id, user: Id, grant: RoleGrant)
    requires Assign(db, tenant, user, grant).Done?
    ensures var m := AssignRole(tenant, user, grant);
            Landed(db, EditsOf(db, m)) == Apply(db, m).db && AdmitsAll(db, EditsOf(db, m))
  {
    LandedOne(db, UpsertEdit(db.userRoles, tenant, user, grant));
    UpsertLands(db, tenant, user, grant);
  }

  lemma NobodyCascades(db: Db, roleId: Id)
    requires !Assigned(db, roleId)
    ensures ApplyEdit(db, DeleteRoleRow(roleId)).userRoles == db.userRoles
  {
    KeepAll(db.userRoles, (ur: UserRole) => ur.roleId != roleId);
  }

  lemma DeleteRoleLands(db: Db, roleId: Id, tenant: Id)
    requires DropRole(db, roleId, tenant).Done?
    ensures var m := DeleteRole(roleId, tenant);
            Landed(db, EditsOf(db, m)) == Apply(db, m).db && AdmitsAll(db, EditsOf(db, m))
  {
    LandedOne(db, DeleteRoleRow(roleId));
    NobodyCascades(db, roleId);
  }

  /** With nothing in between, the transaction lands, and its rows are exactly the service's result. */
  lemma EditsLand(db: Db, m: Mutation)
    requires Apply(db, m).Done?
    ensures Landed(db, EditsOf(db, m)) == Apply(db, m).db
    ensures AdmitsAll(db, EditsOf(db, m)) && CascadeFree(db, EditsOf(db, m))
  {
    EditsAnnounced(db, m);
    match m
    case UpdateUserRoles(t, u, add, remove) => UpdateRolesLands(db, t, u, add, remove);
    case UpdateRolePermissions(t, r, add, remove) => UpdatePermissionsLands(db, t, r, add, remove);
    case CreateUser(id, t, role) => CreateUserLands(db, id, t, role);
    case AddOverride(id, t, u, p, kind) => AddOverrideLands(db, id, t, u, p, kind);
    case RemoveOverride(id, t, u) => RemoveOverrideLands(db, id, t, u);
    case CreateAcl(_, _) => AclEditLands(db, m);
    case DeleteAcl(_, _) => AclEditLands(db, m);
    case AssignRole(t, u, g) => AssignLands(db, t, u, g);
    case DeleteRole(r, t) => DeleteRoleLands(db, r, t);
    case CreateRole(id, t, name) => LandedOne(db, InsertRole(id, Role(Some(t), false, name)));
  }

  // ---- what an event announces ----

  /** The edit touches only what the event covers, and nothing when it is a role's or a user's row. */
  predicate Announces(event: Option<Invalidation>, e: Edit)
  {
    match e
    case InsertAssignment(row) => event.Some? && CoversUser(event.value, row.tenant, row.user)
    case ChangeAssignment(was, now) => SameAssignment(was, now) && event.Some? && CoversUser(event.value, was.tenant, was.user)
    case DeleteAssignment(row) => event.Some? && CoversUser(event.value, row.tenant, row.user)
    case InsertMapping(owner, _) => event == Some(TenantInvalidation(owner))
    case DeleteMapping(owner, _) => event == Some(TenantInvalidation(owner))
    case InsertOverride(row) => event.Some? && CoversUser(event.value, row.tenant, row.user)
    case ChangeOverride(before, after) =>
      SameOverride(before, after) && event.Some? && CoversUser(event.value, before.tenant, before.user)
    case DeleteOverride(row) => event.Some? && CoversUser(event.value, row.tenant, row.user)
    case InsertAcl(row) => FilledIn(AclQuery(row)) && event.Some? && CoversAcl(event.value, AclQuery(row))
    case DeleteAclRow(row) => event.Some? && CoversAcl(event.value, AclQuery(row))
    case InsertRole(_, _) => true
    case DeleteRoleRow(_) => true
    case InsertUser(_, _) => true
  }

  lemma {:induction false} UpsertsAnnounced(rows: seq<UserRole>, tenant: Id, user: Id, add: seq<RoleGrant>)
    ensures forall e | e in UpsertEdits(rows, tenant, user, add) :: Announces(Some(UserInvalidation(tenant, user)), e) && !e.DeleteRoleRow?
  {
    if add != [] {
      UpsertsAnnounced(rows, tenant, user, add[..|add| - 1]);
    }
  }

  lemma {:induction false} UnassignsAnnounced(rows: seq<UserRole>, tenant: Id, user: Id, remove: seq<Id>)
    ensures forall e | e in UnassignEdits(rows, tenant, user, remove) :: Announces(Some(UserInvalidation(tenant, user)), e) && !e.DeleteRoleRow?
  {
    if remove != [] {
      UnassignsAnnounced(rows, tenant, user, remove[..|remove| - 1]);
    }
  }

  lemma {:induction false} MappingsAnnounced(rows: seq<RolePermission>, owner: Id, roleId: Id, permissions: seq<Permission>)
    ensures forall e | e in AddMappingEdits(rows, owner, roleId, permissions) :: Announces(Some(TenantInvalidation(owner)), e) && !e.DeleteRoleRow?
    ensures forall e | e in DropMappingEdits(owner, roleId, permissions) :: Announces(Some(TenantInvalidation(owner)), e) && !e.DeleteRoleRow?
  {
    if permissions != [] {
      MappingsAnnounced(rows, owner, roleId, permissions[..|permissions| - 1]);
    }
  }

  lemma OverrideEditsAnnounced(db: Db, m: Mutation)
    requires Apply(db, m).Done? && (m.AddOverride? || m.RemoveOverride?)
    ensures forall e | e in EditsOf(db, m) :: Announces(Apply(db, m).event, e) && !e.DeleteRoleRow?
  {
  }

  /** The event a handler emits announces every row it changes. */
  lemma EditsAnnounced(db: Db, m: Mutation)
    requires Apply(db, m).Done?
    ensures forall e | e in EditsOf(db, m) :: Announces(Apply(db, m).event, e) && (e.DeleteRoleRow? ==> m.DeleteRole?)
  {
    match m
    case UpdateUserRoles(t, u, add, remove) =>
      UpsertsAnnounced(db.userRoles, t, u, add);
      UnassignsAnnounced(UpsertAll(db.userRoles, t, u, add), t, u, remove);
    case UpdateRolePermissions(t, r, add, remove) =>
      MappingsAnnounced(db.rolePermissions, t, r, Resolve(db.permissions, add));
      MappingsAnnounced(db.rolePermissions, t, r, Resolve(db.permissions, remove));
    case AddOverride(_, _, _, _, _) => OverrideEditsAnnounced(db, m);
    case RemoveOverride(_, _, _) => OverrideEditsAnnounced(db, m);
    case _ =>
  }

  // ---- landing anywhere stays within the event ----

  lemma RowsOf<T(!new)>(rows: seq<T>, same: T -> bool, row: T)
    ensures forall x | !same(x) :: x in rows <==> x in Without(rows, same)
    ensures forall x | x in Without(rows, same) :: x in rows
    ensures forall x | !same(x) && x != row :: x in rows <==> x in Replaced(rows, same, row)
    ensures forall x | x in Replaced(rows, same, row) && x != row :: x in rows
    ensures row in Replaced(rows, same, row) ==> row in rows || exists x :: x in rows && same(x)
  {
    var i := IndexWhere(rows, same);
    if i < |rows| {
      assert rows == rows[..i] + [rows[i]] + rows[i + 1..] && rows[i] in rows;
      assert Replaced(rows, same, row) == rows[..i] + [row] + rows[i + 1..];
    }
  }

  lemma AssignmentRowsElsewhere(db: Db, e: Edit, t: Id, u: Id)
    requires match e
             case InsertAssignment(row) => !Belongs(row, t, u)
             case ChangeAssignment(was, now) => !Belongs(was, t, u) && SameAssignment(was, now)
             case DeleteAssignment(row) => !Belongs(row, t, u)
             case _ => false
    ensures SameAssignments(db, ApplyEdit(db, e), t, u)
  {
    match e
    case InsertAssignment(row) =>
    case ChangeAssignment(was, now) => RowsOf(db.userRoles, r => SameAssignment(r, was), now);
    case DeleteAssignment(row) => RowsOf(db.userRoles, r => SameAssignment(r, row), row);
  }

  lemma AssignmentEditCovered(db: Db, e: Edit, event: Option<Invalidation>)
    requires WellFormed(db) && Announces(event, e) && Admits(db, e)
    requires e.InsertAssignment? || e.ChangeAssignment? || e.DeleteAssignment?
    ensures WellFormed(ApplyEdit(db, e)) && Covered(db, ApplyEdit(db, e), event)
  {
    match e {
      case InsertAssignment(row) =>
      case ChangeAssignment(was, now) => RowsOf(db.userRoles, r => SameAssignment(r, was), now);
      case DeleteAssignment(row) => RowsOf(db.userRoles, r => SameAssignment(r, row), row);
    }
    forall t, u | !EventCoversUser(event, t, u)
      ensures SameForUser(db, ApplyEdit(db, e), t, u)
    {
      AssignmentRowsElsewhere(db, e, t, u);
    }
  }

  lemma MappingEditCovered(db: Db, e: Edit, event: Option<Invalidation>)
    requires WellFormed(db) && Announces(event, e) && Admits(db, e)
    requires e.InsertMapping? || e.DeleteMapping?
    ensures WellFormed(ApplyEdit(db, e)) && Covered(db, ApplyEdit(db, e), event)
  {
    RowsOf(db.rolePermissions, r => r == e.mapping, e.mapping);
    // the role is the tenant's own, so no other tenant's assignment mentions it
    forall t, u | t != e.owner
      ensures SameForUser(db, ApplyEdit(db, e), t, u)
    {
      assert forall ur | ur in db.userRoles && Belongs(ur, t, u) :: ur.roleId != e.mapping.roleId;
    }
  }

  lemma OverrideRowsElsewhere(db: Db, e: Edit, t: Id, u: Id)
    requires match e
             case InsertOverride(row) => !(row.tenant == t && row.user == u)
             case ChangeOverride(before, after) =>
               !(before.tenant == t && before.user == u) && SameOverride(before, after)
             case DeleteOverride(row) => !(row.tenant == t && row.user == u)
             case _ => false
    ensures SameOverrides(db, ApplyEdit(db, e), t, u)
  {
    var db' := ApplyEdit(db, e);
    match e {
      case InsertOverride(row) =>
      case ChangeOverride(before, after) => RowsOf(db.overrides, r => SameOverride(r, before), after);
      case DeleteOverride(row) => RowsOf(db.overrides, r => SameOverride(r, row), row);
    }
    assert forall o: Override | o.tenant == t && o.user == u :: o in db.overrides <==> o in db'.overrides;
  }

  lemma OverrideEditCovered(db: Db, e: Edit, event: Option<Invalidation>)
    requires WellFormed(db) && Announces(event, e)
    requires e.InsertOverride? || e.ChangeOverride? || e.DeleteOverride?
    ensures WellFormed(ApplyEdit(db, e)) && Covered(db, ApplyEdit(db, e), event)
  {
    forall t, u | !EventCoversUser(event, t, u)
      ensures SameOverrides(db, ApplyEdit(db, e), t, u)
    {
      OverrideRowsElsewhere(db, e, t, u);
    }
  }

  lemma AclEditCovered(db: Db, e: Edit, event: Option<Invalidation>)
    requires WellFormed(db) && Announces(event, e)
    requires e.InsertAcl? || e.DeleteAclRow?
    ensures WellFormed(ApplyEdit(db, e)) && Covered(db, ApplyEdit(db, e), event)
  {
    RowsOf(db.acls, r => r == e.acl, e.acl);
  }

  lemma UnassignedRoleTouchesNobody(db: Db, id: Id, t: Id, u: Id)
    requires !Assigned(db, id)
    ensures SameForUser(db, ApplyEdit(db, DeleteRoleRow(id)), t, u)
  {
    KeepAll(db.userRoles, (ur: UserRole) => ur.roleId != id);
    assert forall ur | ur in db.userRoles :: ur.roleId != id;
  }

  /** A role that nobody is assigned can go without an event. */
  lemma RoleDeletionCovered(db: Db, id: Id, event: Option<Invalidation>)
    requires WellFormed(db) && !Assigned(db, id)
    ensures WellFormed(ApplyEdit(db, DeleteRoleRow(id))) && Covered(db, ApplyEdit(db, DeleteRoleRow(id)), event)
  {
    KeepAll(db.userRoles, (ur: UserRole) => ur.roleId != id);
    assert forall ur | ur in db.userRoles :: ur.roleId != id;
    forall t, u ensures SameForUser(db, ApplyEdit(db, DeleteRoleRow(id)), t, u) { UnassignedRoleTouchesNobody(db, id, t, u); }
  }

  lemma EditCovered(db: Db, e: Edit, event: Option<Invalidation>)
    requires WellFormed(db) && Announces(event, e) && Admits(db, e)
    requires e.DeleteRoleRow? ==> !Assigned(db, e.id)
    ensures WellFormed(ApplyEdit(db, e)) && Covered(db, ApplyEdit(db, e), event)
  {
    if e.InsertAssignment? || e.ChangeAssignment? || e.DeleteAssignment? {
      AssignmentEditCovered(db, e, event);
    } else if e.InsertMapping? || e.DeleteMapping? {
      MappingEditCovered(db, e, event);
    } else if e.InsertOverride? || e.ChangeOverride? || e.DeleteOverride? {
      OverrideEditCovered(db, e, event);
    } else if e.InsertAcl? || e.DeleteAclRow? {
      AclEditCovered(db, e, event);
    } else if e.DeleteRoleRow? {
      RoleDeletionCovered(db, e.id, event);
    }
  }

  lemma CoveredTwice(db: Db, db': Db, db'': Db, event: Option<Invalidation>)
    requires Covered(db, db', event) && Covered(db', db'', event)
    ensures Covered(db, db'', event)
  {
    forall t, u | !EventCoversUser(event, t, u)
      ensures SameForUser(db, db'', t, u)
    {
      assert SameForUser(db, db', t, u) && SameForUser(db', db'', t, u);
    }
  }

  /** A list of edits without a role deletion stays within its event on any tables that admit it. */
  lemma {:induction false} PlainEditsCovered(db: Db, edits: seq<Edit>, event: Option<Invalidation>)
    requires WellFormed(db) && AdmitsAll(db, edits)
    requires forall e | e in edits :: Announces(event, e) && !e.DeleteRoleRow?
    ensures WellFormed(Landed(db, edits)) && Covered(db, Landed(db, edits), event)
  {
    if edits != [] {
      var init, last := edits[..|edits| - 1], edits[|edits| - 1];
      PlainEditsCovered(db, init, event);
      EditCovered(Landed(db, init), last, event);
      CoveredTwice(db, Landed(db, init), Landed(db, edits), event);
    }
  }

  /** What holds of the edits of every handler: all announced, and a role deletion stands alone. */
  predicate Consistent(edits: seq<Edit>, event: Option<Invalidation>)
  {
    && (forall e | e in edits :: Announces(event, e))
    && (forall e | e in edits && e.DeleteRoleRow? :: edits == [e])
  }

  lemma EditsConsistent(db: Db, m: Mutation)
    requires Apply(db, m).Done?
    ensures Consistent(EditsOf(db, m), Apply(db, m).event)
  {
    EditsAnnounced(db, m);
  }

  /**
   * On whatever tables they land, the rows of a handler stay within the event it
   * emitted, unless they delete a role that somebody is assigned by now.
   */
  lemma LandingIsCovered(db: Db, edits: seq<Edit>, event: Option<Invalidation>)
    requires WellFormed(db) && Consistent(edits, event) && AdmitsAll(db, edits) && CascadeFree(db, edits)
    ensures WellFormed(Landed(db, edits)) && Covered(db, Landed(db, edits), event)
  {
    if e :| e in edits && e.DeleteRoleRow? {
      LandedOne(db, e);
      EditCovered(db, e, event);
    } else {
      PlainEditsCovered(db, edits, event);
    }
  }

  /**
   * Whatever an operation changes, the event it emits covers: a user whose
   * effective set could differ, at any time, or an ACL answer that could differ.
   */
  lemma EveryMutationIsCovered(db: Db, m: Mutation)
    requires WellFormed(db) && Apply(db, m).Done?
    ensures WellFormed(Apply(db, m).db)
    ensures Covered(db, Apply(db, m).db, Apply(db, m).event)
  {
    EditsLand(db, m);
    EditsConsistent(db, m);
    LandingIsCovered(db, EditsOf(db, m), Apply(db, m).event);
  }

  /** Creating and deleting roles emit nothing, and need to emit nothing. */
  lemma RolesNeedNoEvent(db: Db, roleId: Id, tenant: Id, name: string)
    requires WellFormed(db)
    ensures var o := NewRole(db, roleId, tenant, name); o.Done? ==> WellFormed(o.db) && Covered(db, o.db, None)
    ensures var o := DropRole(db, roleId, tenant); o.Done? ==> WellFormed(o.db) && Covered(db, o.db, None)
  {
    if NewRole(db, roleId, tenant, name).Done? {
      EveryMutationIsCovered(db, CreateRole(roleId, tenant, name));
    }
    if DropRole(db, roleId, tenant).Done? {
      EveryMutationIsCovered(db, DeleteRole(roleId, tenant));
    }
  }

  /** In decisions: nobody outside the event is answered differently, now or later. */
  lemma OnlyCoveredDecisionsChange(db: Db, m: Mutation, q: Query, now: Time)
    requires WellFormed(db) && Apply(db, m).Done?
    requires Decide(Apply(db, m).db, q, now) != Decide(db, q, now)
    ensures Apply(db, m).event.Some? && CoversDecision(Apply(db, m).event.value, q)
  {
    EveryMutationIsCovered(db, m);
    var o := Apply(db, m);
    if !EventCoversUser(o.event, q.tenant, q.user) && !EventCoversAcl(o.event, q) {
      FrameEffective(db, o.db, q.tenant, q.user, now);
    }
  }

  // ---- founding a tenant ----

  /** A new tenant, its first user, and that user's system role if there is one: no event goes out. */
  function Founded(db: Db, tenant: Id, admin: Id, role: Option<Id>): Db
  {
    var db1 := db.(tenants := db.tenants + {tenant}, users := db.users[admin := tenant]);
    if role.Some? then db1.(userRoles := db1.userRoles + [UserRole(tenant, admin, role.value, None)]) else db1
  }

  /** Nobody but the new user is touched, so only what was held for an id nobody had yet could become wrong. */
  lemma FoundingTouchesOnlyTheAdmin(db: Db, tenant: Id, admin: Id, role: Option<Id>, t: Id, u: Id, q: Query)
    requires WellFormed(db) && (role.Some? ==> role.value in db.roles && db.roles[role.value].isSystem)
    ensures WellFormed(Founded(db, tenant, admin, role))
    ensures t != tenant || u != admin ==> SameForUser(db, Founded(db, tenant, admin, role), t, u)
    ensures AclAllows(db, q) <==> AclAllows(Founded(db, tenant, admin, role), q)
  {
  }
}
