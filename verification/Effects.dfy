// What each single operation achieves, which operations undo which, and the
// table invariants that every operation keeps.

module Effects {
  import opened Tables
  import opened Mutations
  import opened RowEdits
  import opened BatchUpdates
  import opened Tenancy

  // ---- role assignments ----

  /** A single assignment is the batch update with one addition. */
  lemma AssignIsBatchOfOne(db: Db, tenant: Id, user: Id, grant: RoleGrant)
    ensures Assign(db, tenant, user, grant) == UpdateRoles(db, tenant, user, [grant], [])
  {
    assert AllVisible(db, tenant, [grant]) <==> VisibleRole(db, grant.roleId, tenant) by {
      assert [grant][0] in [grant];
    }
    assert [grant][..0] == [];
    assert UpsertAll(db.userRoles, tenant, user, [grant]) == Upsert(UpsertAll(db.userRoles, tenant, user, []), tenant, user, grant);
  }

  // ---- overrides ----

  /** The schema's unique key. */
  ghost predicate UniqueOverrides(rows: seq<Override>)
  {
    forall i, j | 0 <= i < j < |rows| ::
      !(rows[i].tenant == rows[j].tenant && rows[i].user == rows[j].user && rows[i].permissionId == rows[j].permissionId)
  }

  predicate IsOn(o: Override, tenant: Id, user: Id, permissionId: Id)
  {
    o.tenant == tenant && o.user == user && o.permissionId == permissionId
  }

  lemma PutOverrideUnique(db: Db, newId: Id, tenant: Id, user: Id, permissionId: Id, kind: OverrideKind)
    requires UniqueOverrides(db.overrides) && PutOverride(db, newId, tenant, user, permissionId, kind).Done?
    ensures UniqueOverrides(PutOverride(db, newId, tenant, user, permissionId, kind).db.overrides)
  {
    var i := FindOverride(db.overrides, tenant, user, permissionId);
    var rows := PutOverride(db, newId, tenant, user, permissionId, kind).db.overrides;
    assert forall j | 0 <= j < |db.overrides| && j != i :: rows[j] == db.overrides[j];
    assert forall j | 0 <= j < |rows| && j != i :: !IsOn(rows[j], tenant, user, permissionId);
  }

  lemma PutOverrideRows(db: Db, newId: Id, tenant: Id, user: Id, permissionId: Id, kind: OverrideKind)
    requires UniqueOverrides(db.overrides) && PutOverride(db, newId, tenant, user, permissionId, kind).Done?
    ensures var rows := PutOverride(db, newId, tenant, user, permissionId, kind).db.overrides;
            && (forall o: Override | !IsOn(o, tenant, user, permissionId) :: o in rows <==> o in db.overrides)
            && (exists o :: o in rows && IsOn(o, tenant, user, permissionId))
            && (forall o | o in rows && IsOn(o, tenant, user, permissionId) :: o.kind == kind)
  {
    var i := FindOverride(db.overrides, tenant, user, permissionId);
    var rows := PutOverride(db, newId, tenant, user, permissionId, kind).db.overrides;
    assert i < |rows| && IsOn(rows[i], tenant, user, permissionId) && rows[i] in rows && rows[i].kind == kind;
    assert forall j | 0 <= j < |db.overrides| && j != i :: rows[j] == db.overrides[j];
    assert forall j | 0 <= j < |rows| && j != i :: !IsOn(rows[j], tenant, user, permissionId);
  }

  /** After an override is put, it and only it speaks on that permission; every other override is as before. */
  lemma PutOverrideExactly(
      db: Db, newId: Id, tenant: Id, user: Id, permissionId: Id, kind: OverrideKind, t: Id, u: Id, p: Id, k: OverrideKind)
    requires UniqueOverrides(db.overrides) && PutOverride(db, newId, tenant, user, permissionId, kind).Done?
    ensures HasOverride(PutOverride(db, newId, tenant, user, permissionId, kind).db, t, u, p, k) <==>
            if t == tenant && u == user && p == permissionId then k == kind else HasOverride(db, t, u, p, k)
  {
    PutOverrideRows(db, newId, tenant, user, permissionId, kind);
    var db' := PutOverride(db, newId, tenant, user, permissionId, kind).db;
    if t == tenant && u == user && p == permissionId {
      var o :| o in db'.overrides && IsOn(o, tenant, user, permissionId);
    } else {
      assert forall o | IsOn(o, t, u, p) :: o in db'.overrides <==> o in db.overrides;
      if HasOverride(db, t, u, p, k) {
        var o :| o in db.overrides && IsOn(o, t, u, p) && o.kind == k;
      }
      if HasOverride(db', t, u, p, k) {
        var o :| o in db'.overrides && IsOn(o, t, u, p) && o.kind == k;
      }
    }
  }

  /** A grant gives the user the permission whatever their roles; a deny takes exactly it away. */
  lemma OverrideDecidesItsPermission(db: Db, newId: Id, tenant: Id, user: Id, permissionId: Id, kind: OverrideKind, now: Time)
    requires UniqueOverrides(db.overrides) && PutOverride(db, newId, tenant, user, permissionId, kind).Done?
    ensures var db' := PutOverride(db, newId, tenant, user, permissionId, kind).db;
            && (Holds(db', tenant, user, now, permissionId) <==> kind == Grant)
            && (forall p | p != permissionId :: Holds(db', tenant, user, now, p) <==> Holds(db, tenant, user, now, p))
  {
    PutOverrideExactly(db, newId, tenant, user, permissionId, kind, tenant, user, permissionId, Grant);
    PutOverrideExactly(db, newId, tenant, user, permissionId, kind, tenant, user, permissionId, Deny);
    forall p | p != permissionId
      ensures Holds(PutOverride(db, newId, tenant, user, permissionId, kind).db, tenant, user, now, p) <==> Holds(db, tenant, user, now, p)
    {
      PutOverrideExactly(db, newId, tenant, user, permissionId, kind, tenant, user, p, Grant);
      PutOverrideExactly(db, newId, tenant, user, permissionId, kind, tenant, user, p, Deny);
    }
  }

  /** Removing an override that was newly added restores the tables. */
  lemma RemoveUndoesAdd(db: Db, newId: Id, tenant: Id, user: Id, permissionId: Id, kind: OverrideKind)
    requires PutOverride(db, newId, tenant, user, permissionId, kind).Done?
    requires FindOverride(db.overrides, tenant, user, permissionId) == |db.overrides|
    requires forall o | o in db.overrides :: o.id != newId
    ensures DropOverride(PutOverride(db, newId, tenant, user, permissionId, kind).db, newId, tenant, user)
            == Done(db, Some(UserInvalidation(tenant, user)))
  {
    var db' := PutOverride(db, newId, tenant, user, permissionId, kind).db;
    var n := |db.overrides|;
    assert db'.overrides[n].id == newId;
    assert forall j | 0 <= j < n :: db'.overrides[j] == db.overrides[j] && db.overrides[j] in db.overrides;
    assert FindOverrideById(db'.overrides, newId, tenant, user) == n;
    assert RemoveAt(db'.overrides, n) == db.overrides;
  }

  lemma DropOverrideUnique(db: Db, id: Id, tenant: Id, user: Id)
    requires UniqueOverrides(db.overrides)
    ensures UniqueOverrides(DropOverride(db, id, tenant, user).db.overrides)
  {
    var rows := DropOverride(db, id, tenant, user).db.overrides;
    var i := FindOverrideById(db.overrides, id, tenant, user);
    assert forall j | 0 <= j < |rows| :: rows[j] == db.overrides[if j < i then j else j + 1];
  }

  // ---- ACL rows ----

  /** No two rows answer the same question; the schema does not enforce it. */
  ghost predicate UniqueAcls(rows: seq<Acl>)
  {
    forall i, j | 0 <= i < j < |rows| :: AclQuery(rows[i]) != AclQuery(rows[j])
  }

  lemma AllowsIffRow(db: Db, q: Query)
    ensures AclAllows(db, q) <==> exists i :: 0 <= i < |db.acls| && AclQuery(db.acls[i]) == q
  {
    if AclAllows(db, q) {
      var a :| a in db.acls && Matches(a, q);
      var i :| 0 <= i < |db.acls| && db.acls[i] == a;
      assert AclQuery(db.acls[i]) == q;
    }
    if i :| 0 <= i < |db.acls| && AclQuery(db.acls[i]) == q {
      assert db.acls[i] in db.acls && Matches(db.acls[i], q);
    }
  }

  /** How many rows answer the question. */
  function AclCount(rows: seq<Acl>, q: Query): nat
  {
    if rows == [] then 0 else (if AclQuery(rows[0]) == q then 1 else 0) + AclCount(rows[1..], q)
  }

  lemma {:induction false} AclCountSum(a: seq<Acl>, b: seq<Acl>, q: Query)
    ensures AclCount(a + b, q) == AclCount(a, q) + AclCount(b, q)
  {
    if a == [] {
      assert a + b == b;
    } else {
      assert (a + b)[1..] == a[1..] + b;
      AclCountSum(a[1..], b, q);
    }
  }

  lemma {:induction false} AclCountFinds(rows: seq<Acl>, q: Query)
    ensures AclCount(rows, q) > 0 <==> exists i :: 0 <= i < |rows| && AclQuery(rows[i]) == q
  {
    if rows != [] {
      AclCountFinds(rows[1..], q);
      if i :| 0 <= i < |rows| && AclQuery(rows[i]) == q && i > 0 {
        assert AclQuery(rows[1..][i - 1]) == q;
      }
    }
  }

  /** Creating a row answers exactly that question with yes, and never makes a second row for it. */
  lemma AllowAclExactly(db: Db, newId: Id, q: Query, other: Query)
    requires AllowAcl(db, newId, q).Done?
    ensures var db' := AllowAcl(db, newId, q).db;
            && (AclAllows(db', other) <==> AclAllows(db, other) || other == q)
            && AclCount(db'.acls, other) == (var n := AclCount(db.acls, other); if other == q && n == 0 then 1 else n)
  {
    var db' := AllowAcl(db, newId, q).db;
    AllowsIffRow(db, q);
    AllowsIffRow(db, other);
    AllowsIffRow(db', other);
    AclCountFinds(db.acls, q);
    AclCountFinds(db.acls, other);
    AclCountFinds(db'.acls, other);
    if !AclAllows(db, q) {
      AclCountSum(db.acls, [db'.acls[|db.acls|]], other);
    }
  }

  /**
   * Deleting a row leaves every other question as it is, and its own allowed exactly when
   * a second row answered it, which the schema does not rule out.
   */
  lemma RevokeAclExactly(db: Db, id: Id, tenant: Id, other: Query)
    requires RevokeAcl(db, id, tenant).Done?
    ensures var db' := RevokeAcl(db, id, tenant).db;
            var row := db.acls[FindAcl(db.acls, id, tenant)];
            && (AclAllows(db', other) <==> AclCount(db.acls, other) >= if other == AclQuery(row) then 2 else 1)
            && AclCount(db'.acls, other) == AclCount(db.acls, other) - if other == AclQuery(row) then 1 else 0
  {
    var db' := RevokeAcl(db, id, tenant).db;
    var k := FindAcl(db.acls, id, tenant);
    assert db.acls == db.acls[..k] + ([db.acls[k]] + db.acls[k + 1..]);
    AclCountSum(db.acls[..k], [db.acls[k]] + db.acls[k + 1..], other);
    AclCountSum([db.acls[k]], db.acls[k + 1..], other);
    AclCountSum(db.acls[..k], db.acls[k + 1..], other);
    AllowsIffRow(db', other);
    AclCountFinds(db'.acls, other);
  }

  lemma AclsStayUnique(db: Db, m: Mutation)
    requires UniqueAcls(db.acls) && Apply(db, m).Done? && (m.CreateAcl? || m.DeleteAcl?)
    ensures UniqueAcls(Apply(db, m).db.acls)
  {
    var rows := Apply(db, m).db.acls;
    if m.CreateAcl? {
      AllowsIffRow(db, m.q);
    } else {
      var k := FindAcl(db.acls, m.aclId, m.tenant);
      assert forall j | 0 <= j < |rows| :: rows[j] == db.acls[if j < k then j else j + 1];
    }
  }

  // ---- roles ----

  /** Creating a custom role and deleting it again restores the tables. */
  lemma DeleteUndoesCreate(db: Db, newId: Id, tenant: Id, name: string)
    requires NewRole(db, newId, tenant, name).Done?
    requires forall ur | ur in db.userRoles :: ur.roleId != newId
    requires forall rp | rp in db.rolePermissions :: rp.roleId != newId
    ensures DropRole(NewRole(db, newId, tenant, name).db, newId, tenant) == Done(db, None)
  {
    var db' := NewRole(db, newId, tenant, name).db;
    assert db'.roles - {newId} == db.roles;
    KeepAll(db.rolePermissions, (rp: RolePermission) => rp.roleId != newId);
  }

  // ---- invariants of every operation ----

  /** What the services keep of the tables, beyond the schema's own keys. */
  ghost predicate Intact(db: Db)
  {
    && WellFormed(db)
    && AtHome(db)
    && UniquePermissions(db.permissions)
    && UniqueAssignments(db.userRoles)
    && UniqueOverrides(db.overrides)
    && UniqueAcls(db.acls)
  }

  lemma MutationKeepsAssignments(db: Db, m: Mutation)
    requires UniqueAssignments(db.userRoles) && Apply(db, m).Done?
    ensures UniqueAssignments(Apply(db, m).db.userRoles)
  {
    match m
    case AssignRole(t, u, g) => UpsertUnique(db.userRoles, t, u, g);
    case UpdateUserRoles(t, u, add, remove) => UpdateRolesKeepsUnique(db, t, u, add, remove);
    case CreateUser(id, t, role) =>
      if role.Some? {
        UpsertUnique(db.userRoles, t, id, RoleGrant(role.value, None));
      }
    case _ =>
  }

  lemma MutationKeepsOverrides(db: Db, m: Mutation)
    requires UniqueOverrides(db.overrides) && Apply(db, m).Done?
    ensures UniqueOverrides(Apply(db, m).db.overrides)
  {
    match m
    case AddOverride(id, t, u, p, kind) => PutOverrideUnique(db, id, t, u, p, kind);
    case RemoveOverride(id, t, u) => DropOverrideUnique(db, id, t, u);
    case _ =>
  }

  lemma MutationKeepsAcls(db: Db, m: Mutation)
    requires UniqueAcls(db.acls) && Apply(db, m).Done?
    ensures UniqueAcls(Apply(db, m).db.acls)
  {
    if m.CreateAcl? || m.DeleteAcl? {
      AclsStayUnique(db, m);
    }
  }

  /** Every operation keeps the tables intact, though the schema enforces little of it. */
  lemma EveryMutationKeepsIntact(db: Db, m: Mutation)
    requires Intact(db) && Apply(db, m).Done?
    ensures Intact(Apply(db, m).db)
  {
    EveryMutationIsCovered(db, m);
    EveryMutationKeepsHome(db, m);
    MutationKeepsAssignments(db, m);
    MutationKeepsOverrides(db, m);
    MutationKeepsAcls(db, m);
  }
}
