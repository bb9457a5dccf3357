// What the two batch endpoints amount to: the role update is a map expression,
// and the role-permission update is exact down to row multiplicities.

module BatchUpdates {
  import opened Tables
  import opened Mutations

  // ---- user roles ----

  /** At most one row per (tenant, user, role); the schema does not enforce it. */
  ghost predicate UniqueAssignments(rows: seq<UserRole>)
  {
    forall i, j | 0 <= i < j < |rows| ::
      !(rows[i].tenant == rows[j].tenant && rows[i].user == rows[j].user && rows[i].roleId == rows[j].roleId)
  }

  /** The stored expiry of an assignment, if there is one: the table read as a map. */
  function Lookup(rows: seq<UserRole>, tenant: Id, user: Id, roleId: Id): Option<Option<Time>>
  {
    var i := IndexWhere(rows, (ur: UserRole) => ur.tenant == tenant && ur.user == user && ur.roleId == roleId);
    if i < |rows| then Some(rows[i].expires) else None
  }

  /** The expiry the last item of `add` for this role asks for. */
  function LastGrant(add: seq<RoleGrant>, roleId: Id): Option<Option<Time>>
  {
    if add == [] then None
    else if add[|add| - 1].roleId == roleId then Some(add[|add| - 1].expires)
    else LastGrant(add[..|add| - 1], roleId)
  }

  /** How many rows assign this role to this user. */
  function AssignmentCount(rows: seq<UserRole>, t: Id, u: Id, r: Id): nat
  {
    if rows == [] then 0
    else (if rows[0].tenant == t && rows[0].user == u && rows[0].roleId == r then 1 else 0) + AssignmentCount(rows[1..], t, u, r)
  }

  lemma {:induction false} CountSum(a: seq<UserRole>, b: seq<UserRole>, t: Id, u: Id, r: Id)
    ensures AssignmentCount(a + b, t, u, r) == AssignmentCount(a, t, u, r) + AssignmentCount(b, t, u, r)
  {
    if a == [] {
      assert a + b == b;
    } else {
      assert (a + b)[1..] == a[1..] + b;
      CountSum(a[1..], b, t, u, r);
    }
  }

  lemma CountAround(rows: seq<UserRole>, i: nat, t: Id, u: Id, r: Id)
    requires i < |rows|
    ensures AssignmentCount(rows, t, u, r) ==
            AssignmentCount(rows[..i], t, u, r) + (if IsFor(rows[i], t, u, r) then 1 else 0) + AssignmentCount(rows[i + 1..], t, u, r)
  {
    assert rows == rows[..i] + rows[i..] && rows[i..][1..] == rows[i + 1..];
    CountSum(rows[..i], rows[i..], t, u, r);
  }

  lemma {:induction false} CountFinds(rows: seq<UserRole>, t: Id, u: Id, r: Id)
    ensures AssignmentCount(rows, t, u, r) == 0 <==> forall ur | ur in rows :: !IsFor(ur, t, u, r)
  {
    if rows != [] {
      CountFinds(rows[1..], t, u, r);
      assert forall ur :: ur in rows <==> ur == rows[0] || ur in rows[1..];
      if IsFor(rows[0], t, u, r) { assert rows[0] in rows; }
    }
  }

  /** The services' `findOne` finds the row the table-as-a-map is read from. */
  lemma LookupIsFind(rows: seq<UserRole>, t: Id, u: Id, r: Id)
    ensures Lookup(rows, t, u, r) == (var i := FindAssignment(rows, t, u, r); if i < |rows| then Some(rows[i].expires) else None)
  {
    var i := IndexWhere(rows, (ur: UserRole) => ur.tenant == t && ur.user == u && ur.roleId == r);
    FindIs(rows, i, t, u, r);
  }

  lemma LookupFinds(rows: seq<UserRole>, t: Id, u: Id, r: Id)
    ensures Lookup(rows, t, u, r) == None <==> AssignmentCount(rows, t, u, r) == 0
  {
    CountFinds(rows, t, u, r);
    LookupIsFind(rows, t, u, r);
    var i := FindAssignment(rows, t, u, r);
    assert i < |rows| ==> rows[i] in rows;
  }

  lemma FindIs(rows: seq<UserRole>, k: nat, t: Id, u: Id, r: Id)
    requires k <= |rows| && (k < |rows| ==> IsFor(rows[k], t, u, r)) && forall j | 0 <= j < k :: !IsFor(rows[j], t, u, r)
    ensures FindAssignment(rows, t, u, r) == k
  {
  }

  // ---- one upsert, one removal ----

  lemma UpsertUnique(rows: seq<UserRole>, tenant: Id, user: Id, grant: RoleGrant)
    requires UniqueAssignments(rows)
    ensures UniqueAssignments(Upsert(rows, tenant, user, grant))
  {
    var k := FindAssignment(rows, tenant, user, grant.roleId);
    var rows' := Upsert(rows, tenant, user, grant);
    assert forall j | 0 <= j < |rows| :: rows'[j] == if j == k then rows[j].(expires := grant.expires) else rows[j];
  }

  lemma UnassignUnique(rows: seq<UserRole>, tenant: Id, user: Id, roleId: Id)
    requires UniqueAssignments(rows)
    ensures UniqueAssignments(Unassign(rows, tenant, user, roleId))
  {
    var k := FindAssignment(rows, tenant, user, roleId);
    var rows' := Unassign(rows, tenant, user, roleId);
    assert forall j | 0 <= j < |rows'| :: rows'[j] == rows[if j < k then j else j + 1];
  }

  lemma UpsertLookup(rows: seq<UserRole>, tenant: Id, user: Id, grant: RoleGrant, t: Id, u: Id, r: Id)
    ensures Lookup(Upsert(rows, tenant, user, grant), t, u, r) ==
            if t == tenant && u == user && r == grant.roleId then Some(grant.expires) else Lookup(rows, t, u, r)
  {
    var rows' := Upsert(rows, tenant, user, grant);
    var k, i := FindAssignment(rows, tenant, user, grant.roleId), FindAssignment(rows, t, u, r);
    LookupIsFind(rows, t, u, r);
    LookupIsFind(rows', t, u, r);
    assert forall j | 0 <= j < |rows| :: rows'[j] == if j == k then rows[j].(expires := grant.expires) else rows[j];
    if t == tenant && u == user && r == grant.roleId {
      FindIs(rows', k, t, u, r);
    } else {
      FindIs(rows', if i < |rows| then i else |rows'|, t, u, r);
    }
  }

  lemma UpsertCount(rows: seq<UserRole>, tenant: Id, user: Id, grant: RoleGrant, t: Id, u: Id, r: Id)
    ensures AssignmentCount(Upsert(rows, tenant, user, grant), t, u, r) ==
            var n := AssignmentCount(rows, t, u, r);
            if t == tenant && u == user && r == grant.roleId && n == 0 then 1 else n
  {
    var k := FindAssignment(rows, tenant, user, grant.roleId);
    var rows' := Upsert(rows, tenant, user, grant);
    LookupFinds(rows, tenant, user, grant.roleId);
    if k < |rows| {
      CountAround(rows, k, t, u, r);
      CountAround(rows', k, t, u, r);
      assert rows'[..k] == rows[..k] && rows'[k + 1..] == rows[k + 1..];
    } else {
      CountSum(rows, [UserRole(tenant, user, grant.roleId, grant.expires)], t, u, r);
    }
  }

  /** A removal takes away the first row of its key; of another key it changes nothing. */
  lemma UnassignOther(rows: seq<UserRole>, tenant: Id, user: Id, roleId: Id, t: Id, u: Id, r: Id)
    requires !(t == tenant && u == user && r == roleId)
    ensures Lookup(Unassign(rows, tenant, user, roleId), t, u, r) == Lookup(rows, t, u, r)
  {
    var rows' := Unassign(rows, tenant, user, roleId);
    var k, i := FindAssignment(rows, tenant, user, roleId), FindAssignment(rows, t, u, r);
    LookupIsFind(rows, t, u, r);
    LookupIsFind(rows', t, u, r);
    if k < |rows| {
      assert forall j | 0 <= j < |rows'| :: rows'[j] == rows[if j < k then j else j + 1];
      FindIs(rows', if i == |rows| then |rows'| else if i < k then i else i - 1, t, u, r);
    }
  }

  lemma UnassignCount(rows: seq<UserRole>, tenant: Id, user: Id, roleId: Id, t: Id, u: Id, r: Id)
    ensures AssignmentCount(Unassign(rows, tenant, user, roleId), t, u, r) ==
            var n := AssignmentCount(rows, t, u, r);
            if t == tenant && u == user && r == roleId && n > 0 then n - 1 else n
  {
    var k := FindAssignment(rows, tenant, user, roleId);
    LookupFinds(rows, tenant, user, roleId);
    if k < |rows| {
      CountAround(rows, k, t, u, r);
      CountSum(rows[..k], rows[k + 1..], t, u, r);
    }
  }

  // ---- the two loops ----

  lemma {:induction false} UpsertAllKeeps(rows: seq<UserRole>, tenant: Id, user: Id, add: seq<RoleGrant>, t: Id, u: Id, r: Id)
    ensures UniqueAssignments(rows) ==> UniqueAssignments(UpsertAll(rows, tenant, user, add))
    ensures Lookup(UpsertAll(rows, tenant, user, add), t, u, r) ==
            if t == tenant && u == user && LastGrant(add, r).Some? then LastGrant(add, r) else Lookup(rows, t, u, r)
    ensures AssignmentCount(UpsertAll(rows, tenant, user, add), t, u, r) ==
            var n := AssignmentCount(rows, t, u, r);
            if t == tenant && u == user && LastGrant(add, r).Some? && n == 0 then 1 else n
  {
    if add != [] {
      var init, last := add[..|add| - 1], add[|add| - 1];
      var before := UpsertAll(rows, tenant, user, init);
      UpsertAllKeeps(rows, tenant, user, init, t, u, r);
      UpsertLookup(before, tenant, user, last, t, u, r);
      UpsertCount(before, tenant, user, last, t, u, r);
      if UniqueAssignments(rows) {
        UpsertUnique(before, tenant, user, last);
      }
    }
  }

  lemma {:induction false} UnassignAllKeeps(rows: seq<UserRole>, tenant: Id, user: Id, remove: seq<Id>, t: Id, u: Id, r: Id)
    ensures UniqueAssignments(rows) ==> UniqueAssignments(UnassignAll(rows, tenant, user, remove))
    ensures !(t == tenant && u == user && r in remove) ==>
              Lookup(UnassignAll(rows, tenant, user, remove), t, u, r) == Lookup(rows, t, u, r)
    ensures AssignmentCount(UnassignAll(rows, tenant, user, remove), t, u, r) ==
            var n, m := AssignmentCount(rows, t, u, r), multiset(remove)[r];
            if t != tenant || u != user then n else if n <= m then 0 else n - m
  {
    if remove != [] {
      var init, last := remove[..|remove| - 1], remove[|remove| - 1];
      assert remove == init + [last];
      var before := UnassignAll(rows, tenant, user, init);
      UnassignAllKeeps(rows, tenant, user, init, t, u, r);
      UnassignCount(before, tenant, user, last, t, u, r);
      if !(t == tenant && u == user && r == last) {
        UnassignOther(before, tenant, user, last, t, u, r);
      }
      if UniqueAssignments(rows) {
        UnassignUnique(before, tenant, user, last);
      }
    }
  }

  /** What the batch leaves, as a map expression: removals win, then the last expiry given for the role. */
  function MapExpression(rows: seq<UserRole>, tenant: Id, user: Id, add: seq<RoleGrant>, remove: seq<Id>, t: Id, u: Id, r: Id):
    Option<Option<Time>>
  {
    if t != tenant || u != user then Lookup(rows, t, u, r)
    else if r in remove then None
    else if LastGrant(add, r).Some? then LastGrant(add, r)
    else Lookup(rows, t, u, r)
  }

  /** How many rows of any key the batch leaves: additions never make a second one, each mention in `remove` takes one. */
  lemma UpdateRolesCount(db: Db, tenant: Id, user: Id, add: seq<RoleGrant>, remove: seq<Id>, t: Id, u: Id, r: Id)
    requires UpdateRoles(db, tenant, user, add, remove).Done?
    ensures var rows := UpdateRoles(db, tenant, user, add, remove).db.userRoles;
            var n := AssignmentCount(db.userRoles, t, u, r);
            var put := if LastGrant(add, r).Some? && n == 0 then 1 else n;
            AssignmentCount(rows, t, u, r) ==
            if t != tenant || u != user then n else if put <= multiset(remove)[r] then 0 else put - multiset(remove)[r]
  {
    UpsertAllKeeps(db.userRoles, tenant, user, add, t, u, r);
    UnassignAllKeeps(UpsertAll(db.userRoles, tenant, user, add), tenant, user, remove, t, u, r);
  }

  /**
   * The batch role update is its map expression at a key exactly when it does not remove a
   * role stored more often than it mentions it: the schema does not rule repeated rows out.
   */
  lemma UpdateRolesIsMapExpression(db: Db, tenant: Id, user: Id, add: seq<RoleGrant>, remove: seq<Id>, t: Id, u: Id, r: Id)
    requires UpdateRoles(db, tenant, user, add, remove).Done?
    ensures var rows := UpdateRoles(db, tenant, user, add, remove).db.userRoles;
            Lookup(rows, t, u, r) == MapExpression(db.userRoles, tenant, user, add, remove, t, u, r)
            <==> (t == tenant && u == user && r in remove ==> AssignmentCount(db.userRoles, t, u, r) <= multiset(remove)[r])
  {
    var rows := UpdateRoles(db, tenant, user, add, remove).db.userRoles;
    UpsertAllKeeps(db.userRoles, tenant, user, add, t, u, r);
    UnassignAllKeeps(UpsertAll(db.userRoles, tenant, user, add), tenant, user, remove, t, u, r);
    UpdateRolesCount(db, tenant, user, add, remove, t, u, r);
    LookupFinds(rows, t, u, r);
  }

  /** On a table with one row per key it is the map expression everywhere, and keeps one row per key. */
  lemma UpdateRolesKeepsUnique(db: Db, tenant: Id, user: Id, add: seq<RoleGrant>, remove: seq<Id>)
    requires UniqueAssignments(db.userRoles) && UpdateRoles(db, tenant, user, add, remove).Done?
    ensures var rows := UpdateRoles(db, tenant, user, add, remove).db.userRoles;
            && UniqueAssignments(rows)
            && forall t, u, r :: Lookup(rows, t, u, r) == MapExpression(db.userRoles, tenant, user, add, remove, t, u, r)
  {
    var rows := UpdateRoles(db, tenant, user, add, remove).db.userRoles;
    UpsertAllKeeps(db.userRoles, tenant, user, add, tenant, user, "");
    UnassignAllKeeps(UpsertAll(db.userRoles, tenant, user, add), tenant, user, remove, tenant, user, "");
    forall t, u, r
      ensures Lookup(rows, t, u, r) == MapExpression(db.userRoles, tenant, user, add, remove, t, u, r)
    {
      UpdateRolesIsMapExpression(db, tenant, user, add, remove, t, u, r);
      UniqueCount(db.userRoles, t, u, r);
      assert r in remove ==> multiset(remove)[r] >= 1;
    }
  }

  lemma {:induction false} UniqueCount(rows: seq<UserRole>, t: Id, u: Id, r: Id)
    requires UniqueAssignments(rows)
    ensures AssignmentCount(rows, t, u, r) <= 1
  {
    if rows != [] {
      UniqueCount(rows[1..], t, u, r);
      if IsFor(rows[0], t, u, r) {
        CountFinds(rows[1..], t, u, r);
        forall ur | ur in rows[1..] ensures !IsFor(ur, t, u, r) {
          var k :| 0 <= k < |rows[1..]| && rows[1..][k] == ur;
          assert rows[k + 1] == ur && !IsFor(rows[0], ur.tenant, ur.user, ur.roleId);
        }
      }
    }
  }

  // ---- role permissions ----

  /** Some identifier names the permission: by its id if it looks like one, by its code otherwise. */
  ghost predicate IsNamed(permissions: seq<Permission>, identifiers: seq<string>, permissionId: Id)
  {
    exists p, s | p in permissions && s in identifiers ::
      p.id == permissionId && (if IsUuid(s) then p.id == Lower(s) else p.code == s)
  }

  lemma ResolveFindsTheNamed(permissions: seq<Permission>, identifiers: seq<string>, permissionId: Id)
    ensures HasId(Resolve(permissions, identifiers), permissionId) <==> IsNamed(permissions, identifiers, permissionId)
  {
  }

  ghost predicate HasId(permissions: seq<Permission>, permissionId: Id)
  {
    exists p :: p in permissions && p.id == permissionId
  }

  lemma HasIdLast(permissions: seq<Permission>, permissionId: Id)
    requires permissions != []
    ensures HasId(permissions, permissionId) <==>
            HasId(permissions[..|permissions| - 1], permissionId) || permissions[|permissions| - 1].id == permissionId
  {
    assert permissions == permissions[..|permissions| - 1] + [permissions[|permissions| - 1]];
  }

  ghost function RowsFor(rows: seq<RolePermission>, roleId: Id, permissionId: Id): nat
  {
    multiset(rows)[RolePermission(roleId, permissionId)]
  }

  lemma {:induction false} KeepDistinct(rows: seq<Permission>, f: Permission -> bool)
    requires DistinctIds(rows)
    ensures DistinctIds(Keep(rows, f))
  {
    if rows != [] {
      KeepDistinct(rows[1..], f);
      assert forall p | p in Keep(rows[1..], f) :: p.id != rows[0].id;
    }
  }

  lemma {:induction false} AddMappingsCount(rows: seq<RolePermission>, roleId: Id, permissions: seq<Permission>, r: Id, p: Id)
    ensures RowsFor(AddMappings(rows, roleId, permissions), r, p) ==
            if r == roleId && RowsFor(rows, r, p) == 0 && HasId(permissions, p) then 1 else RowsFor(rows, r, p)
  {
    if permissions != [] {
      var init, last := permissions[..|permissions| - 1], permissions[|permissions| - 1];
      AddMappingsCount(rows, roleId, init, r, p);
      HasIdLast(permissions, p);
      var before := AddMappings(rows, roleId, init);
      assert RolePermission(r, p) in before <==> RowsFor(before, r, p) > 0;
    }
  }

  lemma DropMappingCount(rows: seq<RolePermission>, roleId: Id, dropped: Id, r: Id, p: Id)
    ensures RowsFor(DropMapping(rows, roleId, dropped), r, p) ==
            if r == roleId && p == dropped && RowsFor(rows, r, p) > 0 then RowsFor(rows, r, p) - 1 else RowsFor(rows, r, p)
  {
    var i := FindMapping(rows, RolePermission(roleId, dropped));
    assert RolePermission(roleId, dropped) in rows <==> RowsFor(rows, roleId, dropped) > 0;
    if i < |rows| {
      assert rows == rows[..i] + [rows[i]] + rows[i + 1..];
    }
  }

  lemma {:induction false} DropMappingsCount(rows: seq<RolePermission>, roleId: Id, permissions: seq<Permission>, r: Id, p: Id)
    requires DistinctIds(permissions)
    ensures RowsFor(DropMappings(rows, roleId, permissions), r, p) ==
            if r == roleId && RowsFor(rows, r, p) > 0 && HasId(permissions, p)
            then RowsFor(rows, r, p) - 1 else RowsFor(rows, r, p)
  {
    if permissions != [] {
      var init, last := permissions[..|permissions| - 1], permissions[|permissions| - 1];
      DropMappingsCount(rows, roleId, init, r, p);
      DropMappingCount(DropMappings(rows, roleId, init), roleId, last.id, r, p);
      HasIdLast(permissions, p);
      assert last.id == p ==> !HasId(init, p);
    }
  }

  /**
   * How many rows each (role, permission) pair has after the batch, for any mix of
   * ids and codes, repeated or unknown: a missing named pair gains one row, then a
   * named pair loses one. Other roles' rows are untouched.
   */
  lemma UpdateMappingsCount(db: Db, roleId: Id, add: seq<string>, remove: seq<string>, r: Id, p: Id)
    requires DistinctIds(db.permissions)
    ensures var before := RowsFor(db.rolePermissions, r, p);
            var after := RowsFor(UpdateMappings(db, roleId, add, remove), r, p);
            var added := if before == 0 && IsNamed(db.permissions, add, p) then 1 else before;
            after == if r != roleId then before
                     else if IsNamed(db.permissions, remove, p) && added > 0 then added - 1
                     else added
  {
    KeepDistinct(db.permissions, (x: Permission) => exists s | s in remove :: Names(s, x));
    ResolveFindsTheNamed(db.permissions, add, p);
    ResolveFindsTheNamed(db.permissions, remove, p);
    AddMappingsCount(db.rolePermissions, roleId, Resolve(db.permissions, add), r, p);
    DropMappingsCount(AddMappings(db.rolePermissions, roleId, Resolve(db.permissions, add)), roleId, Resolve(db.permissions, remove), r, p);
  }

  /**
   * As a set the batch computes (old + add) - remove at a permission exactly when it
   * is not asked to remove a pair stored twice: then one copy survives.
   */
  lemma UpdateMappingsIsSetFormula(db: Db, roleId: Id, add: seq<string>, remove: seq<string>, p: Id)
    requires DistinctIds(db.permissions)
    ensures var rp := RolePermission(roleId, p);
            (rp in UpdateMappings(db, roleId, add, remove) <==>
               (rp in db.rolePermissions || IsNamed(db.permissions, add, p)) && !IsNamed(db.permissions, remove, p))
            <==>
            (IsNamed(db.permissions, remove, p) ==> RowsFor(db.rolePermissions, roleId, p) <= 1)
  {
    UpdateMappingsCount(db, roleId, add, remove, roleId, p);
    var rp := RolePermission(roleId, p);
    var rows' := UpdateMappings(db, roleId, add, remove);
    assert rp in rows' <==> multiset(rows')[rp] > 0;
    assert rp in db.rolePermissions <==> multiset(db.rolePermissions)[rp] > 0;
  }

  /** The batch never stores a pair twice itself, so without outside duplicates the formula always holds. */
  lemma UpdateMappingsKeepsSingleRows(db: Db, roleId: Id, add: seq<string>, remove: seq<string>)
    requires DistinctIds(db.permissions)
    requires forall r, p :: RowsFor(db.rolePermissions, r, p) <= 1
    ensures forall r, p :: RowsFor(UpdateMappings(db, roleId, add, remove), r, p) <= 1
  {
    forall r, p
      ensures RowsFor(UpdateMappings(db, roleId, add, remove), r, p) <= 1
    {
      UpdateMappingsCount(db, roleId, add, remove, r, p);
    }
  }
}
