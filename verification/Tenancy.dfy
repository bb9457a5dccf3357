// Assignments stay within the tenant: whoever holds a role of a tenant's row is a
// user of that tenant, after every operation and in every state of every run.

module Tenancy {
  import opened Tables
  import opened Mutations
  import opened RowEdits
  import opened Protocol

  /** The user of every assignment row belongs to the row's tenant. */
  ghost predicate AtHome(db: Db)
  {
    forall ur | ur in db.userRoles :: ur.user in db.users && db.users[ur.user] == ur.tenant
  }

  /** An edit may add an assignment only for a user known in its tenant, or one that the same edits add. */
  ghost predicate Homely(users: map<Id, Id>, edits: seq<Edit>)
  {
    forall e | e in edits ::
      && (e.InsertAssignment? ==>
            || (e.row.user in users && users[e.row.user] == e.row.tenant)
            || (|edits| > 0 && edits[0] == InsertUser(e.row.user, e.row.tenant) && e != edits[0]))
      && (e.ChangeAssignment? ==> SameAssignment(e.was, e.now))
  }

  /** No user is gone or has moved. */
  ghost predicate Grown(users: map<Id, Id>, users': map<Id, Id>)
  {
    forall u | u in users :: u in users' && users'[u] == users[u]
  }

  // ---- landing ----

  lemma EditKeepsHome(db: Db, e: Edit)
    requires AtHome(db) && Admits(db, e)
    requires e.InsertAssignment? ==> e.row.user in db.users && db.users[e.row.user] == e.row.tenant
    requires e.ChangeAssignment? ==> SameAssignment(e.was, e.now)
    ensures AtHome(ApplyEdit(db, e)) && Grown(db.users, ApplyEdit(db, e).users)
  {
    match e
    case ChangeAssignment(was, now) => RowsOf(db.userRoles, r => SameAssignment(r, was), now);
    case DeleteAssignment(row) => RowsOf(db.userRoles, r => SameAssignment(r, row), row);
    case _ =>
  }

  /** On whatever tables the edits of a handler land, as long as no user it saw is gone, everybody is at home. */
  lemma {:induction false} LandingKeepsHome(db: Db, users: map<Id, Id>, edits: seq<Edit>)
    requires AtHome(db) && Grown(users, db.users) && Homely(users, edits) && AdmitsAll(db, edits)
    ensures AtHome(Landed(db, edits)) && Grown(db.users, Landed(db, edits).users)
    ensures edits != [] && edits[0].InsertUser? ==>
              edits[0].user in Landed(db, edits).users && Landed(db, edits).users[edits[0].user] == edits[0].tenant
  {
    if edits != [] {
      var init, last := edits[..|edits| - 1], edits[|edits| - 1];
      assert last in edits && forall e | e in init :: e in edits;
      if init == [] {
        assert edits == [last];
        LandedOne(db, last);
        EditKeepsHome(db, last);
      } else {
        assert init[0] == edits[0];
        LandingKeepsHome(db, users, init);
        EditKeepsHome(Landed(db, init), last);
      }
    }
  }

  // ---- the edits of the handlers ----

  /** A tenant-wide change of role permissions adds no assignment. */
  lemma {:induction false} MappingEditsOnly(rows: seq<RolePermission>, owner: Id, roleId: Id, permissions: seq<Permission>)
    ensures forall e | e in AddMappingEdits(rows, owner, roleId, permissions) :: e.InsertMapping?
    ensures forall e | e in DropMappingEdits(owner, roleId, permissions) :: e.DeleteMapping?
  {
    if permissions != [] {
      MappingEditsOnly(rows, owner, roleId, permissions[..|permissions| - 1]);
    }
  }

  /** Role assignments happen only for a user of the tenant. */
  lemma AssigningNeedsATenantsUser(db: Db, m: Mutation)
    requires Apply(db, m).Done?
    ensures m.AssignRole? ==> m.user in db.users && db.users[m.user] == m.tenant
    ensures m.UpdateUserRoles? ==> m.user in db.users && db.users[m.user] == m.tenant
  {
  }

  lemma EditsAreHomely(db: Db, m: Mutation)
    requires Apply(db, m).Done?
    ensures Homely(db.users, EditsOf(db, m))
  {
    EditsAnnounced(db, m);
    AssigningNeedsATenantsUser(db, m);
    if m.UpdateRolePermissions? {
      MappingEditsOnly(db.rolePermissions, m.tenant, m.roleId, Resolve(db.permissions, m.addCodes));
      MappingEditsOnly(db.rolePermissions, m.tenant, m.roleId, Resolve(db.permissions, m.removeCodes));
    }
  }

  /** Every operation keeps everybody at home. */
  lemma EveryMutationKeepsHome(db: Db, m: Mutation)
    requires AtHome(db) && Apply(db, m).Done?
    ensures AtHome(Apply(db, m).db) && Grown(db.users, Apply(db, m).db.users)
  {
    EditsLand(db, m);
    EditsAreHomely(db, m);
    LandingKeepsHome(db, db.users, EditsOf(db, m));
  }

  /** Founding a tenant with an id nobody has, too. */
  lemma FoundingKeepsHome(db: Db, tenant: Id, admin: Id, role: Option<Id>)
    requires AtHome(db) && admin !in db.users
    ensures AtHome(Founded(db, tenant, admin, role)) && Grown(db.users, Founded(db, tenant, admin, role).users)
  {
  }

  // ---- runs ----

  /** Everybody is at home, and will be when the open transactions land. */
  ghost predicate Inv(s: State)
  {
    AtHome(s.db) && forall x | x in s.txs :: Homely(s.db.users, s.txs[x].edits)
  }

  lemma HomelyLater(users: map<Id, Id>, users': map<Id, Id>, edits: seq<Edit>)
    requires Homely(users, edits) && Grown(users, users')
    ensures Homely(users', edits)
  {
  }

  lemma SameTablesKeepHome(s: State, s': State)
    requires Inv(s) && AtHome(s'.db) && Grown(s.db.users, s'.db.users)
    requires forall x | x in s'.txs :: x in s.txs && s'.txs[x] == s.txs[x]
    ensures Inv(s')
  {
    forall x | x in s'.txs ensures Homely(s'.db.users, s'.txs[x].edits) {
      HomelyLater(s.db.users, s'.db.users, s.txs[x].edits);
    }
  }

  lemma EmitKeepsHome(s: State, m: Mutation)
    requires Inv(s) && Apply(s.db, m).Done?
    ensures Inv(Open(s, EditsOf(s.db, m), Apply(s.db, m).event))
  {
    EditsAreHomely(s.db, m);
  }

  lemma CommitKeepsHome(s: State, x: nat)
    requires Inv(s) && x in s.txs && AdmitsAll(s.db, s.txs[x].edits)
    ensures Inv(Close(s, x))
  {
    LandingKeepsHome(s.db, s.db.users, s.txs[x].edits);
    SameTablesKeepHome(s, Close(s, x));
  }

  /** Consumers, checks, the clock and aborts leave the tables alone; the purge deletes rows only. */
  lemma OtherLabelsKeepHome(d: Discipline, s: State, l: Label)
    requires Inv(s) && Enabled(d, s, l) && !l.Emit? && !l.Commit? && !l.Found?
    ensures Inv(Step(d, s, l))
  {
    var s' := Step(d, s, l);
    assert s'.db == if l.Purge? then PurgeRows(s.db, s.now) else s.db;
    SameTablesKeepHome(s, s');
  }

  /** Every step of the system, whatever the deployment guarantees, keeps everybody at home. */
  lemma StepKeepsHome(d: Discipline, s: State, l: Label)
    requires Inv(s) && Enabled(d, s, l)
    ensures Inv(Step(d, s, l))
  {
    match l
    case Emit(m) => EmitKeepsHome(s, m);
    case Commit(x) => CommitKeepsHome(s, x);
    case Found(t, u, role) =>
      FoundingKeepsHome(s.db, t, u, role);
      SameTablesKeepHome(s, Step(d, s, l));
    case _ => OtherLabelsKeepHome(d, s, l);
  }

  /** So in every state of every run only a tenant's users hold its roles. */
  lemma {:induction false} RunKeepsHome(d: Discipline, s: State, labels: seq<Label>)
    requires Inv(s) && CanRun(d, s, labels)
    ensures Inv(Run(d, s, labels))
    decreases |labels|
  {
    if labels != [] {
      StepKeepsHome(d, s, labels[0]);
      RunKeepsHome(d, Step(d, s, labels[0]), labels[1..]);
    }
  }

  /** Somebody with a permission through a role of the tenant is a user of the tenant. */
  lemma RolesGiveAtHomeOnly(d: Discipline, db: Db, start: Time, labels: seq<Label>, tenant: Id, user: Id, now: Time, permissionId: Id)
    requires AtHome(db) && CanRun(d, Initial(db, start), labels)
    requires RoleGives(Run(d, Initial(db, start), labels).db, tenant, user, now, permissionId)
    ensures var users := Run(d, Initial(db, start), labels).db.users; user in users && users[user] == tenant
  {
    RunKeepsHome(d, Initial(db, start), labels);
  }
}
