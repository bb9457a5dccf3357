// One request's transaction: the query runner, `runInTransaction`, and the
// interceptor around every handler; then whole administrative requests.

module Transactions {
  import opened Tables
  import opened Mutations
  import opened RowEdits
  import opened RbacServices
  import Effects

  /** The driver calls that may throw. */
  datatype DriverCall = Connect | Start | Configure | CommitCall | RollbackCall | ResetRole

  datatype SessionRole = Default | TenantUser | SuperAdmin

  class Store {
    var committed: Db

    constructor (db: Db) ensures committed == db { committed := db; }
  }

  class QueryRunner {
    const store: Store
    const faults: set<DriverCall>
    var working: Db // the tables as this transaction sees them
    var active: bool
    var released: bool
    var role: SessionRole
    var tenant: Option<Id> // transaction-local setting

    constructor (store: Store, faults: set<DriverCall>)
      ensures this.store == store && this.faults == faults && working == store.committed
      ensures !active && !released && role == Default && tenant == None
    {
      this.store, this.faults, working := store, faults, store.committed;
      active, released, role, tenant := false, false, Default, None;
    }

    method StartTransaction() returns (ok: bool)
      modifies this`active, this`working
      ensures ok <==> Connect !in faults && Start !in faults
      ensures if ok then active && working == store.committed else active == old(active) && working == old(working)
    {
      if Connect in faults || Start in faults { return false; }
      working, active := store.committed, true;
      ok := true;
    }

    method Commit() returns (ok: bool)
      requires active
      modifies this`active, this`tenant, store
      ensures ok <==> CommitCall !in faults
      ensures if ok then !active && tenant == None && store.committed == working
              else active && tenant == old(tenant) && store.committed == old(store.committed)
    {
      if CommitCall in faults { return false; }
      store.committed := working;
      active, tenant := false, None;
      ok := true;
    }

    /** Also undoes a role set inside the transaction. */
    method Rollback() returns (ok: bool)
      requires active
      modifies this`active, this`tenant, this`role
      ensures ok <==> RollbackCall !in faults
      ensures if ok then !active && tenant == None && role == Default
              else active && tenant == old(tenant) && role == old(role)
    {
      if RollbackCall in faults { return false; }
      active, tenant, role := false, None, Default;
      ok := true;
    }

    method Release()
      modifies this`released
      ensures released
    {
      released := true;
    }
  }

  /** Work done through an entity manager: the rows it leaves and why it failed, if it did. */
  type Operation = Db -> (Db, Option<Refusal>)

  datatype Reply = Completed | Failed(why: Refusal)

  function ReplyOf(refusal: Option<Refusal>): Reply
  {
    if refusal.Some? then Failed(refusal.value) else Completed
  }

  /**
   * Joins a transaction that is already active and leaves its end to the owner;
   * otherwise owns one: all of the operation or nothing of it.
   */
  method RunInTransaction(store: Store, operation: Operation, existing: Option<QueryRunner>, faults: set<DriverCall>)
    returns (reply: Reply, own: Option<QueryRunner>)
    requires existing.Some? ==> existing.value.store == store
    modifies store, if existing.Some? then {existing.value} else {}
    ensures own.None? <==> existing.Some? && old(existing.value.active)
    ensures own.None? ==>
              var runner := existing.value;
              && store.committed == old(store.committed)
              && runner.active && runner.released == old(runner.released) && runner.role == old(runner.role)
              && runner.working == operation(old(runner.working)).0
              && (reply == match operation(old(runner.working)).1 case Some(why) => Failed(why) case None => Completed)
    ensures own.Some? ==>
              var done := operation(old(store.committed));
              && fresh(own.value) && own.value.store == store
              && (reply == if Connect in faults || Start in faults then Failed(Fault)
                           else if done.1.Some? then Failed(if RollbackCall in faults then Fault else done.1.value)
                           else if CommitCall in faults then Failed(Fault)
                           else Completed)
              && store.committed == (if reply.Completed? then done.0 else old(store.committed))
              && (own.value.released <==> faults !! {Connect, Start})
              && (own.value.active ==> CommitCall in faults || done.1.Some?)
              && (own.value.active ==> RollbackCall in faults)
  {
    if existing.Some? && existing.value.active {
      var (after, refusal) := operation(existing.value.working);
      existing.value.working := after;
      return ReplyOf(refusal), None;
    }
    var runner := new QueryRunner(store, faults);
    own := Some(runner);
    var started := runner.StartTransaction();
    if !started { return Failed(Fault), own; }
    var (after, refusal) := operation(runner.working);
    runner.working := after;
    reply := ReplyOf(refusal);
    if refusal.None? {
      var committed := runner.Commit();
      if !committed { reply := Failed(Fault); }
    }
    if reply.Failed? {
      var undone := runner.Rollback();
      if !undone { reply := Failed(Fault); } // the rollback's own error is what the caller sees
    }
    runner.Release();
  }

  // ---- the interceptor ----

  /** Who the request is from. */
  datatype Request = Request(tenant: Option<Id>, superAdmin: bool)

  /** The role a request's statements run under. */
  function RoleFor(request: Request): SessionRole
  {
    if request.superAdmin then SuperAdmin
    else if request.tenant.Some? then TenantUser
    else Default
  }

  /** Nothing before the handler fails. */
  predicate Prepared(request: Request, faults: set<DriverCall>)
  {
    faults !! {Connect, Start} && (RoleFor(request) != Default ==> Configure !in faults)
  }

  class TenantTransactionInterceptor {
    const store: Store

    constructor (store: Store) ensures this.store == store { this.store := store; }

    /** Everything before the handler; a failure here ends the request at once. */
    method Open(request: Request, faults: set<DriverCall>) returns (runner: QueryRunner, ready: bool)
      ensures fresh(runner) && runner.store == store && runner.faults == faults && !runner.released
      ensures ready <==> Connect !in faults && Start !in faults && (request.superAdmin || request.tenant.Some? ==> Configure !in faults)
      ensures ready <==> Prepared(request, faults)
      ensures ready ==> runner.active && runner.working == store.committed
      ensures ready && request.superAdmin ==> runner.role == SuperAdmin && runner.tenant == None
      ensures ready && !request.superAdmin && request.tenant.Some? ==> runner.role == TenantUser && runner.tenant == request.tenant
      ensures ready && !request.superAdmin && request.tenant == None ==> runner.role == Default && runner.tenant == None
    {
      runner := new QueryRunner(store, faults);
      var started := runner.StartTransaction();
      if !started { return runner, false; }
      if request.tenant.Some? && !request.superAdmin {
        if Configure in faults { return runner, false; }
        runner.role := TenantUser;
        runner.tenant := request.tenant;
      } else if request.superAdmin {
        if Configure in faults { return runner, false; }
        runner.role := SuperAdmin;
      }
      ready := true;
    }

    /** Everything after the handler: commit or roll back, reset the role, release. */
    method Close(runner: QueryRunner, succeeded: bool) returns (ok: bool)
      requires runner.store == store
      modifies runner, store
      ensures ok <==> succeeded && (old(runner.active) ==> CommitCall !in runner.faults)
      ensures store.committed == if ok && old(runner.active) then old(runner.working) else old(store.committed)
      ensures runner.released
      ensures runner.active ==> old(runner.active) && !ok && RollbackCall in runner.faults
      ensures !old(runner.released) && ResetRole !in runner.faults ==> runner.role == Default
      ensures old(runner.active) && !runner.active ==> runner.tenant == None
    {
      ok := succeeded;
      if ok && runner.active {
        ok := runner.Commit();
      }
      if !ok && runner.active {
        var _ := runner.Rollback();
      }
      if !runner.released {
        if ResetRole !in runner.faults {
          runner.role := Default;
        }
        runner.Release();
      }
    }
  }

  // ---- one administrative request from end to end ----

  /** The service call behind each operation. */
  method Dispatch(db: Database, m: Mutation) returns (refusal: Option<Refusal>)
    modifies db
    ensures db.Performed(Apply(old(db.Snapshot()), m), refusal)
  {
    match m
    case AssignRole(tenant, user, grant) =>
      var service := new AssignmentService(db);
      refusal := service.AssignToUser(user, tenant, grant);
    case UpdateUserRoles(tenant, user, add, remove) =>
      var service := new AssignmentService(db);
      refusal := service.UpdateUserRoles(user, tenant, add, remove);
    case UpdateRolePermissions(tenant, roleId, add, remove) =>
      var service := new PermissionService(db);
      refusal := service.UpdateRolePermissions(roleId, tenant, add, remove);
    case AddOverride(id, tenant, user, permissionId, kind) =>
      var service := new OverrideService(db);
      refusal := service.AddOverride(id, user, tenant, permissionId, kind);
    case RemoveOverride(id, tenant, user) =>
      var service := new OverrideService(db);
      service.RemoveOverride(id, user, tenant);
      refusal := None;
    case CreateAcl(id, q) =>
      var service := new AclRows(db);
      refusal := service.CreateAcl(id, q);
    case DeleteAcl(id, tenant) =>
      var service := new AclRows(db);
      refusal := service.DeleteAcl(id, tenant);
    case CreateRole(id, tenant, name) =>
      var service := new RoleService(db);
      refusal := service.CreateCustomRole(id, tenant, name);
    case DeleteRole(roleId, tenant) =>
      var service := new RoleService(db);
      refusal := service.DeleteCustomRole(roleId, tenant);
    case CreateUser(id, tenant, role) =>
      var service := new UserRows(db);
      refusal := service.CreateUser(id, tenant, role);
  }

  /** The committed tables after a request, as a function. */
  function Served(db: Db, m: Mutation, faults: set<DriverCall>, request: Request): Db
  {
    match Apply(db, m)
    case Done(db', _) =>
      if Prepared(request, faults) && CommitCall !in faults then db' else db
    case Refused(_) => db
  }

  /** The events a request hands to the producer, whether or not its commit then succeeds. */
  function Announced(db: Db, m: Mutation, faults: set<DriverCall>, request: Request): seq<Invalidation>
  {
    var outcome := Apply(db, m);
    if Prepared(request, faults) && outcome.Done? && outcome.event.Some? then [outcome.event.value] else []
  }

  /**
   * Interceptor, service and interceptor again: the committed tables move to the
   * operation's result or not at all. The event is out before the commit, so a
   * failed commit leaves an event without a change.
   */
  method Serve(interceptor: TenantTransactionInterceptor, request: Request, m: Mutation, faults: set<DriverCall>)
    returns (ok: bool, emitted: seq<Invalidation>, runner: QueryRunner)
    modifies interceptor.store
    ensures interceptor.store.committed == Served(old(interceptor.store.committed), m, faults, request)
    ensures ok <==>
              && Connect !in faults && Start !in faults && (request.superAdmin || request.tenant.Some? ==> Configure !in faults)
              && CommitCall !in faults && Apply(old(interceptor.store.committed), m).Done?
    ensures interceptor.store.committed ==
            if ok then Apply(old(interceptor.store.committed), m).db else old(interceptor.store.committed)
    ensures emitted == Announced(old(interceptor.store.committed), m, faults, request)
    ensures var o := Apply(old(interceptor.store.committed), m);
            var begun := Connect !in faults && Start !in faults && (request.superAdmin || request.tenant.Some? ==> Configure !in faults);
            emitted == if begun && o.Done? && o.event.Some? then [o.event.value] else []
    ensures m.UpdateUserRoles? && !AllVisible(old(interceptor.store.committed), m.tenant, m.add) ==>
              !ok && emitted == [] && interceptor.store.committed == old(interceptor.store.committed)
    ensures runner.released <==> Prepared(request, faults)
    ensures runner.released && ResetRole !in faults ==> runner.role == Default
    ensures runner.released && RollbackCall !in faults ==> !runner.active && runner.tenant == None
  {
    emitted := [];
    var ready: bool;
    runner, ready := interceptor.Open(request, faults);
    if !ready { return false, emitted, runner; }
    var db := new Database(runner.working);
    var refusal := Dispatch(db, m);
    runner.working := db.Snapshot();
    emitted := db.emitted;
    if m.UpdateUserRoles? && !AllVisible(interceptor.store.committed, m.tenant, m.add) {
      InvisibleRoleChangesNothing(interceptor.store.committed, m.tenant, m.user, m.add, m.remove, faults, request);
    }
    ok := interceptor.Close(runner, refusal.None?);
  }

  /**
   * A batch role update naming a role the tenant cannot use: the service stops with
   * the roles before it already put, and the request leaves the tables as they were.
   */
  lemma InvisibleRoleChangesNothing(
      db: Db, tenant: Id, user: Id, add: seq<RoleGrant>, remove: seq<Id>, faults: set<DriverCall>, request: Request)
    requires exists g | g in add :: !VisibleRole(db, g.roleId, tenant)
    ensures Served(db, UpdateUserRoles(tenant, user, add, remove), faults, request) == db
    ensures FirstInvisible(db, tenant, add) < |add|
  {
  }

  /** The rollback is needed: what the service leaves behind can differ from what it found. */
  lemma HalfDoneCanDiffer(db: Db, tenant: Id, user: Id, first: RoleGrant, bad: RoleGrant)
    requires UserInTenant(db, user, tenant) && VisibleRole(db, first.roleId, tenant) && !VisibleRole(db, bad.roleId, tenant)
    requires forall ur | ur in db.userRoles :: !IsFor(ur, tenant, user, first.roleId)
    ensures UpdateRoles(db, tenant, user, [first, bad], []).Refused?
    ensures UserRole(tenant, user, first.roleId, first.expires) in HalfDone(db, tenant, user, [first, bad]).userRoles
    ensures HalfDone(db, tenant, user, [first, bad]) != db
  {
    var add := [first, bad];
    assert add[1] in add;
    assert FirstInvisible(db, tenant, add) == 1;
    assert add[..1] == [first] && [first][..0] == [];
    var row := UserRole(tenant, user, first.roleId, first.expires);
    assert row !in db.userRoles;
    var rows := Upsert(db.userRoles, tenant, user, first);
    assert rows[|db.userRoles|] == row;
    assert UpsertAll(db.userRoles, tenant, user, add[..1]) == rows;
  }

  // ---- any series of requests ----

  datatype Call = Call(request: Request, m: Mutation, faults: set<DriverCall>)

  function ServedAll(db: Db, calls: seq<Call>): Db
    decreases |calls|
  {
    if calls == [] then db else ServedAll(Served(db, calls[0].m, calls[0].faults, calls[0].request), calls[1..])
  }

  function AnnouncedAll(db: Db, calls: seq<Call>): seq<Invalidation>
    decreases |calls|
  {
    if calls == [] then []
    else
      var c := calls[0];
      Announced(db, c.m, c.faults, c.request) + AnnouncedAll(Served(db, c.m, c.faults, c.request), calls[1..])
  }

  /**
   * Over any series of requests with any failures: the tables stay intact, and a
   * decision that differs at the end was announced by an event.
   */
  lemma {:induction false} RequestsKeepTablesAndTell(db: Db, calls: seq<Call>, q: Query, now: Time)
    requires Effects.Intact(db)
    ensures Effects.Intact(ServedAll(db, calls))
    ensures Decide(ServedAll(db, calls), q, now) != Decide(db, q, now) ==>
              exists inv | inv in AnnouncedAll(db, calls) :: CoversDecision(inv, q)
    decreases |calls|
  {
    if calls != [] {
      var c := calls[0];
      var db' := Served(db, c.m, c.faults, c.request);
      OneRequest(db, c, q, now);
      RequestsKeepTablesAndTell(db', calls[1..], q, now);
      assert AnnouncedAll(db, calls) == Announced(db, c.m, c.faults, c.request) + AnnouncedAll(db', calls[1..]);
    }
  }

  lemma OneRequest(db: Db, c: Call, q: Query, now: Time)
    requires Effects.Intact(db)
    ensures Effects.Intact(Served(db, c.m, c.faults, c.request))
    ensures Decide(Served(db, c.m, c.faults, c.request), q, now) != Decide(db, q, now) ==>
              exists inv | inv in Announced(db, c.m, c.faults, c.request) :: CoversDecision(inv, q)
  {
    if Served(db, c.m, c.faults, c.request) != db {
      Effects.EveryMutationKeepsIntact(db, c.m);
      var announced := Announced(db, c.m, c.faults, c.request);
      if Decide(Apply(db, c.m).db, q, now) != Decide(db, q, now) {
        OnlyCoveredDecisionsChange(db, c.m, q, now);
        assert announced[0] in announced;
      }
    }
  }
}
