// What coherence means to a reader of the caches, and exactly which deployments
// have it.

module Agreement {
  import opened PermissionMatcher
  import opened Tables
  import opened Mutations
  import opened RowEdits
  import opened Protocol
  import opened Faithfulness
  import opened Coherence
  import opened WholeChecks
  import Staleness

  /** No event is in flight. */
  ghost predicate Settled(s: State)
  {
    s.flights == map[]
  }

  /** The event could concern some decision about this user. */
  predicate Touches(inv: Invalidation, t: Id, u: Id)
  {
    CoversUser(inv, t, u) || (inv.AclInvalidation? && inv.q.tenant == t && inv.q.user == u)
  }

  /** No event in flight concerns this user. */
  ghost predicate Clear(s: State, t: Id, u: Id)
  {
    forall f | f in s.flights :: !Touches(s.flights[f].inv, t, u)
  }

  /** Every entry a reader can see is right, up to role expiry since it was computed. */
  ghost predicate CachesAgree(s: State)
  {
    && (forall t, u | PermsHit(s, t, u) :: SetOk(s, t, u, s.perms[(t, u)].codes, s.perms[(t, u)].basis.roles.time))
    && (forall q | AclHit(s, q) :: s.acl[q].allowed == AclAllows(s.db, q))
    && (forall q | AuthzHit(s, q) :: DecisionOk(s, q, s.authz[q].allowed, s.authz[q].rbac.roles.time))
  }

  // ---- what a reader finds when nothing concerns the user ----

  lemma ClearPerms(s: State, t: Id, u: Id)
    requires Inv(s) && Clear(s, t, u) && (t, u) in s.perms
    ensures SetOk(s, t, u, s.perms[(t, u)].codes, s.perms[(t, u)].basis.roles.time)
  {
    assert PermsOk(s, (t, u), s.perms[(t, u)]);
  }

  lemma ClearAcl(s: State, q: Query)
    requires Inv(s) && Clear(s, q.tenant, q.user) && q in s.acl
    ensures s.acl[q].allowed == AclAllows(s.db, q)
  {
    assert AclOk(s, q, s.acl[q]);
  }

  lemma ClearAuthz(s: State, q: Query)
    requires Inv(s) && Clear(s, q.tenant, q.user) && q in s.authz
    ensures DecisionOk(s, q, s.authz[q].allowed, s.authz[q].rbac.roles.time)
  {
    assert AuthzOk(s, q, s.authz[q]);
  }

  lemma ClearStoring(s: State, c: nat)
    requires Inv(s) && c in s.checks && s.checks[c].at.AtStoreAuthz? && Clear(s, s.checks[c].q.tenant, s.checks[c].q.user)
    ensures DecisionOk(s, s.checks[c].q, s.checks[c].at.allowed, s.checks[c].at.rbac.roles.time)
  {
    var check := s.checks[c];
    assert CheckOk(s, check);
    if check.at.acl.None? {
      RbacDecides(s, check.q, check.at.allowed, check.at.rbac.roles.time);
    }
  }

  lemma SettledAgrees(d: Discipline, s: State)
    requires Disciplined(d) && Reachable(d, s) && Settled(s)
    ensures CachesAgree(s)
  {
    ReachableIsCoherent(d, s);
    forall t, u | PermsHit(s, t, u)
      ensures SetOk(s, t, u, s.perms[(t, u)].codes, s.perms[(t, u)].basis.roles.time)
    {
      ClearPerms(s, t, u);
    }
    forall q | AclHit(s, q) ensures s.acl[q].allowed == AclAllows(s.db, q) { ClearAcl(s, q); }
    forall q | AuthzHit(s, q) ensures DecisionOk(s, q, s.authz[q].allowed, s.authz[q].rbac.roles.time) { ClearAuthz(s, q); }
  }

  /**
   * While no event concerning the user is in flight every answer, cached or computed,
   * under any interleaving: a denial is right, an allow is right unless an assignment of
   * the user ran out since the roles were read, and that was within the staleness window.
   */
  lemma AnswersAreRight(d: Discipline, s: State, l: Label)
    requires Disciplined(d) && Reachable(d, s) && Enabled(d, s, l) && AnswerOf(s, l).Some?
    requires Clear(s, AnswerOf(s, l).value.0.tenant, AnswerOf(s, l).value.0.user)
    ensures var (q, allowed) := AnswerOf(s, l).value;
            var asOf := Staleness.BasisOf(s, l).0.roles.time;
            && DecisionOk(s, q, allowed, asOf)
            && s.now - Staleness.RbacWindow(d) <= asOf <= s.now
  {
    Staleness.AnswersAreRecent(d, s, l);
    ReachableIsCoherent(d, s);
    match l
    case Begin(q) => ClearAuthz(s, q);
    case Advance(c) => ClearStoring(s, c);
  }

  /** So a wrong answer is an allow that names the assignment whose expiry explains it. */
  lemma WrongAllowHasExpired(d: Discipline, s: State, l: Label) returns (ur: UserRole)
    requires Disciplined(d) && Reachable(d, s) && Enabled(d, s, l) && AnswerOf(s, l).Some?
    requires Clear(s, AnswerOf(s, l).value.0.tenant, AnswerOf(s, l).value.0.user)
    requires AnswerOf(s, l).value.1 != Decide(s.db, AnswerOf(s, l).value.0, s.now)
    ensures var (q, allowed) := AnswerOf(s, l).value;
            && allowed
            && Belongs(ur, q.tenant, q.user) && (ur in s.db.userRoles || ur in s.purged)
            && ExpiresWithin(ur.expires, s.now - Staleness.RbacWindow(d), s.now)
  {
    AnswersAreRight(d, s, l);
    var q := AnswerOf(s, l).value.0;
    var asOf := Staleness.BasisOf(s, l).0.roles.time;
    ur :| Belongs(ur, q.tenant, q.user) && (ur in s.db.userRoles || ur in s.purged) && ExpiresWithin(ur.expires, asOf, s.now);
  }

  /** An ACL check that stands alone is answered from the rows as they are. */
  lemma AclAnswersAreRight(d: Discipline, s: State, l: Label)
    requires Disciplined(d) && Reachable(d, s) && Enabled(d, s, l) && AclAnswerOf(s, l).Some?
    requires Clear(s, AclAnswerOf(s, l).value.0.tenant, AclAnswerOf(s, l).value.0.user)
    ensures AclAnswerOf(s, l).value.1 == AclAllows(s.db, AclAnswerOf(s, l).value.0)
  {
    ReachableIsCoherent(d, s);
    var check := s.checks[l.check];
    assert CheckOk(s, check);
    if check.at.AtAcl? {
      ClearAcl(s, check.q);
    }
  }

  // ---- each condition is needed ----

  /** One user, one permission, nothing granted; then a GRANT override for it. */
  const BEFORE: Db := Db({"t"}, map["u" := "t"], [Permission("p", "x")], map[], [], [], [], [])
  const GRANTED: Override := Override("o", "t", "u", "p", Grant)
  const AFTER: Db := BEFORE.(overrides := [GRANTED])
  const GRANT_X: Mutation := AddOverride("o", "t", "u", "p", Grant)
  const GRANT_TX: Tx := Tx([InsertOverride(GRANTED)], Some(USER_EVENT), 0)
  const ASK_X: Query := Query("t", "u", "x", "", "")
  const USER_EVENT: Invalidation := UserInvalidation("t", "u")

  lemma NothingGranted(now: Time)
    ensures Effective(BEFORE, "t", "u", now) == {} && !Grants({}, "x")
  {
  }

  lemma GrantChangesTheAnswer(now: Time)
    ensures WellFormed(BEFORE) && Apply(BEFORE, GRANT_X) == Done(AFTER, Some(USER_EVENT))
    ensures EditsOf(BEFORE, GRANT_X) == GRANT_TX.edits
    ensures AdmitsAll(BEFORE, GRANT_TX.edits) && CascadeFree(BEFORE, GRANT_TX.edits) && Landed(BEFORE, GRANT_TX.edits) == AFTER
    ensures Decide(AFTER, ASK_X, now)
  {
    var p := Permission("p", "x");
    assert p in BEFORE.permissions;
    assert FindOverride(BEFORE.overrides, "t", "u", "p") == 0;
    LandedOne(BEFORE, InsertOverride(GRANTED));
    assert GRANTED in AFTER.overrides;
    assert p in AFTER.permissions && Holds(AFTER, "t", "u", now, "p");
    assert "x" in Effective(AFTER, "t", "u", now) && Covers("x", "x");
  }

  lemma StartState(d: Discipline) returns (s: State)
    ensures s == Initial(BEFORE, 0) && Reachable(d, s)
  {
    GrantChangesTheAnswer(0);
    s := Initial(BEFORE, 0);
    assert CanRun(d, s, []) && Run(d, s, []) == s;
  }

  lemma Follow(d: Discipline, s: State, c: nat, n: nat, s': State)
    requires Reachable(d, s) && Leads(d, s, c, n, s')
    ensures Reachable(d, s')
  {
    ReachableLater(d, s, Advances(c, n));
  }

  lemma BeginAsk(d: Discipline, s: State) returns (s': State)
    requires Reachable(d, s) && s.checks == map[] && !AuthzHit(s, ASK_X)
    ensures Reachable(d, s') && s' == At(s.(nextId := s.nextId + 1), s.nextId, ASK_X, s.now, AtPerms)
  {
    s' := Take(d, s, Begin(ASK_X));
  }

  /** A check of the question has read the tables, found nothing, and has yet to store it. */
  lemma ReadNothing(d: Discipline, s: State) returns (s': State)
    requires Reachable(d, s) && s.db == BEFORE && s.checks == map[] && !AuthzHit(s, ASK_X) && !PermsHit(s, "t", "u")
    ensures Reachable(d, s')
    ensures s' == At(s.(nextId := s.nextId + 1), s.nextId, ASK_X, s.now, AtStorePerms({}, AtOnce(s)))
  {
    NothingGranted(s.now);
    var base := s.(nextId := s.nextId + 1);
    var s1 := BeginAsk(d, s);
    var n := MissLeads(d, base, s.nextId, ASK_X, s.now);
    s' := At(base, s.nextId, ASK_X, s.now, Loaded(base, ASK_X));
    Follow(d, s1, s.nextId, n, s');
  }

  /** It stores the empty set, and has yet to store the denial. */
  lemma StoreNothing(d: Discipline, s: State, c: nat) returns (s': State)
    requires Reachable(d, s) && c in s.checks && s.checks[c].q == ASK_X
    requires s.checks[c].at.AtStorePerms? && s.checks[c].at.codes == {}
    ensures Reachable(d, s') && s' == s.(perms := s'.perms, writes := s'.writes, checks := s'.checks)
    ensures s'.checks == s.checks[c := s.checks[c].(at := AtStoreAuthz(false, s.checks[c].at.basis, None))]
  {
    NothingGranted(s.now);
    s' := Take(d, s, Advance(c));
  }

  /** It stores the denial. */
  lemma StoreDenial(d: Discipline, s: State, c: nat) returns (s': State)
    requires Reachable(d, s) && c in s.checks && s.checks[c].q == ASK_X
    requires s.checks[c].at.AtStoreAuthz? && !s.checks[c].at.allowed
    ensures Reachable(d, s') && AuthzHit(s', ASK_X) && !s'.authz[ASK_X].allowed
    ensures s' == s.(authz := s'.authz, writes := s'.writes, checks := s.checks - {c})
  {
    s' := Take(d, s, Advance(c));
  }

  lemma EmitGrant(d: Discipline, s: State) returns (s': State)
    requires Reachable(d, s) && s.db == BEFORE
    ensures Reachable(d, s')
    ensures s' == s.(flights := s.flights[s.nextId := Flight(USER_EVENT, Queued, 0)],
                     txs := s.txs[s.nextId := GRANT_TX.(flight := s.nextId)], nextId := s.nextId + 1)
  {
    GrantChangesTheAnswer(s.now);
    s' := Take(d, s, Emit(GRANT_X));
  }

  lemma Closed(d: Discipline, s: State, x: nat) returns (s': State)
    requires Reachable(d, s) && x in s.txs && AdmitsAll(s.db, s.txs[x].edits) && CascadeFree(s.db, s.txs[x].edits)
    ensures Reachable(d, s') && s' == Close(s, x)
  {
    s' := Take(d, s, Commit(x));
  }

  lemma CommitGrant(d: Discipline, s: State, x: nat) returns (s': State)
    requires Reachable(d, s) && s.db == BEFORE && x in s.txs && s.txs[x] == GRANT_TX.(flight := x)
    ensures Reachable(d, s') && s'.db == AFTER && Decide(s'.db, ASK_X, s'.now)
    ensures s' == s.(db := AFTER, version := s.version + 1, txs := s.txs - {x}, seen := s'.seen,
                     flights := Marked(s.flights, s.txs[x], s.version + 1))
  {
    GrantChangesTheAnswer(s.now);
    s' := Closed(d, s, x);
  }

  /** Nothing holds this event back. */
  ghost predicate Deliverable(d: Discipline, s: State, f: nat)
    requires f in s.flights
  {
    && (d.afterCommit ==> forall x | x in s.txs :: s.txs[x].event.None?)
    && (d.quietSource ==> forall c | c in s.checks :: !HoldsSource(s.checks[c], s.flights[f]))
    && (d.quietDerived ==> forall c | c in s.checks :: !HoldsDerived(s.checks[c], s.flights[f]))
  }

  /** All but the caches and the events. */
  ghost predicate SameButCaches(s: State, s': State)
  {
    && s' == s.(flights := s'.flights, perms := s'.perms, acl := s'.acl, authz := s'.authz)
    && s'.perms.Keys <= s.perms.Keys && s'.authz.Keys <= s.authz.Keys
  }

  lemma SourceStarted(d: Discipline, s: State, f: nat, since: nat) returns (s': State)
    requires Reachable(d, s) && s.flights == map[f := Flight(USER_EVENT, Queued, since)] && Deliverable(d, s, f)
    ensures Reachable(d, s') && s' == s.(flights := map[f := Flight(USER_EVENT, SourceScan(s.writes), since)])
  {
    s' := Take(d, s, StartSource(f));
  }

  lemma DeliverSource(d: Discipline, s: State, f: nat, since: nat) returns (s': State)
    requires Reachable(d, s) && s.flights == map[f := Flight(USER_EVENT, Queued, since)] && Deliverable(d, s, f)
    ensures Reachable(d, s') && SameButCaches(s, s') && s'.flights == map[f := Flight(USER_EVENT, SourceDone, since)]
  {
    var s1 := SourceStarted(d, s, f, since);
    s' := Take(d, s1, FinishSource(f, {}, {}));
  }

  /** The consumer handles the only event in flight from start to end. */
  lemma Deliver(d: Discipline, s: State, f: nat, since: nat) returns (s': State)
    requires Reachable(d, s) && s.flights == map[f := Flight(USER_EVENT, Queued, since)] && Deliverable(d, s, f)
    ensures Reachable(d, s') && SameButCaches(s, s') && Settled(s')
  {
    var s2 := DeliverSource(d, s, f, since);
    assert forall c | c in s.checks :: HoldsDerived(s.checks[c], s.flights[f]) == HoldsDerived(s2.checks[c], s2.flights[f]);
    var s3 := Take(d, s2, StartDerived(f));
    s' := Take(d, s3, FinishDerived(f, {}));
    assert s'.flights.Keys == {};
  }

  /** A settled state whose cached decision is wrong with no expiry to blame. */
  ghost predicate Wrong(d: Discipline, s: State)
  {
    && Reachable(d, s) && Settled(s) && AuthzHit(s, ASK_X)
    && !DecisionOk(s, ASK_X, s.authz[ASK_X].allowed, s.authz[ASK_X].rbac.roles.time)
  }

  lemma DenialCached(d: Discipline) returns (s: State)
    ensures Reachable(d, s) && AuthzHit(s, ASK_X) && !s.authz[ASK_X].allowed
    ensures s.db == BEFORE && s.now == 0 && s.flights == map[] && s.txs == map[] && s.checks == map[] && s.nextId == 1
  {
    s := StartState(d);
    s := ReadNothing(d, s);
    s := StoreNothing(d, s, 0);
    s := StoreDenial(d, s, 0);
    assert s.checks.Keys == {};
  }

  /** A lost event leaves the old denial behind. */
  lemma LossBreaksCoherence(d: Discipline) returns (s: State)
    requires !d.lossless
    ensures Wrong(d, s)
  {
    s := DenialCached(d);
    s := EmitGrant(d, s);
    s := CommitGrant(d, s, 1);
    s := Take(d, s, Lose(1));
    assert s.flights.Keys == {};
  }

  /** An event handled before its transaction commits: a check in between re-caches the old tables. */
  lemma EarlyDeliveryBreaksCoherence(d: Discipline) returns (s: State)
    requires !d.afterCommit
    ensures Wrong(d, s)
  {
    s := StartState(d);
    s := EmitGrant(d, s);
    s := Deliver(d, s, 0, 0);
    s := ReadNothing(d, s);
    s := StoreNothing(d, s, 1);
    s := StoreDenial(d, s, 1);
    s := CommitGrant(d, s, 0);
  }

  /** A check that read before the commit and stores its set after the source deletion. */
  lemma LateSetBreaksCoherence(d: Discipline) returns (s: State)
    requires !d.quietSource
    ensures Wrong(d, s)
  {
    s := GrantedMeanwhile(d);
    s := Deliver(d, s, 1, 1);
    s := StoreNothing(d, s, 0);
    s := StoreDenial(d, s, 0);
  }

  /** The grant has landed while the check waits to store the empty set. */
  lemma GrantedMeanwhile(d: Discipline) returns (s: State)
    ensures Reachable(d, s) && s.txs == map[] && s.flights == map[1 := Flight(USER_EVENT, Queued, 1)]
    ensures Decide(s.db, ASK_X, s.now) && s.checks.Keys == {0} && s.checks[0].q == ASK_X
    ensures s.checks[0].at.AtStorePerms? && s.checks[0].at.codes == {}
  {
    s := StartState(d);
    s := ReadNothing(d, s);
    s := EmitGrant(d, s);
    s := CommitGrant(d, s, 1);
    assert s.txs.Keys == {};
  }

  /** A check that stored its set before the commit and stores the decision after the derived deletion. */
  lemma LateDecisionBreaksCoherence(d: Discipline) returns (s: State)
    requires !d.quietDerived
    ensures Wrong(d, s)
  {
    s := SetStored(d);
    s := GrantDelivered(d, s);
    s := StoreDenial(d, s, 0);
  }

  lemma SetStored(d: Discipline) returns (s: State)
    ensures Reachable(d, s) && s.db == BEFORE && s.now == 0 && s.flights == map[] && s.txs == map[] && s.nextId == 1
    ensures s.version == 0 && s.authz == map[] && s.checks.Keys == {0} && s.checks[0].q == ASK_X
    ensures s.checks[0].at.AtStoreAuthz? && !s.checks[0].at.allowed && s.checks[0].at.acl == None
  {
    s := StartState(d);
    s := ReadNothing(d, s);
    s := StoreNothing(d, s, 0);
  }

  /** The grant is made and its event handled, while the check waits to store a decision. */
  lemma GrantDelivered(d: Discipline, s: State) returns (s': State)
    requires Reachable(d, s) && s.db == BEFORE && s.flights == map[] && s.txs == map[] && s.nextId == 1 && s.version == 0
    requires !d.quietDerived && forall c | c in s.checks :: s.checks[c].at.AtStoreAuthz?
    ensures Reachable(d, s') && Settled(s') && s'.checks == s.checks && s'.now == s.now && Decide(s'.db, ASK_X, s'.now)
  {
    var s1 := EmitGrant(d, s);
    var s2 := CommitGrant(d, s1, 1);
    s' := Deliver(d, s2, 1, 1);
  }

  // a role is deleted while it is being assigned

  const ROLE_ROW: UserRole := UserRole("t", "u", "r", None)
  const IDLE: Db := BEFORE.(roles := map["r" := Role(Some("t"), false, "role")], rolePermissions := [RolePermission("r", "p")])
  const ASSIGNED: Db := IDLE.(userRoles := [ROLE_ROW])
  const DROP_R: Mutation := DeleteRole("r", "t")
  const ASSIGN_R: Mutation := AssignRole("t", "u", RoleGrant("r", None))

  lemma RoleOperations()
    ensures WellFormed(IDLE)
    ensures Apply(IDLE, DROP_R).Done? && Apply(IDLE, DROP_R).event == None && EditsOf(IDLE, DROP_R) == [DeleteRoleRow("r")]
    ensures Apply(IDLE, ASSIGN_R) == Done(ASSIGNED, Some(USER_EVENT)) && EditsOf(IDLE, ASSIGN_R) == [InsertAssignment(ROLE_ROW)]
    ensures AdmitsAll(IDLE, [InsertAssignment(ROLE_ROW)]) && Landed(IDLE, [InsertAssignment(ROLE_ROW)]) == ASSIGNED
    ensures AdmitsAll(ASSIGNED, [DeleteRoleRow("r")])
    ensures Landed(ASSIGNED, [DeleteRoleRow("r")]).userRoles == [] && Landed(ASSIGNED, [DeleteRoleRow("r")]).overrides == []
  {
    assert FindAssignment(IDLE.userRoles, "t", "u", "r") == 0;
    LandedOne(IDLE, InsertAssignment(ROLE_ROW));
    LandedOne(ASSIGNED, DeleteRoleRow("r"));
  }

  lemma RoleGivesX(now: Time)
    ensures "x" in Effective(ASSIGNED, "t", "u", now) && Grants(Effective(ASSIGNED, "t", "u", now), "x")
    ensures !Decide(Landed(ASSIGNED, [DeleteRoleRow("r")]), ASK_X, now)
  {
    RoleOperations();
    var p := Permission("p", "x");
    assert p in ASSIGNED.permissions && ROLE_ROW in ASSIGNED.userRoles && RolePermission("r", "p") in ASSIGNED.rolePermissions;
    assert RoleGives(ASSIGNED, "t", "u", now, "p") && Holds(ASSIGNED, "t", "u", now, "p");
    assert Covers("x", "x");
    assert forall h :: h !in Effective(Landed(ASSIGNED, [DeleteRoleRow("r")]), "t", "u", now);
  }

  /** The deletion's handler has counted no assignment. */
  lemma DropCounted(d: Discipline) returns (s: State)
    ensures Reachable(d, s) && s == Initial(IDLE, 0).(txs := map[0 := Tx([DeleteRoleRow("r")], None, 0)], nextId := 1)
  {
    RoleOperations();
    s := Initial(IDLE, 0);
    assert CanRun(d, s, []) && Run(d, s, []) == s;
    s := Take(d, s, Emit(DROP_R));
  }

  lemma AssignEmitted(d: Discipline, s: State) returns (s': State)
    requires Reachable(d, s) && s.db == IDLE && s.flights == map[]
    ensures Reachable(d, s')
    ensures s' == s.(flights := map[s.nextId := Flight(USER_EVENT, Queued, 0)],
                     txs := s.txs[s.nextId := Tx([InsertAssignment(ROLE_ROW)], Some(USER_EVENT), s.nextId)], nextId := s.nextId + 1)
  {
    RoleOperations();
    s' := Take(d, s, Emit(ASSIGN_R));
  }

  lemma AssignCommitted(d: Discipline, s: State, x: nat) returns (s': State)
    requires Reachable(d, s) && s.db == IDLE && x in s.txs
    requires s.txs[x] == Tx([InsertAssignment(ROLE_ROW)], Some(USER_EVENT), x) && s.flights == map[x := Flight(USER_EVENT, Queued, 0)]
    ensures Reachable(d, s')
    ensures s' == s.(db := ASSIGNED, version := s.version + 1, txs := s.txs - {x}, seen := s'.seen,
                     flights := map[x := Flight(USER_EVENT, Queued, s.version + 1)])
  {
    RoleOperations();
    s' := Closed(d, s, x);
  }

  /** Both handlers have run; the assignment has landed and its event is done with; the deletion is still open. */
  lemma AssignedMeanwhile(d: Discipline) returns (s: State)
    ensures Reachable(d, s) && s.db == ASSIGNED && s.txs == map[0 := Tx([DeleteRoleRow("r")], None, 0)]
    ensures Settled(s) && s.checks == map[] && s.perms == map[] && s.authz == map[] && s.purged == []
  {
    s := DropCounted(d);
    s := AssignEmitted(d, s);
    s := AssignCommitted(d, s, 1);
    assert s.txs == map[0 := Tx([DeleteRoleRow("r")], None, 0)];
    s := Deliver(d, s, 1, 1);
  }

  /** A check caches the allow. */
  lemma AllowCached(d: Discipline) returns (s: State)
    ensures Reachable(d, s) && s.db == ASSIGNED && s.txs == map[0 := Tx([DeleteRoleRow("r")], None, 0)]
    ensures Settled(s) && s.purged == [] && AuthzHit(s, ASK_X) && s.authz[ASK_X].allowed
  {
    var s0 := AssignedMeanwhile(d);
    RoleGivesX(s0.now);
    var n := AfterCheckIsRun(d, s0, ASK_X);
    ReachableLater(d, s0, [Begin(ASK_X)] + Advances(s0.nextId, n));
    s := AfterCheck(d, s0, ASK_X);
  }

  /** The role's deletion takes the assignment with it, without an event. */
  lemma CascadeBreaksCoherence(d: Discipline) returns (s: State)
    requires !d.cascadeFree
    ensures Wrong(d, s)
  {
    s := AllowCached(d);
    RoleOperations();
    RoleGivesX(s.now);
    s := Take(d, s, Commit(0));
  }

  /**
   * The caches agree with the tables in every settled state of every run exactly when
   * events are not lost and are handled only after their transaction, no role deletion
   * takes an assignment with it, and neither deletion of an event starts while a check
   * it covers still holds what it read before the change. The service enforces none of
   * the five: it emits before the commit, sends events best-effort, counts a role's
   * assignments without a lock, and lets checks run on.
   */
  lemma CoherentExactlyWhenDisciplined(d: Discipline)
    ensures (forall s | Reachable(d, s) && Settled(s) :: CachesAgree(s)) <==> Disciplined(d)
  {
    if Disciplined(d) {
      forall s | Reachable(d, s) && Settled(s) ensures CachesAgree(s) { SettledAgrees(d, s); }
    } else {
      var s := SomeBreaks(d);
    }
  }

  lemma SomeBreaks(d: Discipline) returns (s: State)
    requires !Disciplined(d)
    ensures Wrong(d, s)
  {
    if !d.lossless {
      s := LossBreaksCoherence(d);
    } else if !d.afterCommit {
      s := EarlyDeliveryBreaksCoherence(d);
    } else if !d.quietSource {
      s := LateSetBreaksCoherence(d);
    } else if !d.quietDerived {
      s := LateDecisionBreaksCoherence(d);
    } else {
      s := CascadeBreaksCoherence(d);
    }
  }
}
