// Cache coherence over every run of a disciplined deployment: each cached value
// is what the current tables give, up to role expiry since it was computed, or an
// event that will delete it is still pending at the matching stage.

module Coherence {
  import opened PermissionMatcher
  import opened Tables
  import opened Mutations
  import opened RowEdits
  import opened Protocol
  import opened Faithfulness

  ghost predicate Disciplined(d: Discipline)
  {
    d.lossless && d.afterCommit && d.cascadeFree && d.quietSource && d.quietDerived
  }

  // ---- events that will still delete a key ----

  /** The source deletion of this event is still to come for a key written at `stamp`. */
  ghost predicate SourcePending(fl: Flight, stamp: nat)
  {
    fl.stage.Queued? || (fl.stage.SourceScan? && stamp <= fl.stage.mark)
  }

  ghost predicate DerivedPending(fl: Flight, stamp: nat)
  {
    Early(fl) || (fl.stage.DerivedScan? && stamp <= fl.stage.mark)
  }

  /** The derived scan has not begun. */
  ghost predicate Early(fl: Flight)
  {
    fl.stage.Queued? || fl.stage.SourceScan? || fl.stage.SourceDone?
  }

  // A value read at `version` is excused by a change that came after it.

  ghost predicate PermsCovered(flights: map<nat, Flight>, t: Id, u: Id, stamp: nat, version: nat)
  {
    exists f | f in flights :: CoversUser(flights[f].inv, t, u) && SourcePending(flights[f], stamp) && version < flights[f].since
  }

  ghost predicate AclCovered(flights: map<nat, Flight>, q: Query, stamp: nat, version: nat)
  {
    exists f | f in flights :: CoversAcl(flights[f].inv, q) && SourcePending(flights[f], stamp) && version < flights[f].since
  }

  ghost predicate AuthzCovered(flights: map<nat, Flight>, q: Query, stamp: nat)
  {
    exists f | f in flights :: CoversDecision(flights[f].inv, q) && DerivedPending(flights[f], stamp)
  }

  ghost predicate UserQueued(flights: map<nat, Flight>, t: Id, u: Id, version: nat)
  {
    exists f | f in flights :: CoversUser(flights[f].inv, t, u) && flights[f].stage.Queued? && version < flights[f].since
  }

  ghost predicate AclQueued(flights: map<nat, Flight>, q: Query, version: nat)
  {
    exists f | f in flights :: CoversAcl(flights[f].inv, q) && flights[f].stage.Queued? && version < flights[f].since
  }

  ghost predicate UserEarly(flights: map<nat, Flight>, t: Id, u: Id, version: nat)
  {
    exists f | f in flights :: CoversUser(flights[f].inv, t, u) && Early(flights[f]) && version < flights[f].since
  }

  ghost predicate AclEarly(flights: map<nat, Flight>, q: Query, version: nat)
  {
    exists f | f in flights :: CoversAcl(flights[f].inv, q) && Early(flights[f]) && version < flights[f].since
  }

  // ---- the invariant ----

  ghost predicate PermsOk(s: State, k: (Id, Id), e: PermsEntry)
  {
    && e.stamp <= s.writes && e.basis.roles.version <= s.version
    && (SetOk(s, k.0, k.1, e.codes, e.basis.roles.time) || PermsCovered(s.flights, k.0, k.1, e.stamp, e.basis.roles.version))
  }

  ghost predicate AclOk(s: State, q: Query, e: AclEntry)
  {
    && e.stamp <= s.writes && e.basis.version <= s.version
    && (e.allowed == AclAllows(s.db, q) || AclCovered(s.flights, q, e.stamp, e.basis.version))
  }

  ghost predicate AuthzOk(s: State, q: Query, e: AuthzEntry)
  {
    e.stamp <= s.writes && (DecisionOk(s, q, e.allowed, e.rbac.roles.time) || AuthzCovered(s.flights, q, e.stamp))
  }

  /** RBAC has denied on these codes and the ACL will be asked. */
  ghost predicate DenialOk(s: State, q: Query, denial: Denial)
  {
    var version := denial.rbac.roles.version;
    && q.HasResource() && !Grants(denial.codes, q.permission) && version <= s.version
    && (SetOk(s, q.tenant, q.user, denial.codes, denial.rbac.roles.time) || UserEarly(s.flights, q.tenant, q.user, version))
  }

  ghost predicate CallerOk(s: State, q: Query, caller: Option<Denial>)
  {
    caller.Some? ==> DenialOk(s, q, caller.value)
  }

  ghost predicate ProgressOk(s: State, q: Query, at: Progress)
  {
    match at
    case AtPerms => true
    case AtRoles => true
    case AtMappings(held, roles) =>
      roles.version <= s.version
      && (RolesOk(s, q.tenant, q.user, held, roles.time) || UserQueued(s.flights, q.tenant, q.user, roles.version))
    case AtOverrides(given, roles, _) =>
      roles.version <= s.version
      && (GivenOk(s, q.tenant, q.user, given, roles.time) || UserQueued(s.flights, q.tenant, q.user, roles.version))
    case AtStorePerms(codes, basis) =>
      basis.roles.version <= s.version
      && (SetOk(s, q.tenant, q.user, codes, basis.roles.time) || UserQueued(s.flights, q.tenant, q.user, basis.roles.version))
    case AtAcl(caller) => CallerOk(s, q, caller)
    case AtCount(caller) => CallerOk(s, q, caller)
    case AtStoreAcl(caller, found, counted) =>
      CallerOk(s, q, caller) && counted.version <= s.version
      && (found == AclAllows(s.db, q) || AclQueued(s.flights, q, counted.version))
    case AtStoreAuthz(allowed, rbac, acl) =>
      rbac.roles.version <= s.version && (acl.Some? ==> acl.value.version <= s.version)
      && (|| UserEarly(s.flights, q.tenant, q.user, rbac.roles.version)
          || (acl.None? && RbacOk(s, q, allowed, rbac.roles.time))
          || (acl.Some? && (DecisionOk(s, q, allowed, rbac.roles.time) || AclEarly(s.flights, q, acl.value.version))))
  }

  ghost predicate CheckOk(s: State, check: Check)
  {
    ProgressOk(s, check.q, check.at)
  }

  /** An open transaction's event is still queued, and announces what will land. */
  ghost predicate TxOk(s: State, tx: Tx)
  {
    && Consistent(tx.edits, tx.event)
    && (tx.event.Some? ==>
          tx.flight in s.flights && s.flights[tx.flight].inv == tx.event.value && s.flights[tx.flight].stage.Queued?)
  }

  /** Numbers in use are below `nextId`, and no event announces a version still to come. */
  ghost predicate Numbered(s: State)
  {
    && (forall f | f in s.flights :: f < s.nextId && s.flights[f].since <= s.version)
    && (forall x | x in s.txs :: x < s.nextId)
    && (forall c | c in s.checks :: c < s.nextId)
  }

  ghost predicate Inv(s: State)
  {
    && WellFormed(s.db)
    && Numbered(s)
    && (forall k | k in s.perms :: PermsOk(s, k, s.perms[k]))
    && (forall q | q in s.acl :: AclOk(s, q, s.acl[q]))
    && (forall q | q in s.authz :: AuthzOk(s, q, s.authz[q]))
    && (forall c | c in s.checks :: CheckOk(s, s.checks[c]))
    && (forall x | x in s.txs :: TxOk(s, s.txs[x]))
  }

  // ---- steps of the world: no cache is touched, no check moves ----

  /** Every event is still where it was, and announces the same change or one that has landed since. */
  ghost predicate FlightsKept(flights: map<nat, Flight>, flights': map<nat, Flight>)
  {
    forall f | f in flights ::
      && f in flights' && flights'[f].inv == flights[f].inv && flights'[f].stage == flights[f].stage
      && flights[f].since <= flights'[f].since
  }

  lemma ExcusesKept(flights: map<nat, Flight>, flights': map<nat, Flight>)
    requires FlightsKept(flights, flights')
    ensures forall t, u, stamp, v | PermsCovered(flights, t, u, stamp, v) :: PermsCovered(flights', t, u, stamp, v)
    ensures forall q, stamp, v | AclCovered(flights, q, stamp, v) :: AclCovered(flights', q, stamp, v)
    ensures forall q, stamp | AuthzCovered(flights, q, stamp) :: AuthzCovered(flights', q, stamp)
    ensures forall t, u, v | UserQueued(flights, t, u, v) :: UserQueued(flights', t, u, v)
    ensures forall q, v | AclQueued(flights, q, v) :: AclQueued(flights', q, v)
    ensures forall t, u, v | UserEarly(flights, t, u, v) :: UserEarly(flights', t, u, v)
    ensures forall q, v | AclEarly(flights, q, v) :: AclEarly(flights', q, v)
  {
  }

  /** An event queued for a change after `version` excuses everything read by then. */
  lemma QueuedExcuses(flights: map<nat, Flight>, t: Id, u: Id, stamp: nat, version: nat, v: nat)
    requires UserQueued(flights, t, u, version) && v <= version
    ensures PermsCovered(flights, t, u, stamp, v) && UserQueued(flights, t, u, v) && UserEarly(flights, t, u, v)
    ensures forall q: Query, stamp' | q.tenant == t && q.user == u :: AuthzCovered(flights, q, stamp')
  {
    var f :| f in flights && CoversUser(flights[f].inv, t, u) && flights[f].stage.Queued? && version < flights[f].since;
    assert SourcePending(flights[f], stamp) && Early(flights[f]);
    forall q: Query, stamp' | q.tenant == t && q.user == u
      ensures AuthzCovered(flights, q, stamp')
    {
      assert CoversDecision(flights[f].inv, q) && DerivedPending(flights[f], stamp');
    }
  }

  lemma QueuedAclExcuses(flights: map<nat, Flight>, q: Query, stamp: nat, version: nat, v: nat)
    requires AclQueued(flights, q, version) && v <= version
    ensures AclCovered(flights, q, stamp, v) && AclQueued(flights, q, v) && AclEarly(flights, q, v) && AuthzCovered(flights, q, stamp)
  {
    var f :| f in flights && CoversAcl(flights[f].inv, q) && flights[f].stage.Queued? && version < flights[f].since;
    assert SourcePending(flights[f], stamp) && Early(flights[f]);
    assert CoversDecision(flights[f].inv, q) && DerivedPending(flights[f], stamp);
  }

  /** What may happen to the tables: expiries, a change whose event is queued, or one of a user nobody asked about. */
  ghost predicate UserAnnounced(s: State, s': State, t: Id, u: Id)
  {
    OnlyExpiries(s, s', t, u) || UserQueued(s'.flights, t, u, s.version) || Unasked(s, t, u)
  }

  ghost predicate AclAnnounced(s: State, s': State, q: Query)
  {
    (AclAllows(s.db, q) <==> AclAllows(s'.db, q)) || AclQueued(s'.flights, q, s.version)
  }

  ghost predicate WorldStep(s: State, s': State)
  {
    && s'.perms == s.perms && s'.acl == s.acl && s'.authz == s.authz && s'.writes == s.writes
    && s.version <= s'.version && FlightsKept(s.flights, s'.flights)
    && (forall t, u :: UserAnnounced(s, s', t, u)) && (forall q :: AclAnnounced(s, s', q))
  }

  lemma WorldKeepsPerms(s: State, s': State, k: (Id, Id), e: PermsEntry)
    requires WorldStep(s, s') && PermsOk(s, k, e) && k in s.perms
    ensures PermsOk(s', k, e)
  {
    ExcusesKept(s.flights, s'.flights);
    assert UserAnnounced(s, s', k.0, k.1);
    if OnlyExpiries(s, s', k.0, k.1) {
      KeepsValues(s, s', k.0, k.1);
    } else {
      QueuedExcuses(s'.flights, k.0, k.1, e.stamp, s.version, e.basis.roles.version);
    }
  }

  lemma WorldKeepsAcl(s: State, s': State, q: Query, e: AclEntry)
    requires WorldStep(s, s') && AclOk(s, q, e)
    ensures AclOk(s', q, e)
  {
    ExcusesKept(s.flights, s'.flights);
    assert AclAnnounced(s, s', q);
    if AclQueued(s'.flights, q, s.version) {
      QueuedAclExcuses(s'.flights, q, e.stamp, s.version, e.basis.version);
    }
  }

  /** A right decision stays right, or the event of what changed is queued. */
  lemma WorldKeepsDecision(s: State, s': State, q: Query, allowed: bool, asOf: Time)
    requires WorldStep(s, s') && DecisionOk(s, q, allowed, asOf) && !Unasked(s, q.tenant, q.user)
    ensures DecisionOk(s', q, allowed, asOf) || UserQueued(s'.flights, q.tenant, q.user, s.version) || AclQueued(s'.flights, q, s.version)
  {
    assert UserAnnounced(s, s', q.tenant, q.user) && AclAnnounced(s, s', q);
    if OnlyExpiries(s, s', q.tenant, q.user) && (AclAllows(s.db, q) <==> AclAllows(s'.db, q)) {
      KeepsDecision(s, s', q, allowed, asOf);
    }
  }

  lemma WorldKeepsAuthz(s: State, s': State, q: Query, e: AuthzEntry)
    requires WorldStep(s, s') && AuthzOk(s, q, e) && q in s.authz
    ensures AuthzOk(s', q, e)
  {
    ExcusesKept(s.flights, s'.flights);
    if DecisionOk(s, q, e.allowed, e.rbac.roles.time) {
      WorldKeepsDecision(s, s', q, e.allowed, e.rbac.roles.time);
      if UserQueued(s'.flights, q.tenant, q.user, s.version) {
        QueuedExcuses(s'.flights, q.tenant, q.user, e.stamp, s.version, s.version);
      } else if AclQueued(s'.flights, q, s.version) {
        QueuedAclExcuses(s'.flights, q, e.stamp, s.version, s.version);
      }
    }
  }

  lemma WorldKeepsCaller(s: State, s': State, q: Query, caller: Option<Denial>)
    requires WorldStep(s, s') && CallerOk(s, q, caller) && !Unasked(s, q.tenant, q.user)
    ensures CallerOk(s', q, caller)
  {
    if caller.Some? {
      ExcusesKept(s.flights, s'.flights);
      assert UserAnnounced(s, s', q.tenant, q.user);
      if OnlyExpiries(s, s', q.tenant, q.user) {
        KeepsValues(s, s', q.tenant, q.user);
      } else {
        QueuedExcuses(s'.flights, q.tenant, q.user, 0, s.version, caller.value.rbac.roles.version);
      }
    }
  }

  lemma WorldKeepsReading(s: State, s': State, q: Query, at: Progress)
    requires WorldStep(s, s') && !Unasked(s, q.tenant, q.user) && ProgressOk(s, q, at)
    requires at.AtMappings? || at.AtOverrides? || at.AtStorePerms?
    ensures ProgressOk(s', q, at)
  {
    ExcusesKept(s.flights, s'.flights);
    assert UserAnnounced(s, s', q.tenant, q.user);
    if OnlyExpiries(s, s', q.tenant, q.user) {
      KeepsValues(s, s', q.tenant, q.user);
    } else {
      QueuedExcuses(s'.flights, q.tenant, q.user, 0, s.version, if at.AtStorePerms? then at.basis.roles.version else at.roles.version);
    }
  }

  lemma WorldKeepsStoring(s: State, s': State, q: Query, at: Progress)
    requires WorldStep(s, s') && !Unasked(s, q.tenant, q.user) && ProgressOk(s, q, at) && at.AtStoreAuthz?
    ensures ProgressOk(s', q, at)
  {
    ExcusesKept(s.flights, s'.flights);
    assert UserAnnounced(s, s', q.tenant, q.user);
    if !OnlyExpiries(s, s', q.tenant, q.user) {
      QueuedExcuses(s'.flights, q.tenant, q.user, 0, s.version, at.rbac.roles.version);
    } else if at.acl.None? {
      if RbacOk(s, q, at.allowed, at.rbac.roles.time) {
        KeepsRbac(s, s', q, at.allowed, at.rbac.roles.time);
      }
    } else if DecisionOk(s, q, at.allowed, at.rbac.roles.time) {
      WorldKeepsDecision(s, s', q, at.allowed, at.rbac.roles.time);
      if AclQueued(s'.flights, q, s.version) {
        QueuedAclExcuses(s'.flights, q, 0, s.version, at.acl.value.version);
      } else if UserQueued(s'.flights, q.tenant, q.user, s.version) {
        QueuedExcuses(s'.flights, q.tenant, q.user, 0, s.version, at.rbac.roles.version);
      }
    }
  }

  lemma WorldKeepsProgress(s: State, s': State, q: Query, at: Progress)
    requires WorldStep(s, s') && !Unasked(s, q.tenant, q.user) && ProgressOk(s, q, at)
    ensures ProgressOk(s', q, at)
  {
    match at
    case AtPerms =>
    case AtRoles =>
    case AtAcl(caller) => WorldKeepsCaller(s, s', q, caller);
    case AtCount(caller) => WorldKeepsCaller(s, s', q, caller);
    case AtStoreAcl(caller, _, counted) =>
      WorldKeepsCaller(s, s', q, caller);
      ExcusesKept(s.flights, s'.flights);
      assert AclAnnounced(s, s', q);
      if AclQueued(s'.flights, q, s.version) {
        QueuedAclExcuses(s'.flights, q, 0, s.version, counted.version);
      }
    case AtStoreAuthz(_, _, _) => WorldKeepsStoring(s, s', q, at);
    case _ => WorldKeepsReading(s, s', q, at);
  }

  /** A check that has read nothing yet. */
  predicate Fresh(at: Progress)
  {
    at.AtPerms? || at == AtAcl(None)
  }

  lemma WorldKeeps(s: State, s': State)
    requires Inv(s) && WorldStep(s, s') && WellFormed(s'.db) && Numbered(s')
    requires forall c | c in s'.checks :: (c in s.checks && s'.checks[c] == s.checks[c]) || Fresh(s'.checks[c].at)
    requires forall x | x in s'.txs :: (x in s.txs && s'.txs[x] == s.txs[x]) || TxOk(s', s'.txs[x])
    ensures Inv(s')
  {
    forall k | k in s'.perms ensures PermsOk(s', k, s'.perms[k]) { WorldKeepsPerms(s, s', k, s.perms[k]); }
    forall q | q in s'.acl ensures AclOk(s', q, s'.acl[q]) { WorldKeepsAcl(s, s', q, s.acl[q]); }
    forall q | q in s'.authz ensures AuthzOk(s', q, s'.authz[q]) { WorldKeepsAuthz(s, s', q, s.authz[q]); }
    forall c | c in s'.checks ensures CheckOk(s', s'.checks[c]) {
      if !Fresh(s'.checks[c].at) {
        assert CheckOk(s, s.checks[c]);
        WorldKeepsProgress(s, s', s.checks[c].q, s.checks[c].at);
      }
    }
    forall x | x in s'.txs ensures TxOk(s', s'.txs[x]) {
      if x in s.txs && s'.txs[x] == s.txs[x] { assert TxOk(s, s.txs[x]); }
    }
  }

  /** Tables, clock and history as they were. */
  ghost predicate SameWorld(s: State, s': State)
  {
    s.db == s'.db && s.now == s'.now && s.purged == s'.purged
  }

  lemma SameWorldAnnounced(s: State, s': State)
    requires SameWorld(s, s')
    ensures forall t, u :: UserAnnounced(s, s', t, u)
    ensures forall q :: AclAnnounced(s, s', q)
  {
    forall t, u ensures UserAnnounced(s, s', t, u) { TickOnlyExpiries(s, s', t, u); }
  }

  lemma EmitKeeps(d: Discipline, s: State, m: Mutation)
    requires Inv(s) && Enabled(d, s, Emit(m))
    ensures Inv(Step(d, s, Emit(m)))
  {
    EditsConsistent(s.db, m);
    OpenKeeps(s, EditsOf(s.db, m), Apply(s.db, m).event);
  }

  lemma OpenKeeps(s: State, edits: seq<Edit>, event: Option<Invalidation>)
    requires Inv(s) && Consistent(edits, event)
    ensures Inv(Open(s, edits, event))
  {
    var s' := Open(s, edits, event);
    SameWorldAnnounced(s, s');
    assert TxOk(s', s'.txs[s.nextId]);
    WorldKeeps(s, s');
  }

  lemma ReplayKeeps(d: Discipline, s: State, inv: Invalidation)
    requires Inv(s)
    ensures Inv(Step(d, s, Replay(inv)))
  {
    SameWorldAnnounced(s, Step(d, s, Replay(inv)));
    WorldKeeps(s, Step(d, s, Replay(inv)));
  }

  lemma AbortKeeps(d: Discipline, s: State, x: nat)
    requires Inv(s) && Enabled(d, s, Abort(x))
    ensures Inv(Step(d, s, Abort(x)))
  {
    SameWorldAnnounced(s, Step(d, s, Abort(x)));
    WorldKeeps(s, Step(d, s, Abort(x)));
  }

  lemma BeganKeeps(s: State, q: Query, at: Progress)
    requires Inv(s) && Fresh(at)
    ensures Inv(Began(s, q, at))
  {
    SameWorldAnnounced(s, Began(s, q, at));
    WorldKeeps(s, Began(s, q, at));
  }

  lemma TickKeeps(d: Discipline, s: State, dt: nat)
    requires Inv(s) && Enabled(d, s, Tick(dt))
    ensures Inv(Step(d, s, Tick(dt)))
  {
    var s' := Step(d, s, Tick(dt));
    forall t, u ensures UserAnnounced(s, s', t, u) { TickOnlyExpiries(s, s', t, u); }
    WorldKeeps(s, s');
  }

  lemma PurgeKeeps(d: Discipline, s: State)
    requires Inv(s)
    ensures Inv(Step(d, s, Purge))
  {
    var s' := Step(d, s, Purge);
    forall t, u ensures UserAnnounced(s, s', t, u) { PurgeOnlyExpiries(s, s', t, u); }
    WorldKeeps(s, s');
  }

  lemma FoundingKeeps(d: Discipline, s: State, l: Label)
    requires Inv(s) && l.Found? && Enabled(d, s, l)
    ensures Inv(Step(d, s, l))
  {
    var s' := Step(d, s, l);
    var none := Query("", "", "", "", "");
    FoundingTouchesOnlyTheAdmin(s.db, l.tenant, l.admin, l.role, "", "", none);
    forall t, u ensures UserAnnounced(s, s', t, u) {
      if t != l.tenant || u != l.admin {
        FoundingTouchesOnlyTheAdmin(s.db, l.tenant, l.admin, l.role, t, u, none);
        SameRowsOnlyExpiries(s, s', t, u);
      }
    }
    WorldKeeps(s, s');
  }

  /** What a commit changes for a user or a question, its own event announces. */
  lemma CommitAnnounced(s: State, x: nat)
    requires x in s.txs && TxOk(s, s.txs[x]) && WellFormed(s.db)
    requires AdmitsAll(s.db, s.txs[x].edits) && CascadeFree(s.db, s.txs[x].edits)
    ensures WellFormed(Close(s, x).db)
    ensures forall t, u :: UserAnnounced(s, Close(s, x), t, u)
    ensures forall q :: AclAnnounced(s, Close(s, x), q)
  {
    var s', tx := Close(s, x), s.txs[x];
    LandingIsCovered(s.db, tx.edits, tx.event);
    forall t, u
      ensures UserAnnounced(s, s', t, u)
    {
      if EventCoversUser(tx.event, t, u) {
        assert CoversUser(s'.flights[tx.flight].inv, t, u) && s.version < s'.flights[tx.flight].since;
      } else {
        SameRowsOnlyExpiries(s, s', t, u);
      }
    }
    forall q
      ensures AclAnnounced(s, s', q)
    {
      if EventCoversAcl(tx.event, q) {
        assert CoversAcl(s'.flights[tx.flight].inv, q) && s.version < s'.flights[tx.flight].since;
      }
    }
  }

  lemma CommitKeeps(d: Discipline, s: State, x: nat)
    requires Inv(s) && Enabled(d, s, Commit(x)) && d.cascadeFree
    ensures Inv(Step(d, s, Commit(x)))
  {
    assert TxOk(s, s.txs[x]);
    CommitAnnounced(s, x);
    WorldKeeps(s, Close(s, x));
  }

  // ---- steps of a consumer ----

  /** One event moves on, or is done; the world, the checks and the other events stay. */
  ghost predicate EventStep(s: State, s': State, f: nat)
  {
    && SameWorld(s, s') && s'.version == s.version && s'.writes == s.writes && s'.nextId == s.nextId
    && s'.checks == s.checks && s'.txs == s.txs
    && f in s.flights
    && (forall g | g in s'.flights :: g in s.flights && (g != f ==> s'.flights[g] == s.flights[g]))
    && (forall g | g in s.flights && g != f :: g in s'.flights)
    && (f in s'.flights ==> s'.flights[f].inv == s.flights[f].inv && s'.flights[f].since == s.flights[f].since)
    && (forall k | k in s'.perms :: k in s.perms && s'.perms[k] == s.perms[k])
    && (forall q | q in s'.acl :: q in s.acl && s'.acl[q] == s.acl[q])
    && (forall q | q in s'.authz :: q in s.authz && s'.authz[q] == s.authz[q])
  }

  /** Every value `f` excused is gone, or still excused by `f`. */
  ghost predicate Released(s: State, s': State, f: nat)
    requires EventStep(s, s', f)
  {
    var fl := s.flights[f];
    && (forall k | k in s'.perms && CoversUser(fl.inv, k.0, k.1) && SourcePending(fl, s.perms[k].stamp) ::
          f in s'.flights && SourcePending(s'.flights[f], s.perms[k].stamp))
    && (forall q | q in s'.acl && CoversAcl(fl.inv, q) && SourcePending(fl, s.acl[q].stamp) ::
          f in s'.flights && SourcePending(s'.flights[f], s.acl[q].stamp))
    && (forall q | q in s'.authz && CoversDecision(fl.inv, q) && DerivedPending(fl, s.authz[q].stamp) ::
          f in s'.flights && DerivedPending(s'.flights[f], s.authz[q].stamp))
    && (fl.stage.Queued? && !(f in s'.flights && s'.flights[f].stage.Queued?) ==>
          forall c | c in s.checks :: !HoldsSource(s.checks[c], fl))
    && (Early(fl) && !(f in s'.flights && Early(s'.flights[f])) ==>
          forall c | c in s.checks :: !HoldsDerived(s.checks[c], fl))
  }

  lemma EventKeepsPerms(s: State, s': State, f: nat, k: (Id, Id))
    requires EventStep(s, s', f) && Released(s, s', f) && k in s'.perms && PermsOk(s, k, s.perms[k])
    ensures PermsOk(s', k, s'.perms[k])
  {
    SameWorldValues(s, s');
    var e := s.perms[k];
    if PermsCovered(s.flights, k.0, k.1, e.stamp, e.basis.roles.version) {
      var g :| g in s.flights && CoversUser(s.flights[g].inv, k.0, k.1) && SourcePending(s.flights[g], e.stamp)
        && e.basis.roles.version < s.flights[g].since;
      assert g in s'.flights && SourcePending(s'.flights[g], e.stamp);
    }
  }

  lemma EventKeepsAcl(s: State, s': State, f: nat, q: Query)
    requires EventStep(s, s', f) && Released(s, s', f) && q in s'.acl && AclOk(s, q, s.acl[q])
    ensures AclOk(s', q, s'.acl[q])
  {
    var e := s.acl[q];
    if AclCovered(s.flights, q, e.stamp, e.basis.version) {
      var g :| g in s.flights && CoversAcl(s.flights[g].inv, q) && SourcePending(s.flights[g], e.stamp)
        && e.basis.version < s.flights[g].since;
      assert g in s'.flights && SourcePending(s'.flights[g], e.stamp);
    }
  }

  lemma EventKeepsAuthz(s: State, s': State, f: nat, q: Query)
    requires EventStep(s, s', f) && Released(s, s', f) && q in s'.authz && AuthzOk(s, q, s.authz[q])
    ensures AuthzOk(s', q, s'.authz[q])
  {
    SameWorldValues(s, s');
    var e := s.authz[q];
    if AuthzCovered(s.flights, q, e.stamp) {
      var g :| g in s.flights && CoversDecision(s.flights[g].inv, q) && DerivedPending(s.flights[g], e.stamp);
      assert g in s'.flights && DerivedPending(s'.flights[g], e.stamp);
    }
  }

  lemma SameWorldValues(s: State, s': State)
    requires SameWorld(s, s')
    ensures forall t, u, held, asOf :: RolesOk(s, t, u, held, asOf) <==> RolesOk(s', t, u, held, asOf)
    ensures forall t, u, given, asOf :: GivenOk(s, t, u, given, asOf) <==> GivenOk(s', t, u, given, asOf)
    ensures forall t, u, codes, asOf :: SetOk(s, t, u, codes, asOf) <==> SetOk(s', t, u, codes, asOf)
    ensures forall q, allowed, asOf :: RbacOk(s, q, allowed, asOf) <==> RbacOk(s', q, allowed, asOf)
    ensures forall q, allowed, asOf :: DecisionOk(s, q, allowed, asOf) <==> DecisionOk(s', q, allowed, asOf)
  {
  }

  /** A check that holds a value only `f` excused would have held `f` back. */
  lemma EventKeepsUserQueued(s: State, s': State, f: nat, c: nat, version: nat)
    requires EventStep(s, s', f) && Released(s, s', f) && c in s.checks
    requires forall fl: Flight | CoversUser(fl.inv, s.checks[c].q.tenant, s.checks[c].q.user) && version < fl.since ::
               HoldsSource(s.checks[c], fl)
    requires UserQueued(s.flights, s.checks[c].q.tenant, s.checks[c].q.user, version)
    ensures UserQueued(s'.flights, s.checks[c].q.tenant, s.checks[c].q.user, version)
  {
    var q := s.checks[c].q;
    var g :| g in s.flights && CoversUser(s.flights[g].inv, q.tenant, q.user) && s.flights[g].stage.Queued? && version < s.flights[g].since;
    assert HoldsSource(s.checks[c], s.flights[g]);
    assert g in s'.flights && s'.flights[g].stage.Queued?;
  }

  lemma EventKeepsUserEarly(s: State, s': State, f: nat, c: nat, version: nat)
    requires EventStep(s, s', f) && Released(s, s', f) && c in s.checks
    requires forall fl: Flight | CoversUser(fl.inv, s.checks[c].q.tenant, s.checks[c].q.user) && version < fl.since ::
               HoldsDerived(s.checks[c], fl)
    requires UserEarly(s.flights, s.checks[c].q.tenant, s.checks[c].q.user, version)
    ensures UserEarly(s'.flights, s.checks[c].q.tenant, s.checks[c].q.user, version)
  {
    var q := s.checks[c].q;
    var g :| g in s.flights && CoversUser(s.flights[g].inv, q.tenant, q.user) && Early(s.flights[g]) && version < s.flights[g].since;
    assert HoldsDerived(s.checks[c], s.flights[g]);
    assert g in s'.flights && Early(s'.flights[g]);
  }

  lemma EventKeepsCounted(s: State, s': State, f: nat, c: nat)
    requires EventStep(s, s', f) && Released(s, s', f) && c in s.checks && s.checks[c].at.AtStoreAcl?
    requires AclQueued(s.flights, s.checks[c].q, s.checks[c].at.counted.version)
    ensures AclQueued(s'.flights, s.checks[c].q, s.checks[c].at.counted.version)
  {
    var q, version := s.checks[c].q, s.checks[c].at.counted.version;
    var g :| g in s.flights && CoversAcl(s.flights[g].inv, q) && s.flights[g].stage.Queued? && version < s.flights[g].since;
    assert HoldsSource(s.checks[c], s.flights[g]);
    assert g in s'.flights && s'.flights[g].stage.Queued?;
  }

  lemma EventKeepsAnswered(s: State, s': State, f: nat, c: nat)
    requires EventStep(s, s', f) && Released(s, s', f) && c in s.checks && s.checks[c].at.AtStoreAuthz? && s.checks[c].at.acl.Some?
    requires AclEarly(s.flights, s.checks[c].q, s.checks[c].at.acl.value.version)
    ensures AclEarly(s'.flights, s.checks[c].q, s.checks[c].at.acl.value.version)
  {
    var q, version := s.checks[c].q, s.checks[c].at.acl.value.version;
    var g :| g in s.flights && CoversAcl(s.flights[g].inv, q) && Early(s.flights[g]) && version < s.flights[g].since;
    assert HoldsDerived(s.checks[c], s.flights[g]);
    assert g in s'.flights && Early(s'.flights[g]);
  }

  lemma EventKeepsCheck(s: State, s': State, f: nat, c: nat)
    requires EventStep(s, s', f) && Released(s, s', f) && c in s.checks && CheckOk(s, s.checks[c])
    ensures CheckOk(s', s.checks[c])
  {
    SameWorldValues(s, s');
    var q, at := s.checks[c].q, s.checks[c].at;
    match at
    case AtPerms =>
    case AtRoles =>
    case AtMappings(held, roles) =>
      if UserQueued(s.flights, q.tenant, q.user, roles.version) { EventKeepsUserQueued(s, s', f, c, roles.version); }
    case AtOverrides(_, roles, _) =>
      if UserQueued(s.flights, q.tenant, q.user, roles.version) { EventKeepsUserQueued(s, s', f, c, roles.version); }
    case AtStorePerms(_, basis) =>
      if UserQueued(s.flights, q.tenant, q.user, basis.roles.version) { EventKeepsUserQueued(s, s', f, c, basis.roles.version); }
    case AtAcl(caller) => EventKeepsCaller(s, s', f, c, caller);
    case AtCount(caller) => EventKeepsCaller(s, s', f, c, caller);
    case AtStoreAcl(caller, _, counted) =>
      EventKeepsCaller(s, s', f, c, caller);
      if AclQueued(s.flights, q, counted.version) { EventKeepsCounted(s, s', f, c); }
    case AtStoreAuthz(_, rbac, acl) =>
      if UserEarly(s.flights, q.tenant, q.user, rbac.roles.version) {
        EventKeepsUserEarly(s, s', f, c, rbac.roles.version);
      } else if acl.Some? && AclEarly(s.flights, q, acl.value.version) {
        EventKeepsAnswered(s, s', f, c);
      }
  }

  lemma EventKeepsCaller(s: State, s': State, f: nat, c: nat, caller: Option<Denial>)
    requires EventStep(s, s', f) && Released(s, s', f) && c in s.checks && CallerOk(s, s.checks[c].q, caller)
    requires s.checks[c].at == AtAcl(caller) || s.checks[c].at == AtCount(caller)
             || (s.checks[c].at.AtStoreAcl? && s.checks[c].at.caller == caller)
    ensures CallerOk(s', s.checks[c].q, caller)
  {
    SameWorldValues(s, s');
    if caller.Some? && UserEarly(s.flights, s.checks[c].q.tenant, s.checks[c].q.user, caller.value.rbac.roles.version) {
      EventKeepsUserEarly(s, s', f, c, caller.value.rbac.roles.version);
    }
  }

  lemma EventKeeps(s: State, s': State, f: nat)
    requires Inv(s) && EventStep(s, s', f) && Released(s, s', f)
    requires forall x | x in s.txs && s.txs[x].event.Some? && s.txs[x].flight == f :: f in s'.flights && s'.flights[f].stage.Queued?
    ensures Inv(s')
  {
    forall k | k in s'.perms ensures PermsOk(s', k, s'.perms[k]) { EventKeepsPerms(s, s', f, k); }
    forall q | q in s'.acl ensures AclOk(s', q, s'.acl[q]) { EventKeepsAcl(s, s', f, q); }
    forall q | q in s'.authz ensures AuthzOk(s', q, s'.authz[q]) { EventKeepsAuthz(s, s', f, q); }
    forall c | c in s'.checks ensures CheckOk(s', s'.checks[c]) { EventKeepsCheck(s, s', f, c); }
    forall x | x in s'.txs ensures TxOk(s', s'.txs[x]) { assert TxOk(s, s.txs[x]); }
  }

  ghost predicate StampsBounded(s: State)
  {
    && (forall k | k in s.perms :: s.perms[k].stamp <= s.writes)
    && (forall q | q in s.acl :: s.acl[q].stamp <= s.writes)
    && (forall q | q in s.authz :: s.authz[q].stamp <= s.writes)
  }

  lemma StampsAreBounded(s: State)
    requires Inv(s)
    ensures StampsBounded(s)
  {
    forall k | k in s.perms ensures s.perms[k].stamp <= s.writes { assert PermsOk(s, k, s.perms[k]); }
    forall q | q in s.acl ensures s.acl[q].stamp <= s.writes { assert AclOk(s, q, s.acl[q]); }
    forall q | q in s.authz ensures s.authz[q].stamp <= s.writes { assert AuthzOk(s, q, s.authz[q]); }
  }

  lemma StageIsEventStep(s: State, f: nat, stage: Stage)
    requires f in s.flights
    ensures EventStep(s, SetStage(s, f, stage), f)
  {
  }

  lemma StartSourceReleases(d: Discipline, s: State, f: nat)
    requires d.quietSource && StampsBounded(s) && Enabled(d, s, StartSource(f))
    ensures EventStep(s, Step(d, s, StartSource(f)), f) && Released(s, Step(d, s, StartSource(f)), f)
  {
    StageIsEventStep(s, f, SourceScan(s.writes));
  }

  lemma StartDerivedReleases(d: Discipline, s: State, f: nat)
    requires d.quietDerived && StampsBounded(s) && Enabled(d, s, StartDerived(f))
    ensures EventStep(s, Step(d, s, StartDerived(f)), f) && Released(s, Step(d, s, StartDerived(f)), f)
  {
    StageIsEventStep(s, f, DerivedScan(s.writes));
  }

  lemma FinishIsEventStep(d: Discipline, s: State, l: Label)
    requires (l.FinishSource? || l.FinishDerived?) && Enabled(d, s, l)
    ensures EventStep(s, Step(d, s, l), l.flight)
  {
  }

  lemma FinishSourceReleases(d: Discipline, s: State, l: Label)
    requires l.FinishSource? && Enabled(d, s, l)
    ensures EventStep(s, Step(d, s, l), l.flight) && Released(s, Step(d, s, l), l.flight)
  {
    FinishIsEventStep(d, s, l);
  }

  lemma FinishDerivedReleases(d: Discipline, s: State, l: Label)
    requires l.FinishDerived? && Enabled(d, s, l)
    ensures EventStep(s, Step(d, s, l), l.flight) && Released(s, Step(d, s, l), l.flight)
  {
    FinishIsEventStep(d, s, l);
  }

  lemma PastQueued(s: State, f: nat)
    requires Inv(s) && f in s.flights && !s.flights[f].stage.Queued?
    ensures forall x | x in s.txs && s.txs[x].event.Some? :: s.txs[x].flight != f
  {
    forall x | x in s.txs && s.txs[x].event.Some? ensures s.txs[x].flight != f { assert TxOk(s, s.txs[x]); }
  }

  lemma DeliveryKeeps(d: Discipline, s: State, l: Label)
    requires Disciplined(d) && Inv(s) && Enabled(d, s, l)
    requires l.StartSource? || l.FinishSource? || l.StartDerived? || l.FinishDerived?
    ensures Inv(Step(d, s, l))
  {
    StampsAreBounded(s);
    match l {
      case StartSource(f) => StartSourceReleases(d, s, f);
      case FinishSource(f, _, _) => FinishSourceReleases(d, s, l); PastQueued(s, f);
      case StartDerived(f) => StartDerivedReleases(d, s, f); PastQueued(s, f);
      case FinishDerived(f, _) => FinishDerivedReleases(d, s, l); PastQueued(s, f);
    }
    EventKeeps(s, Step(d, s, l), l.flight);
  }

  lemma EvictKeeps(d: Discipline, s: State, l: Label)
    requires Inv(s) && (l.EvictPerms? || l.EvictAcl? || l.EvictAuthz?)
    ensures Inv(Step(d, s, l))
  {
    var s' := Step(d, s, l);
    SameWorldValues(s, s');
    forall k | k in s'.perms ensures PermsOk(s', k, s'.perms[k]) { assert PermsOk(s, k, s.perms[k]); }
    forall q | q in s'.acl ensures AclOk(s', q, s'.acl[q]) { assert AclOk(s, q, s.acl[q]); }
    forall q | q in s'.authz ensures AuthzOk(s', q, s'.authz[q]) { assert AuthzOk(s, q, s.authz[q]); }
    ChecksKept(s, s');
  }

  lemma ChecksKept(s: State, s': State)
    requires Inv(s) && SameWorld(s, s') && s'.flights == s.flights && s'.version == s.version && s'.checks == s.checks && s'.txs == s.txs
    ensures forall c | c in s'.checks :: CheckOk(s', s'.checks[c])
    ensures forall x | x in s'.txs :: TxOk(s', s'.txs[x])
  {
    SameWorldValues(s, s');
    forall c | c in s'.checks ensures CheckOk(s', s'.checks[c]) { ProgressKept(s, s', s.checks[c].q, s.checks[c].at); }
    forall x | x in s'.txs ensures TxOk(s', s'.txs[x]) { assert TxOk(s, s.txs[x]); }
  }

  /** Progress is judged by the world and the events alone. */
  lemma ProgressKept(s: State, s': State, q: Query, at: Progress)
    requires SameWorld(s, s') && s'.flights == s.flights && s'.version == s.version
    ensures ProgressOk(s, q, at) <==> ProgressOk(s', q, at)
  {
    SameWorldValues(s, s');
  }

  // ---- a check's own steps ----

  /** The entry an await writes is right, or an event that will delete it is still queued. */
  ghost predicate WriteOk(s: State, q: Query, w: Write)
  {
    match w
    case NoWrite => true
    case WritePerms(e) =>
      var version := e.basis.roles.version;
      e.stamp == s.writes + 1 && version <= s.version
      && (SetOk(s, q.tenant, q.user, e.codes, e.basis.roles.time) || UserQueued(s.flights, q.tenant, q.user, version))
    case WriteAcl(e) =>
      e.stamp == s.writes + 1 && e.basis.version <= s.version
      && (e.allowed == AclAllows(s.db, q) || AclQueued(s.flights, q, e.basis.version))
    case WriteAuthz(e) =>
      e.stamp == s.writes + 1
      && (DecisionOk(s, q, e.allowed, e.rbac.roles.time) || exists f | f in s.flights :: CoversDecision(s.flights[f].inv, q) && Early(s.flights[f]))
  }

  /** What an await leads to: a progress and an entry in order. */
  ghost predicate AwaitOk(s: State, q: Query, o: Await)
  {
    WriteOk(s, q, o.write) && (o.next.Some? ==> ProgressOk(s, q, o.next.value))
  }

  /** Judging a permission set that is faithful, or covered early, gives a progress that is too. */
  lemma JudgeOk(s: State, q: Query, codes: set<string>, rbac: Basis)
    requires rbac.roles.version <= s.version
    requires SetOk(s, q.tenant, q.user, codes, rbac.roles.time) || UserEarly(s.flights, q.tenant, q.user, rbac.roles.version)
    ensures ProgressOk(s, q, Judge(q, codes, rbac, Grants(codes, q.permission)))
  {
    if SetOk(s, q.tenant, q.user, codes, rbac.roles.time) {
      SetDecides(s, q, codes, rbac.roles.time);
    }
  }

  /** After an RBAC denial, an ACL answer that is right, or covered early, decides. */
  lemma ResumedOk(s: State, q: Query, caller: Option<Denial>, found: bool, acl: Snapshot)
    requires CallerOk(s, q, caller) && acl.version <= s.version
    requires found == AclAllows(s.db, q) || AclEarly(s.flights, q, acl.version)
    ensures Resumed(caller, found, acl).Some? ==> ProgressOk(s, q, Resumed(caller, found, acl).value)
  {
    if caller.Some? && found == AclAllows(s.db, q) && !UserEarly(s.flights, q.tenant, q.user, caller.value.rbac.roles.version) {
      SetDecides(s, q, caller.value.codes, caller.value.rbac.roles.time);
    }
  }

  lemma PermsReadOk(d: Discipline, s: State, q: Query)
    requires (q.tenant, q.user) in s.perms ==> PermsOk(s, (q.tenant, q.user), s.perms[(q.tenant, q.user)])
    ensures AwaitOk(s, q, NextOfRbac(d, s, q, AtPerms))
  {
    if PermsHit(s, q.tenant, q.user) {
      var e := s.perms[(q.tenant, q.user)];
      if PermsCovered(s.flights, q.tenant, q.user, e.stamp, e.basis.roles.version) {
        var f :| f in s.flights && CoversUser(s.flights[f].inv, q.tenant, q.user) && SourcePending(s.flights[f], e.stamp)
          && e.basis.roles.version < s.flights[f].since;
        assert Early(s.flights[f]);
      }
      JudgeOk(s, q, e.codes, e.basis);
    }
  }

  lemma TablesReadOk(d: Discipline, s: State, q: Query, at: Progress)
    requires ProgressOk(s, q, at) && (at.AtRoles? || at.AtMappings? || at.AtOverrides?)
    ensures AwaitOk(s, q, NextOfRbac(d, s, q, at))
  {
    match at
    case AtRoles =>
      if RolesNow(s, q.tenant, q.user) == {} { NoRolesGive(s, q.tenant, q.user); }
    case AtMappings(held, roles) =>
      if RolesOk(s, q.tenant, q.user, held, roles.time) { RolesGive(s, q.tenant, q.user, held, roles.time); }
    case AtOverrides(given, roles, _) =>
      if GivenOk(s, q.tenant, q.user, given, roles.time) { GivenLeaves(s, q.tenant, q.user, given, roles.time); }
  }

  lemma PermsStoreOk(d: Discipline, s: State, q: Query, at: Progress)
    requires ProgressOk(s, q, at) && at.AtStorePerms?
    ensures AwaitOk(s, q, NextOfRbac(d, s, q, at))
  {
    var version := at.basis.roles.version;
    if UserQueued(s.flights, q.tenant, q.user, version) {
      QueuedExcuses(s.flights, q.tenant, q.user, 0, version, version);
    }
    JudgeOk(s, q, at.codes, at.basis);
  }

  lemma AclAwaitOk(d: Discipline, s: State, q: Query, at: Progress)
    requires ProgressOk(s, q, at) && (at.AtAcl? || at.AtCount? || at.AtStoreAcl?)
    requires q in s.acl ==> AclOk(s, q, s.acl[q])
    ensures AwaitOk(s, q, Next(d, s, q, at))
  {
    match at
    case AtAcl(caller) =>
      if AclHit(s, q) {
        var e := s.acl[q];
        if AclCovered(s.flights, q, e.stamp, e.basis.version) {
          var f :| f in s.flights && CoversAcl(s.flights[f].inv, q) && SourcePending(s.flights[f], e.stamp)
            && e.basis.version < s.flights[f].since;
          assert Early(s.flights[f]);
        }
        ResumedOk(s, q, caller, e.allowed, e.basis);
      }
    case AtCount(caller) =>
    case AtStoreAcl(caller, found, counted) =>
      if AclQueued(s.flights, q, counted.version) { QueuedAclExcuses(s.flights, q, 0, counted.version, counted.version); }
      ResumedOk(s, q, caller, found, counted);
  }

  lemma AuthzStoreOk(d: Discipline, s: State, q: Query, at: Progress)
    requires ProgressOk(s, q, at) && at.AtStoreAuthz?
    ensures AwaitOk(s, q, Next(d, s, q, at))
  {
    if at.acl.None? && RbacOk(s, q, at.allowed, at.rbac.roles.time) {
      RbacDecides(s, q, at.allowed, at.rbac.roles.time);
    }
  }

  lemma NextOk(d: Discipline, s: State, c: nat)
    requires Inv(s) && c in s.checks
    ensures AwaitOk(s, s.checks[c].q, Next(d, s, s.checks[c].q, s.checks[c].at))
  {
    var q, at := s.checks[c].q, s.checks[c].at;
    assert CheckOk(s, s.checks[c]);
    if at.AtPerms? {
      PermsReadOk(d, s, q);
    } else if at.AtStorePerms? {
      PermsStoreOk(d, s, q, at);
    } else if at.AtStoreAuthz? {
      AuthzStoreOk(d, s, q, at);
    } else if Rank(at) > 4 {
      TablesReadOk(d, s, q, at);
    } else {
      AclAwaitOk(d, s, q, at);
    }
  }

  lemma WriteKeeps(s: State, q: Query, w: Write)
    requires Inv(s) && WriteOk(s, q, w)
    ensures Inv(Wrote(s, q, w))
  {
    var s' := Wrote(s, q, w);
    SameWorldValues(s, s');
    forall k | k in s'.perms ensures PermsOk(s', k, s'.perms[k]) {
      if k in s.perms && s'.perms[k] == s.perms[k] {
        assert PermsOk(s, k, s.perms[k]);
      } else if UserQueued(s.flights, k.0, k.1, s'.perms[k].basis.roles.version) {
        QueuedExcuses(s.flights, k.0, k.1, s'.writes, s'.perms[k].basis.roles.version, s'.perms[k].basis.roles.version);
      }
    }
    forall r | r in s'.acl ensures AclOk(s', r, s'.acl[r]) {
      if r in s.acl && s'.acl[r] == s.acl[r] {
        assert AclOk(s, r, s.acl[r]);
      } else if AclQueued(s.flights, r, s'.acl[r].basis.version) {
        QueuedAclExcuses(s.flights, r, s'.writes, s'.acl[r].basis.version, s'.acl[r].basis.version);
      }
    }
    forall r | r in s'.authz ensures AuthzOk(s', r, s'.authz[r]) {
      if r in s.authz && s'.authz[r] == s.authz[r] { assert AuthzOk(s, r, s.authz[r]); }
    }
    ChecksKept(s, s');
  }

  lemma MoveKeeps(s: State, c: nat, next: Option<Progress>)
    requires Inv(s) && c in s.checks && (next.Some? ==> ProgressOk(s, s.checks[c].q, next.value))
    ensures Inv(s.(checks := Moved(s.checks, c, next)))
  {
    var s' := s.(checks := Moved(s.checks, c, next));
    SameWorldAnnounced(s, s');
    SameWorldValues(s, s');
    forall k | k in s'.perms ensures PermsOk(s', k, s'.perms[k]) { assert PermsOk(s, k, s.perms[k]); }
    forall q | q in s'.acl ensures AclOk(s', q, s'.acl[q]) { assert AclOk(s, q, s.acl[q]); }
    forall q | q in s'.authz ensures AuthzOk(s', q, s'.authz[q]) { assert AuthzOk(s, q, s.authz[q]); }
    forall b | b in s'.checks ensures CheckOk(s', s'.checks[b]) {
      if b != c { assert CheckOk(s, s.checks[b]); }
      ProgressKept(s, s', s'.checks[b].q, s'.checks[b].at);
    }
    forall x | x in s'.txs ensures TxOk(s', s'.txs[x]) { assert TxOk(s, s.txs[x]); }
  }

  lemma AdvanceKeeps(d: Discipline, s: State, c: nat)
    requires Inv(s) && c in s.checks
    ensures Inv(AdvanceCheck(d, s, c))
  {
    var q := s.checks[c].q;
    var o := Next(d, s, q, s.checks[c].at);
    NextOk(d, s, c);
    WriteKeeps(s, q, o.write);
    var s1 := Wrote(s, q, o.write);
    if o.next.Some? {
      ProgressKept(s, s1, q, o.next.value);
    }
    MoveKeeps(s1, c, o.next);
  }

  /** Every step of a disciplined deployment keeps the caches coherent. */
  lemma StepKeepsCoherence(d: Discipline, s: State, l: Label)
    requires Disciplined(d) && Inv(s) && Enabled(d, s, l)
    ensures Inv(Step(d, s, l))
  {
    match l
    case Tick(dt) => TickKeeps(d, s, dt);
    case Emit(m) => EmitKeeps(d, s, m);
    case Commit(x) => CommitKeeps(d, s, x);
    case Abort(x) => AbortKeeps(d, s, x);
    case Purge => PurgeKeeps(d, s);
    case Found(_, _, _) => FoundingKeeps(d, s, l);
    case Replay(inv) => ReplayKeeps(d, s, inv);
    case Lose(f) =>
    case StartSource(f) => DeliveryKeeps(d, s, l);
    case FinishSource(f, _, _) => DeliveryKeeps(d, s, l);
    case StartDerived(f) => DeliveryKeeps(d, s, l);
    case FinishDerived(f, _) => DeliveryKeeps(d, s, l);
    case EvictPerms(_) => EvictKeeps(d, s, l);
    case EvictAcl(_) => EvictKeeps(d, s, l);
    case EvictAuthz(_) => EvictKeeps(d, s, l);
    case Begin(q) => if !AuthzHit(s, q) { BeganKeeps(s, q, AtPerms); }
    case BeginAcl(q) => BeganKeeps(s, q, AtAcl(None));
    case Advance(c) => AdvanceKeeps(d, s, c);
  }

  lemma {:induction false} RunKeepsCoherence(d: Discipline, s: State, labels: seq<Label>)
    requires Disciplined(d) && Inv(s) && CanRun(d, s, labels)
    ensures Inv(Run(d, s, labels))
    decreases |labels|
  {
    if labels != [] {
      StepKeepsCoherence(d, s, labels[0]);
      RunKeepsCoherence(d, Step(d, s, labels[0]), labels[1..]);
    }
  }

  lemma ReachableIsCoherent(d: Discipline, s: State)
    requires Disciplined(d) && Reachable(d, s)
    ensures Inv(s)
  {
    var db, now, labels :| WellFormed(db) && CanRun(d, Initial(db, now), labels) && Run(d, Initial(db, now), labels) == s;
    RunKeepsCoherence(d, Initial(db, now), labels);
  }
}
