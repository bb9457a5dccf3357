// The running system as a state machine: tables, three caches, events in flight,
// open transactions and checks in progress. Every `await` of a check, each of its
// table reads included, and both halves of every key scan of a consumer are
// separate steps.

module Protocol {
  import opened PermissionMatcher
  import opened Tables
  import opened Mutations
  import opened RowEdits

  const AUTHZ_TTL: Time := 300000
  const ACL_TTL: Time := 300000

  /**
   * What a deployment guarantees, and its two time parameters.
   *   lossless      no emitted event is lost
   *   afterCommit   a consumer starts on an event only once its transaction is over
   *   cascadeFree   a role deletion commits only while nobody is assigned the role
   *   quietSource   the source deletion of a change does not start while a check it
   *                 covers has read the tables before the change and not yet stored
   *   quietDerived  nor does the derived deletion, while such a check has not decided
   *   permsTtl      the configured lifetime of a cached permission set
   *   gap           the longest a check may take from its first read to its last write
   */
  datatype Discipline = Discipline(
    lossless: bool,
    afterCommit: bool,
    cascadeFree: bool,
    quietSource: bool,
    quietDerived: bool,
    permsTtl: nat,
    gap: nat)

  /** The committed tables at an instant; `version` counts the commits before it. */
  datatype Snapshot = Snapshot(time: Time, db: Db, version: nat)

  /** The tables each of the three reads of a permission set saw. */
  datatype Basis = Basis(roles: Snapshot, mappings: Snapshot, overrides: Snapshot)

  /** The permission set three reads amount to. */
  function MixedSet(b: Basis, tenant: Id, user: Id): set<string>
  {
    Overridden(b.overrides.db, tenant, user, PermissionsOf(b.mappings.db, HeldRoles(b.roles.db, tenant, user, b.roles.time)))
  }

  // Cached values. `stamp` numbers the write; `basis`, `rbac` and `acl` record
  // which tables the value was computed from. The stored data are the rest.
  datatype PermsEntry = PermsEntry(codes: set<string>, expires: Time, stamp: nat, basis: Basis)
  datatype AclEntry = AclEntry(allowed: bool, expires: Time, stamp: nat, basis: Snapshot)
  datatype AuthzEntry = AuthzEntry(allowed: bool, expires: Time, stamp: nat, rbac: Basis, acl: Option<Snapshot>)

  /** A consumer deletes the source keys, then the derived keys; each is a scan, then a delete. */
  datatype Stage = Queued | SourceScan(mark: nat) | SourceDone | DerivedScan(mark: nat)

  /** `since` is the first version of the tables with the announced change; 0 until it commits. */
  datatype Flight = Flight(inv: Invalidation, stage: Stage, since: nat)

  /** A handler has run: its rows have yet to land, its event is out already. */
  datatype Tx = Tx(edits: seq<Edit>, event: Option<Invalidation>, flight: nat)

  /** An RBAC denial that sends a check on to the ACL. */
  datatype Denial = Denial(codes: set<string>, rbac: Basis)

  /** Where a check is, and what it has read so far. An ACL check has no caller when it stands alone. */
  datatype Progress =
    | AtPerms
    | AtRoles
    | AtMappings(held: set<Id>, roles: Snapshot)
    | AtOverrides(given: set<Permission>, roles: Snapshot, mappings: Snapshot)
    | AtStorePerms(codes: set<string>, basis: Basis)
    | AtAcl(caller: Option<Denial>)
    | AtCount(caller: Option<Denial>)
    | AtStoreAcl(caller: Option<Denial>, found: bool, counted: Snapshot)
    | AtStoreAuthz(allowed: bool, rbac: Basis, acl: Option<Snapshot>)
  datatype Check = Check(q: Query, begun: Time, at: Progress)

  datatype State = State(
    db: Db,
    now: Time,
    version: nat,         // commits so far
    perms: map<(Id, Id), PermsEntry>,
    acl: map<Query, AclEntry>,
    authz: map<Query, AuthzEntry>,
    flights: map<nat, Flight>,
    txs: map<nat, Tx>,
    checks: map<nat, Check>,
    writes: nat,          // cache writes so far
    nextId: nat,          // next unused flight, transaction or check number
    purged: seq<UserRole>, // rows the purge has deleted
    seen: set<Snapshot>)  // every table state so far, with the time it held

  datatype Label =
    | Tick(dt: nat)
    | Emit(mutation: Mutation)
    | Commit(tx: nat)
    | Abort(tx: nat)
    | Purge
    | Found(tenant: Id, admin: Id, role: Option<Id>)
    | Replay(inv: Invalidation)
    | Lose(flight: nat)
    | StartSource(flight: nat)
    | FinishSource(flight: nat, alsoPerms: set<(Id, Id)>, alsoAcl: set<Query>)
    | StartDerived(flight: nat)
    | FinishDerived(flight: nat, also: set<Query>)
    | EvictPerms(key: (Id, Id))
    | EvictAcl(q: Query)
    | EvictAuthz(q: Query)
    | Begin(q: Query)
    | BeginAcl(q: Query)
    | Advance(check: nat)

  /** Nobody has asked anything about this user, as far as the system remembers. */
  ghost predicate Unasked(s: State, t: Id, u: Id)
  {
    && (t, u) !in s.perms
    && (forall q | q in s.authz :: !(q.tenant == t && q.user == u))
    && (forall c | c in s.checks :: !(s.checks[c].q.tenant == t && s.checks[c].q.user == u))
  }

  function Now(s: State): Snapshot { Snapshot(s.now, s.db, s.version) }

  function Initial(db: Db, now: Time): State
  {
    State(db, now, 0, map[], map[], map[], map[], map[], map[], 0, 0, [], {Snapshot(now, db, 0)})
  }

  // ---- cache reads: an entry is visible until it expires ----

  predicate PermsHit(s: State, tenant: Id, user: Id)
  {
    (tenant, user) in s.perms && s.now < s.perms[(tenant, user)].expires
  }

  predicate AclHit(s: State, q: Query)
  {
    q in s.acl && s.now < s.acl[q].expires
  }

  predicate AuthzHit(s: State, q: Query)
  {
    q in s.authz && s.now < s.authz[q].expires
  }

  // ---- one await of a check ----

  /** After the permission set is known: decide, or go on to the ACL. */
  function Judge(q: Query, codes: set<string>, rbac: Basis, granted: bool): Progress
  {
    if granted then AtStoreAuthz(true, rbac, None)
    else if q.HasResource() then AtAcl(Some(Denial(codes, rbac)))
    else AtStoreAuthz(false, rbac, None)
  }

  /** How many more awaits a check can need after this one. */
  function Rank(at: Progress): nat
  {
    match at
    case AtPerms => 8
    case AtRoles => 7
    case AtMappings(_, _) => 6
    case AtOverrides(_, _, _) => 5
    case AtStorePerms(_, _) => 4
    case AtAcl(_) => 3
    case AtCount(_) => 2
    case AtStoreAcl(_, _, _) => 1
    case AtStoreAuthz(_, _, _) => 0
  }

  /** A cache entry an await writes for its question. */
  datatype Write = NoWrite | WritePerms(perms: PermsEntry) | WriteAcl(acl: AclEntry) | WriteAuthz(authz: AuthzEntry)

  /** What one await does: the entry it writes, and where the check is afterwards, if it goes on. */
  datatype Await = Await(next: Option<Progress>, write: Write)

  function GoTo(at: Progress): Await { Await(Some(at), NoWrite) }

  /** The awaits of the permission set: read the cache, read the tables three times, store. */
  ghost function NextOfRbac(d: Discipline, s: State, q: Query, at: Progress): (o: Await)
    requires Rank(at) >= 4
    ensures o.next.Some? && Rank(o.next.value) < Rank(at)
  {
    match at
    case AtPerms =>
      if PermsHit(s, q.tenant, q.user) then
        var e := s.perms[(q.tenant, q.user)];
        GoTo(Judge(q, e.codes, e.basis, Grants(e.codes, q.permission)))
      else GoTo(AtRoles)
    case AtRoles =>
      var held := HeldRoles(s.db, q.tenant, q.user, s.now);
      if held == {} then GoTo(AtOverrides({}, Now(s), Now(s))) // the second query is skipped
      else GoTo(AtMappings(held, Now(s)))
    case AtMappings(held, roles) => GoTo(AtOverrides(PermissionsOf(s.db, held), roles, Now(s)))
    case AtOverrides(given, roles, mappings) =>
      GoTo(AtStorePerms(Overridden(s.db, q.tenant, q.user, given), Basis(roles, mappings, Now(s))))
    case AtStorePerms(codes, basis) =>
      Await(Some(Judge(q, codes, basis, Grants(codes, q.permission))),
              WritePerms(PermsEntry(codes, s.now + d.permsTtl, s.writes + 1, basis)))
  }

  /** With the ACL answer in hand: on to the decision, or back to whoever asked for it alone. */
  function Resumed(caller: Option<Denial>, found: bool, acl: Snapshot): Option<Progress>
  {
    match caller
    case Some(denial) => Some(AtStoreAuthz(found, denial.rbac, Some(acl)))
    case None => None
  }

  /** The awaits of the ACL answer, and the store of the decision. */
  ghost function Next(d: Discipline, s: State, q: Query, at: Progress): (o: Await)
    ensures o.next.Some? ==> Rank(o.next.value) < Rank(at)
  {
    match at
    case AtAcl(caller) =>
      if AclHit(s, q) then Await(Resumed(caller, s.acl[q].allowed, s.acl[q].basis), NoWrite) else GoTo(AtCount(caller))
    case AtCount(caller) => GoTo(AtStoreAcl(caller, AclAllows(s.db, q), Now(s)))
    case AtStoreAcl(caller, found, counted) =>
      Await(Resumed(caller, found, counted), WriteAcl(AclEntry(found, s.now + ACL_TTL, s.writes + 1, counted)))
    case AtStoreAuthz(allowed, rbac, acl) =>
      Await(None, WriteAuthz(AuthzEntry(allowed, s.now + AUTHZ_TTL, s.writes + 1, rbac, acl)))
    case _ => NextOfRbac(d, s, q, at)
  }

  function Wrote(s: State, q: Query, w: Write): (s': State)
    ensures s' == s.(perms := s'.perms, acl := s'.acl, authz := s'.authz, writes := s'.writes)
  {
    match w
    case NoWrite => s
    case WritePerms(e) => s.(perms := s.perms[(q.tenant, q.user) := e], writes := s.writes + 1)
    case WriteAcl(e) => s.(acl := s.acl[q := e], writes := s.writes + 1)
    case WriteAuthz(e) => s.(authz := s.authz[q := e], writes := s.writes + 1)
  }

  function Moved(checks: map<nat, Check>, c: nat, next: Option<Progress>): (r: map<nat, Check>)
    requires c in checks
    ensures forall b | b != c :: (b in r <==> b in checks) && (b in checks ==> r[b] == checks[b])
    ensures c in r <==> next.Some?
    ensures c in r ==> r[c] == checks[c].(at := next.value)
  {
    if next.Some? then checks[c := checks[c].(at := next.value)] else checks - {c}
  }

  /** One await: only the caches, the write count and the check itself move on. */
  ghost function AdvanceCheck(d: Discipline, s: State, c: nat): (s': State)
    requires c in s.checks
    ensures s' == s.(perms := s'.perms, acl := s'.acl, authz := s'.authz, checks := s'.checks, writes := s'.writes)
    ensures forall b | b != c :: (b in s'.checks <==> b in s.checks) && (b in s.checks ==> s'.checks[b] == s.checks[b])
    ensures c in s'.checks ==> s'.checks[c].q == s.checks[c].q && Rank(s'.checks[c].at) < Rank(s.checks[c].at)
  {
    var check := s.checks[c];
    var o := Next(d, s, check.q, check.at);
    Wrote(s, check.q, o.write).(checks := Moved(s.checks, c, o.next))
  }

  /** The decision a step returns to a caller, if it returns one. */
  function AnswerOf(s: State, l: Label): Option<(Query, bool)>
  {
    match l
    case Begin(q) => if AuthzHit(s, q) then Some((q, s.authz[q].allowed)) else None
    case Advance(c) =>
      if c in s.checks && s.checks[c].at.AtStoreAuthz? then Some((s.checks[c].q, s.checks[c].at.allowed)) else None
    case _ => None
  }

  /** The answer of an ACL check that stands alone, if the step returns one. */
  function AclAnswerOf(s: State, l: Label): Option<(Query, bool)>
  {
    match l
    case Advance(c) =>
      if c !in s.checks then None
      else
        (match s.checks[c].at
         case AtAcl(None) => if AclHit(s, s.checks[c].q) then Some((s.checks[c].q, s.acl[s.checks[c].q].allowed)) else None
         case AtStoreAcl(None, found, _) => Some((s.checks[c].q, found))
         case _ => None)
    case _ => None
  }

  // ---- consumers ----

  /** Keys a scan that began at `mark` deletes: all written by then, and any it happened to see. */
  predicate Deletes(covered: bool, stamp: nat, mark: nat, also: bool)
  {
    covered && (stamp <= mark || also)
  }

  function DeleteSource(s: State, inv: Invalidation, mark: nat, alsoPerms: set<(Id, Id)>, alsoAcl: set<Query>): State
  {
    s.(perms := map k | k in s.perms && !Deletes(CoversUser(inv, k.0, k.1), s.perms[k].stamp, mark, k in alsoPerms) :: s.perms[k],
       acl := map q | q in s.acl && !Deletes(CoversAcl(inv, q), s.acl[q].stamp, mark, q in alsoAcl) :: s.acl[q])
  }

  function DeleteDerived(s: State, inv: Invalidation, mark: nat, also: set<Query>): State
  {
    s.(authz := map q | q in s.authz && !Deletes(CoversDecision(inv, q), s.authz[q].stamp, mark, q in also) :: s.authz[q])
  }

  /** What a scan takes, entry by entry: of those its event covers, all written by its start, and any later one it saw. */
  lemma ScansTakeExactly(
      s: State, inv: Invalidation, mark: nat, alsoPerms: set<(Id, Id)>, alsoAcl: set<Query>, also: set<Query>, k: (Id, Id), q: Query)
    ensures var s' := DeleteSource(s, inv, mark, alsoPerms, alsoAcl);
            && (k in s'.perms <==> k in s.perms && !(CoversUser(inv, k.0, k.1) && (s.perms[k].stamp <= mark || k in alsoPerms)))
            && (q in s'.acl <==> q in s.acl && !(CoversAcl(inv, q) && (s.acl[q].stamp <= mark || q in alsoAcl)))
            && (k in s'.perms ==> s'.perms[k] == s.perms[k]) && (q in s'.acl ==> s'.acl[q] == s.acl[q])
    ensures var s' := DeleteDerived(s, inv, mark, also);
            && (q in s'.authz <==> q in s.authz && !(CoversDecision(inv, q) && (s.authz[q].stamp <= mark || q in also)))
            && (q in s'.authz ==> s'.authz[q] == s.authz[q])
  {
  }

  function SetStage(s: State, f: nat, stage: Stage): State
    requires f in s.flights
  {
    s.(flights := s.flights[f := s.flights[f].(stage := stage)])
  }

  /** The check has read the tables before the announced change and will store a source value from them. */
  predicate HoldsSource(check: Check, f: Flight)
  {
    var q := check.q;
    match check.at
    case AtMappings(_, roles) => CoversUser(f.inv, q.tenant, q.user) && roles.version < f.since
    case AtOverrides(_, roles, _) => CoversUser(f.inv, q.tenant, q.user) && roles.version < f.since
    case AtStorePerms(_, basis) => CoversUser(f.inv, q.tenant, q.user) && basis.roles.version < f.since
    case AtStoreAcl(_, _, counted) => CoversAcl(f.inv, q) && counted.version < f.since
    case _ => false
  }

  /** The check has such a value, read or cached, and will store a decision from it. */
  predicate HoldsDerived(check: Check, f: Flight)
  {
    var q := check.q;
    match check.at
    case AtAcl(Some(denial)) => CoversUser(f.inv, q.tenant, q.user) && denial.rbac.roles.version < f.since
    case AtCount(Some(denial)) => CoversUser(f.inv, q.tenant, q.user) && denial.rbac.roles.version < f.since
    case AtStoreAcl(Some(denial), _, _) => CoversUser(f.inv, q.tenant, q.user) && denial.rbac.roles.version < f.since
    case AtStoreAuthz(_, rbac, acl) =>
      || (CoversUser(f.inv, q.tenant, q.user) && rbac.roles.version < f.since)
      || (CoversAcl(f.inv, q) && acl.Some? && acl.value.version < f.since)
    case _ => false
  }

  // ---- steps ----

  function Launch(s: State, event: Option<Invalidation>): (s': State)
    ensures s' == s.(flights := s'.flights, nextId := s.nextId + 1)
  {
    if event.None? then s.(nextId := s.nextId + 1)
    else s.(flights := s.flights[s.nextId := Flight(event.value, Queued, 0)], nextId := s.nextId + 1)
  }

  /** A handler has run: its event is out, its transaction is still open. */
  function Open(s: State, edits: seq<Edit>, event: Option<Invalidation>): (s': State)
    ensures s' == s.(flights := s'.flights, txs := s'.txs, nextId := s.nextId + 1)
  {
    var s1 := Launch(s, event);
    s1.(txs := s1.txs[s.nextId := Tx(edits, event, s.nextId)])
  }

  /** The transaction's flight, wherever it is by now, announces a change that is there from `version` on. */
  function Marked(flights: map<nat, Flight>, tx: Tx, version: nat): map<nat, Flight>
  {
    if tx.event.Some? && tx.flight in flights then flights[tx.flight := flights[tx.flight].(since := version)] else flights
  }

  /** The rows land on the tables as they are now. */
  function Close(s: State, x: nat): State
    requires x in s.txs
  {
    var db' := Landed(s.db, s.txs[x].edits);
    s.(db := db', version := s.version + 1, txs := s.txs - {x},
       flights := Marked(s.flights, s.txs[x], s.version + 1),
       seen := s.seen + {Snapshot(s.now, db', s.version + 1)})
  }

  ghost predicate Enabled(d: Discipline, s: State, l: Label)
  {
    match l
    case Tick(dt) => forall c | c in s.checks :: s.now + dt <= s.checks[c].begun + d.gap
    case Emit(m) => Apply(s.db, m).Done?
    case Commit(x) =>
      x in s.txs && AdmitsAll(s.db, s.txs[x].edits) && (d.cascadeFree ==> CascadeFree(s.db, s.txs[x].edits))
    case Abort(x) => x in s.txs
    case Purge => true
    case Found(t, u, role) => // the ids are generated, so no question can have named them
      && t !in s.db.tenants && u !in s.db.users && Unasked(s, t, u)
      && (role.Some? ==> role.value in s.db.roles && s.db.roles[role.value].isSystem)
    case Replay(_) => true
    case Lose(f) => f in s.flights && !d.lossless
    case StartSource(f) =>
      && f in s.flights && s.flights[f].stage.Queued?
      && (d.afterCommit ==> forall x | x in s.txs :: s.txs[x].event.Some? ==> s.txs[x].flight != f)
      && (d.quietSource ==> forall c | c in s.checks :: !HoldsSource(s.checks[c], s.flights[f]))
    case FinishSource(f, _, _) => f in s.flights && s.flights[f].stage.SourceScan?
    case StartDerived(f) =>
      && f in s.flights && s.flights[f].stage.SourceDone?
      && (d.quietDerived ==> forall c | c in s.checks :: !HoldsDerived(s.checks[c], s.flights[f]))
    case FinishDerived(f, _) => f in s.flights && s.flights[f].stage.DerivedScan?
    case EvictPerms(_) => true
    case EvictAcl(_) => true
    case EvictAuthz(_) => true
    case Begin(_) => true
    case BeginAcl(_) => true
    case Advance(c) => c in s.checks
  }

  function Began(s: State, q: Query, at: Progress): State
  {
    s.(checks := s.checks[s.nextId := Check(q, s.now, at)], nextId := s.nextId + 1)
  }

  ghost function Step(d: Discipline, s: State, l: Label): State
    requires Enabled(d, s, l)
  {
    match l
    case Tick(dt) => s.(now := s.now + dt, seen := s.seen + {Snapshot(s.now + dt, s.db, s.version)})
    case Emit(m) => Open(s, EditsOf(s.db, m), Apply(s.db, m).event)
    case Commit(x) => Close(s, x)
    case Abort(x) => s.(txs := s.txs - {x})
    case Purge =>
      var db' := PurgeRows(s.db, s.now);
      s.(db := db', purged := s.purged + PurgedRows(s.db, s.now), seen := s.seen + {Snapshot(s.now, db', s.version)})
    case Found(t, u, role) =>
      var db' := Founded(s.db, t, u, role);
      s.(db := db', version := s.version + 1, seen := s.seen + {Snapshot(s.now, db', s.version + 1)})
    case Replay(inv) => Launch(s, Some(inv))
    case Lose(f) => s.(flights := s.flights - {f})
    case StartSource(f) => SetStage(s, f, SourceScan(s.writes))
    case FinishSource(f, alsoPerms, alsoAcl) =>
      SetStage(DeleteSource(s, s.flights[f].inv, s.flights[f].stage.mark, alsoPerms, alsoAcl), f, SourceDone)
    case StartDerived(f) => SetStage(s, f, DerivedScan(s.writes))
    case FinishDerived(f, also) =>
      DeleteDerived(s, s.flights[f].inv, s.flights[f].stage.mark, also).(flights := s.flights - {f})
    case EvictPerms(k) => s.(perms := s.perms - {k})
    case EvictAcl(q) => s.(acl := s.acl - {q})
    case EvictAuthz(q) => s.(authz := s.authz - {q})
    case Begin(q) => if AuthzHit(s, q) then s else Began(s, q, AtPerms)
    case BeginAcl(q) => Began(s, q, AtAcl(None))
    case Advance(c) => AdvanceCheck(d, s, c)
  }

  /** Only commits, the purge and foundings change the tables, only ticks move the clock. */
  lemma TablesAndClockExactly(d: Discipline, s: State, l: Label)
    requires Enabled(d, s, l)
    ensures Step(d, s, l).db ==
            match l
            case Commit(x) => Landed(s.db, s.txs[x].edits)
            case Purge => PurgeRows(s.db, s.now)
            case Found(tenant, admin, role) => Founded(s.db, tenant, admin, role)
            case _ => s.db
    ensures Step(d, s, l).now == if l.Tick? then s.now + l.dt else s.now
  {
  }

  /** An operation opens a transaction and its event is out at once; an abort takes only the transaction back. */
  lemma EventsOutliveAborts(d: Discipline, s: State, m: Mutation)
    requires Apply(s.db, m).Done? && s.nextId !in s.txs
    ensures var s1 := Step(d, s, Emit(m));
            && s1.txs == s.txs[s.nextId := Tx(EditsOf(s.db, m), Apply(s.db, m).event, s.nextId)]
            && s1.flights == (match Apply(s.db, m).event
                              case Some(inv) => s.flights[s.nextId := Flight(inv, Queued, 0)]
                              case None => s.flights)
            && Step(d, s1, Abort(s.nextId)) == s1.(txs := s.txs)
  {
    var s1 := Step(d, s, Emit(m));
    assert s1.txs - {s.nextId} == s.txs;
  }

  /** A replay, or an event from elsewhere, is one more in flight. */
  lemma ReplayExactly(d: Discipline, s: State, inv: Invalidation)
    ensures Step(d, s, Replay(inv)) == s.(flights := s.flights[s.nextId := Flight(inv, Queued, 0)], nextId := s.nextId + 1)
  {
  }

  /** An ACL check that stands alone answers from the cache where it can, and else goes on to count the rows. */
  lemma AclChecksReadTheCacheFirst(d: Discipline, s: State, q: Query)
    requires s.nextId !in s.checks
    ensures var s1 := Step(d, s, BeginAcl(q));
            && s1.checks == s.checks[s.nextId := Check(q, s.now, AtAcl(None))]
            && AclAnswerOf(s1, Advance(s.nextId)) == (if q in s.acl && s.now < s.acl[q].expires then Some((q, s.acl[q].allowed)) else None)
            && AdvanceCheck(d, s1, s.nextId).checks ==
               if q in s.acl && s.now < s.acl[q].expires then s.checks else s1.checks[s.nextId := Check(q, s.now, AtCount(None))]
  {
    var s1 := Began(s, q, AtAcl(None));
    assert s1.checks - {s.nextId} == s.checks;
  }

  // ---- runs ----

  ghost predicate CanRun(d: Discipline, s: State, labels: seq<Label>)
    decreases |labels|
  {
    labels == [] || (Enabled(d, s, labels[0]) && CanRun(d, Step(d, s, labels[0]), labels[1..]))
  }

  ghost function Run(d: Discipline, s: State, labels: seq<Label>): State
    requires CanRun(d, s, labels)
    decreases |labels|
  {
    if labels == [] then s else Run(d, Step(d, s, labels[0]), labels[1..])
  }

  /** `s` is what some run of well-formed tables with empty caches leads to. */
  ghost predicate Reachable(d: Discipline, s: State)
  {
    exists db, now, labels ::
      WellFormed(db) && CanRun(d, Initial(db, now), labels) && Run(d, Initial(db, now), labels) == s
  }

  lemma {:induction false} Joined(d: Discipline, s: State, first: seq<Label>, second: seq<Label>)
    requires CanRun(d, s, first) && CanRun(d, Run(d, s, first), second)
    ensures CanRun(d, s, first + second) && Run(d, s, first + second) == Run(d, Run(d, s, first), second)
    decreases |first|
  {
    if first == [] {
      assert first + second == second;
    } else {
      Joined(d, Step(d, s, first[0]), first[1..], second);
      assert (first + second)[1..] == first[1..] + second;
    }
  }

  lemma OneStep(d: Discipline, s: State, l: Label)
    requires Enabled(d, s, l)
    ensures CanRun(d, s, [l]) && Run(d, s, [l]) == Step(d, s, l)
  {
    assert [l][1..] == [];
    assert CanRun(d, Step(d, s, l), []);
  }

  lemma ReachableLater(d: Discipline, s: State, labels: seq<Label>)
    requires Reachable(d, s) && CanRun(d, s, labels)
    ensures Reachable(d, Run(d, s, labels))
  {
    var db, now, before :| WellFormed(db) && CanRun(d, Initial(db, now), before) && Run(d, Initial(db, now), before) == s;
    Joined(d, Initial(db, now), before, labels);
  }

  lemma Take(d: Discipline, s: State, l: Label) returns (s': State)
    requires Reachable(d, s) && Enabled(d, s, l)
    ensures s' == Step(d, s, l) && Reachable(d, s')
  {
    OneStep(d, s, l);
    ReachableLater(d, s, [l]);
    s' := Step(d, s, l);
  }
}
