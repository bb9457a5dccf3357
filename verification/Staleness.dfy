// How old an answer can be. This needs no discipline at all: events may be lost,
// early or never delivered, transactions and checks may interleave with everything.

module Staleness {
  import opened PermissionMatcher
  import opened Tables
  import opened Mutations
  import opened RowEdits
  import opened Protocol

  /** The age bounds on the RBAC half and the ACL half of an answer. */
  function RbacWindow(d: Discipline): Time { d.permsTtl + AUTHZ_TTL + 2 * d.gap }
  function AclWindow(d: Discipline): Time { ACL_TTL + AUTHZ_TTL + 2 * d.gap }

  /**
   * The answer is RBAC on what three reads saw, and where that denies a resource
   * request, the ACL row of the tables of `acl`.
   */
  ghost predicate Explained(q: Query, allowed: bool, rbac: Basis, acl: Option<Snapshot>)
  {
    if Grants(MixedSet(rbac, q.tenant, q.user), q.permission) then allowed
    else if q.HasResource() then acl.Some? && allowed == AclAllows(acl.value.db, q)
    else !allowed
  }

  /** Three states of this run, in this order, none before `from`, and no further apart than one check. */
  ghost predicate KnownBasis(d: Discipline, s: State, b: Basis, from: Time)
  {
    && b.roles in s.seen && b.mappings in s.seen && b.overrides in s.seen
    && from <= b.roles.time <= b.mappings.time <= b.overrides.time <= b.roles.time + d.gap
    && b.roles.version <= b.mappings.version <= b.overrides.version
  }

  ghost predicate Known(s: State, acl: Option<Snapshot>, from: Time)
  {
    acl.Some? ==> acl.value in s.seen && from <= acl.value.time
  }

  ghost predicate FreshPerms(d: Discipline, s: State, k: (Id, Id), e: PermsEntry)
  {
    KnownBasis(d, s, e.basis, e.expires - d.permsTtl - d.gap) && e.codes == MixedSet(e.basis, k.0, k.1)
  }

  ghost predicate FreshAcl(d: Discipline, s: State, q: Query, e: AclEntry)
  {
    Known(s, Some(e.basis), e.expires - ACL_TTL - d.gap) && e.allowed == AclAllows(e.basis.db, q)
  }

  ghost predicate FreshAuthz(d: Discipline, s: State, q: Query, e: AuthzEntry)
  {
    && KnownBasis(d, s, e.rbac, e.expires - RbacWindow(d)) && Known(s, e.acl, e.expires - AclWindow(d))
    && Explained(q, e.allowed, e.rbac, e.acl)
  }

  ghost predicate FreshCaller(d: Discipline, s: State, q: Query, begun: Time, caller: Option<Denial>)
  {
    caller.Some? ==>
      && q.HasResource() && KnownBasis(d, s, caller.value.rbac, begun - d.permsTtl - d.gap)
      && caller.value.codes == MixedSet(caller.value.rbac, q.tenant, q.user) && !Grants(caller.value.codes, q.permission)
  }

  ghost predicate FreshProgress(d: Discipline, s: State, q: Query, begun: Time, at: Progress)
  {
    match at
    case AtPerms => true
    case AtRoles => true
    case AtMappings(held, roles) =>
      roles in s.seen && begun <= roles.time && held == HeldRoles(roles.db, q.tenant, q.user, roles.time)
    case AtOverrides(given, roles, mappings) =>
      && roles in s.seen && mappings in s.seen && begun <= roles.time <= mappings.time && roles.version <= mappings.version
      && given == PermissionsOf(mappings.db, HeldRoles(roles.db, q.tenant, q.user, roles.time))
    case AtStorePerms(codes, basis) => KnownBasis(d, s, basis, begun) && codes == MixedSet(basis, q.tenant, q.user)
    case AtAcl(caller) => FreshCaller(d, s, q, begun, caller)
    case AtCount(caller) => FreshCaller(d, s, q, begun, caller)
    case AtStoreAcl(caller, found, counted) =>
      FreshCaller(d, s, q, begun, caller) && Known(s, Some(counted), begun) && found == AclAllows(counted.db, q)
    case AtStoreAuthz(allowed, rbac, acl) =>
      && KnownBasis(d, s, rbac, begun - d.permsTtl - d.gap) && Known(s, acl, begun - ACL_TTL - d.gap)
      && Explained(q, allowed, rbac, acl)
  }

  ghost predicate FreshCheck(d: Discipline, s: State, check: Check)
  {
    check.begun <= s.now <= check.begun + d.gap && FreshProgress(d, s, check.q, check.begun, check.at)
  }

  ghost predicate Inv(d: Discipline, s: State)
  {
    && Now(s) in s.seen
    && (forall sn | sn in s.seen :: sn.time <= s.now && sn.version <= s.version)
    && (forall k | k in s.perms :: FreshPerms(d, s, k, s.perms[k]))
    && (forall q | q in s.acl :: FreshAcl(d, s, q, s.acl[q]))
    && (forall q | q in s.authz :: FreshAuthz(d, s, q, s.authz[q]))
    && (forall c | c in s.checks :: FreshCheck(d, s, s.checks[c]))
  }

  // ---- steps that write no entry and advance no check ----

  ghost predicate Quiet(d: Discipline, s: State, s': State)
  {
    && s.seen <= s'.seen && Now(s') in s'.seen
    && (forall sn | sn in s'.seen :: sn.time <= s'.now && sn.version <= s'.version)
    && (forall k | k in s'.perms :: k in s.perms && s'.perms[k] == s.perms[k])
    && (forall q | q in s'.acl :: q in s.acl && s'.acl[q] == s.acl[q])
    && (forall q | q in s'.authz :: q in s.authz && s'.authz[q] == s.authz[q])
    && (forall c | c in s'.checks ::
          && s'.checks[c].begun <= s'.now <= s'.checks[c].begun + d.gap
          && ((c in s.checks && s'.checks[c] == s.checks[c]) || s'.checks[c].at.AtPerms? || s'.checks[c].at == AtAcl(None)))
  }

  lemma QuietStep(d: Discipline, s: State, s': State)
    requires Inv(d, s) && Quiet(d, s, s')
    ensures Inv(d, s')
  {
    forall k | k in s'.perms ensures FreshPerms(d, s', k, s'.perms[k]) { assert FreshPerms(d, s, k, s.perms[k]); }
    forall q | q in s'.acl ensures FreshAcl(d, s', q, s'.acl[q]) { assert FreshAcl(d, s, q, s.acl[q]); }
    forall q | q in s'.authz ensures FreshAuthz(d, s', q, s'.authz[q]) { assert FreshAuthz(d, s, q, s.authz[q]); }
    forall c | c in s'.checks ensures FreshCheck(d, s', s'.checks[c]) {
      if c in s.checks && s'.checks[c] == s.checks[c] { assert FreshCheck(d, s, s.checks[c]); }
    }
  }

  lemma ChecksInTime(d: Discipline, s: State)
    requires Inv(d, s)
    ensures forall c | c in s.checks :: s.checks[c].begun <= s.now <= s.checks[c].begun + d.gap
  {
    forall c | c in s.checks ensures s.checks[c].begun <= s.now <= s.checks[c].begun + d.gap { assert FreshCheck(d, s, s.checks[c]); }
  }

  /** The clock, and changes of the tables without an event. */
  lemma WorldLabels(d: Discipline, s: State, l: Label)
    requires Inv(d, s) && Enabled(d, s, l) && (l.Tick? || l.Purge? || l.Found?)
    ensures Inv(d, Step(d, s, l))
  {
    ChecksInTime(d, s);
    QuietStep(d, s, Step(d, s, l));
  }

  /** Deliveries, losses, replays, evictions and aborts. */
  lemma QuietLabels(d: Discipline, s: State, l: Label)
    requires Inv(d, s) && Enabled(d, s, l)
    requires !l.Advance? && !l.Emit? && !l.Commit? && !l.Begin? && !l.BeginAcl? && !l.Tick? && !l.Purge? && !l.Found?
    ensures Inv(d, Step(d, s, l))
  {
    ChecksInTime(d, s);
    QuietStep(d, s, Step(d, s, l));
  }

  lemma OpenKeepsFresh(d: Discipline, s: State, edits: seq<Edit>, event: Option<Invalidation>)
    requires Inv(d, s)
    ensures Inv(d, Open(s, edits, event))
  {
    ChecksInTime(d, s);
    QuietStep(d, s, Open(s, edits, event));
  }

  lemma CloseKeepsFresh(d: Discipline, s: State, x: nat)
    requires Inv(d, s) && x in s.txs
    ensures Inv(d, Close(s, x))
  {
    ChecksInTime(d, s);
    QuietStep(d, s, Close(s, x));
  }

  lemma BeganKeepsFresh(d: Discipline, s: State, q: Query, at: Progress)
    requires Inv(d, s) && (at.AtPerms? || at == AtAcl(None))
    ensures Inv(d, Began(s, q, at))
  {
    ChecksInTime(d, s);
    QuietStep(d, s, Began(s, q, at));
  }

  // ---- a check's own steps ----

  ghost predicate FreshWrite(d: Discipline, s: State, q: Query, w: Write)
  {
    match w
    case NoWrite => true
    case WritePerms(e) => FreshPerms(d, s, (q.tenant, q.user), e)
    case WriteAcl(e) => FreshAcl(d, s, q, e)
    case WriteAuthz(e) => FreshAuthz(d, s, q, e)
  }

  ghost predicate FreshAwait(d: Discipline, s: State, q: Query, begun: Time, o: Await)
  {
    FreshWrite(d, s, q, o.write) && (o.next.Some? ==> FreshProgress(d, s, q, begun, o.next.value))
  }

  lemma JudgeFresh(d: Discipline, s: State, q: Query, begun: Time, codes: set<string>, rbac: Basis)
    requires KnownBasis(d, s, rbac, begun - d.permsTtl - d.gap) && codes == MixedSet(rbac, q.tenant, q.user)
    ensures FreshProgress(d, s, q, begun, Judge(q, codes, rbac, Grants(codes, q.permission)))
  {
  }

  lemma ResumedFresh(d: Discipline, s: State, q: Query, begun: Time, caller: Option<Denial>, found: bool, acl: Snapshot)
    requires FreshCaller(d, s, q, begun, caller) && Known(s, Some(acl), begun - ACL_TTL - d.gap) && found == AclAllows(acl.db, q)
    ensures Resumed(caller, found, acl).Some? ==> FreshProgress(d, s, q, begun, Resumed(caller, found, acl).value)
  {
  }

  lemma RbacAwaitFresh(d: Discipline, s: State, q: Query, begun: Time, at: Progress)
    requires Rank(at) >= 4 && FreshProgress(d, s, q, begun, at) && begun <= s.now <= begun + d.gap
    requires Now(s) in s.seen && forall sn | sn in s.seen :: sn.time <= s.now && sn.version <= s.version
    requires (q.tenant, q.user) in s.perms ==> FreshPerms(d, s, (q.tenant, q.user), s.perms[(q.tenant, q.user)])
    ensures FreshAwait(d, s, q, begun, NextOfRbac(d, s, q, at))
  {
    match at
    case AtPerms =>
      if PermsHit(s, q.tenant, q.user) {
        var e := s.perms[(q.tenant, q.user)];
        JudgeFresh(d, s, q, begun, e.codes, e.basis);
      }
    case AtStorePerms(codes, basis) => JudgeFresh(d, s, q, begun, codes, basis);
    case _ =>
  }

  lemma AclAwaitFresh(d: Discipline, s: State, q: Query, begun: Time, at: Progress)
    requires Rank(at) < 4 && FreshProgress(d, s, q, begun, at) && begun <= s.now <= begun + d.gap
    requires Now(s) in s.seen
    requires q in s.acl ==> FreshAcl(d, s, q, s.acl[q])
    ensures FreshAwait(d, s, q, begun, Next(d, s, q, at))
  {
    match at
    case AtAcl(caller) =>
      if AclHit(s, q) { ResumedFresh(d, s, q, begun, caller, s.acl[q].allowed, s.acl[q].basis); }
    case AtStoreAcl(caller, found, counted) => ResumedFresh(d, s, q, begun, caller, found, counted);
    case _ =>
  }

  lemma AdvanceKeepsFresh(d: Discipline, s: State, c: nat)
    requires Inv(d, s) && c in s.checks
    ensures Inv(d, AdvanceCheck(d, s, c))
  {
    var check := s.checks[c];
    assert FreshCheck(d, s, check);
    if Rank(check.at) >= 4 {
      RbacAwaitFresh(d, s, check.q, check.begun, check.at);
    } else {
      AclAwaitFresh(d, s, check.q, check.begun, check.at);
    }
    var o := Next(d, s, check.q, check.at);
    WriteKeepsFresh(d, s, check.q, o.write);
    if o.next.Some? { SameHistoryProgress(d, s, Wrote(s, check.q, o.write), check.q, check.begun, o.next.value); }
    MoveKeepsFresh(d, Wrote(s, check.q, o.write), c, o.next);
  }

  /** Freshness of an entry or a progress reads nothing of a state but its history. */
  lemma SameHistory(d: Discipline, s: State, s': State)
    requires s'.seen == s.seen
    ensures forall k, e :: FreshPerms(d, s, k, e) ==> FreshPerms(d, s', k, e)
    ensures forall q, e :: FreshAcl(d, s, q, e) ==> FreshAcl(d, s', q, e)
    ensures forall q, e :: FreshAuthz(d, s, q, e) ==> FreshAuthz(d, s', q, e)
  {
  }

  lemma SameHistoryProgress(d: Discipline, s: State, s': State, q: Query, begun: Time, at: Progress)
    requires s'.seen == s.seen && FreshProgress(d, s, q, begun, at)
    ensures FreshProgress(d, s', q, begun, at)
  {
  }

  lemma EntriesStayFresh(d: Discipline, s: State, q: Query, w: Write)
    requires Inv(d, s) && FreshWrite(d, s, q, w)
    ensures var s' := Wrote(s, q, w);
            && (forall k | k in s'.perms :: FreshPerms(d, s, k, s'.perms[k]))
            && (forall r | r in s'.acl :: FreshAcl(d, s, r, s'.acl[r]))
            && (forall r | r in s'.authz :: FreshAuthz(d, s, r, s'.authz[r]))
  {
  }

  lemma WriteKeepsFresh(d: Discipline, s: State, q: Query, w: Write)
    requires Inv(d, s) && FreshWrite(d, s, q, w)
    ensures Inv(d, Wrote(s, q, w))
  {
    var s' := Wrote(s, q, w);
    SameHistory(d, s, s');
    EntriesStayFresh(d, s, q, w);
    ChecksStayFresh(d, s, s');
  }

  lemma ChecksStayFresh(d: Discipline, s: State, s': State)
    requires Inv(d, s) && s'.seen == s.seen && s'.now == s.now && s'.checks == s.checks
    ensures forall c | c in s'.checks :: FreshCheck(d, s', s'.checks[c])
  {
    forall c | c in s'.checks ensures FreshCheck(d, s', s'.checks[c]) {
      assert FreshCheck(d, s, s.checks[c]);
      SameHistoryProgress(d, s, s', s.checks[c].q, s.checks[c].begun, s.checks[c].at);
    }
  }

  lemma MoveKeepsFresh(d: Discipline, s: State, c: nat, next: Option<Progress>)
    requires Inv(d, s) && c in s.checks && (next.Some? ==> FreshProgress(d, s, s.checks[c].q, s.checks[c].begun, next.value))
    ensures Inv(d, s.(checks := Moved(s.checks, c, next)))
  {
    var s' := s.(checks := Moved(s.checks, c, next));
    SameHistory(d, s, s');
    assert forall k | k in s'.perms :: FreshPerms(d, s, k, s'.perms[k]);
    assert forall r | r in s'.acl :: FreshAcl(d, s, r, s'.acl[r]);
    assert forall r | r in s'.authz :: FreshAuthz(d, s, r, s'.authz[r]);
    assert FreshCheck(d, s, s.checks[c]);
    forall b | b in s'.checks ensures FreshCheck(d, s', s'.checks[b]) {
      if b != c { assert FreshCheck(d, s, s.checks[b]); }
      SameHistoryProgress(d, s, s', s'.checks[b].q, s'.checks[b].begun, s'.checks[b].at);
    }
  }

  /** Every step, under any discipline, keeps every entry and every check in progress fresh. */
  lemma StepKeepsFresh(d: Discipline, s: State, l: Label)
    requires Inv(d, s) && Enabled(d, s, l)
    ensures Inv(d, Step(d, s, l))
  {
    match l
    case Advance(c) => AdvanceKeepsFresh(d, s, c);
    case Emit(m) => OpenKeepsFresh(d, s, EditsOf(s.db, m), Apply(s.db, m).event);
    case Commit(x) => CloseKeepsFresh(d, s, x);
    case Begin(q) => if !AuthzHit(s, q) { BeganKeepsFresh(d, s, q, AtPerms); }
    case BeginAcl(q) => BeganKeepsFresh(d, s, q, AtAcl(None));
    case Tick(_) => WorldLabels(d, s, l);
    case Purge => WorldLabels(d, s, l);
    case Found(_, _, _) => WorldLabels(d, s, l);
    case _ => QuietLabels(d, s, l);
  }

  lemma {:induction false} RunKeepsFresh(d: Discipline, s: State, labels: seq<Label>)
    requires Inv(d, s) && CanRun(d, s, labels)
    ensures Inv(d, Run(d, s, labels))
    decreases |labels|
  {
    if labels != [] {
      StepKeepsFresh(d, s, labels[0]);
      RunKeepsFresh(d, Step(d, s, labels[0]), labels[1..]);
    }
  }

  lemma ReachableIsFresh(d: Discipline, s: State)
    requires Reachable(d, s)
    ensures Inv(d, s)
  {
    var db, now, labels :| WellFormed(db) && CanRun(d, Initial(db, now), labels) && Run(d, Initial(db, now), labels) == s;
    RunKeepsFresh(d, Initial(db, now), labels);
  }

  // ---- what an answer rests on ----

  /** What an answering step bases its answer on. */
  function BasisOf(s: State, l: Label): (Basis, Option<Snapshot>)
    requires AnswerOf(s, l).Some?
  {
    match l
    case Begin(q) => (s.authz[q].rbac, s.authz[q].acl)
    case Advance(c) => (s.checks[c].at.rbac, s.checks[c].at.acl)
  }

  /**
   * The staleness bound, under any delivery of events and any overlap of transactions:
   * every answer is RBAC on what three reads saw of tables no older than permsTtl +
   * 300 s + 2 gap, combined with the ACL of tables no older than 600 s + 2 gap, each a
   * table state the system really was in.
   */
  lemma AnswersAreRecent(d: Discipline, s: State, l: Label)
    requires Reachable(d, s) && Enabled(d, s, l) && AnswerOf(s, l).Some?
    ensures var (q, allowed) := AnswerOf(s, l).value;
            var (rbac, acl) := BasisOf(s, l);
            && Explained(q, allowed, rbac, acl)
            && KnownBasis(d, s, rbac, s.now - (d.permsTtl + 300000 + 2 * d.gap)) && rbac.overrides.time <= s.now
            && Known(s, acl, s.now - (600000 + 2 * d.gap)) && (acl.Some? ==> acl.value.time <= s.now)
  {
    ReachableIsFresh(d, s);
    match l
    case Begin(q) => assert FreshAuthz(d, s, q, s.authz[q]);
    case Advance(c) => assert FreshCheck(d, s, s.checks[c]);
  }

  /** Likewise for the permission set a reader such as the SDK sees. */
  lemma PermsAreRecent(d: Discipline, s: State, tenant: Id, user: Id)
    requires Reachable(d, s) && PermsHit(s, tenant, user)
    ensures var e := s.perms[(tenant, user)];
            && KnownBasis(d, s, e.basis, s.now - d.permsTtl - d.gap) && e.basis.overrides.time <= s.now
            && e.codes == MixedSet(e.basis, tenant, user)
  {
    ReachableIsFresh(d, s);
    assert FreshPerms(d, s, (tenant, user), s.perms[(tenant, user)]);
  }

  /** And for an ACL check that stands alone: its answer is the ACL of tables no older than 300 s + gap. */
  lemma AclAnswersAreRecent(d: Discipline, s: State, l: Label)
    requires Reachable(d, s) && Enabled(d, s, l) && AclAnswerOf(s, l).Some?
    ensures var (q, allowed) := AclAnswerOf(s, l).value;
            exists acl :: Known(s, Some(acl), s.now - (300000 + d.gap)) && allowed == AclAllows(acl.db, q)
  {
    ReachableIsFresh(d, s);
    var check := s.checks[l.check];
    assert FreshCheck(d, s, check);
    if check.at.AtAcl? {
      assert FreshAcl(d, s, check.q, s.acl[check.q]);
      assert Known(s, Some(s.acl[check.q].basis), s.now - (300000 + d.gap));
    } else {
      assert Known(s, Some(check.at.counted), s.now - (300000 + d.gap));
    }
  }

  /** The same from the side of an entry: left alone, a decision is there for exactly the 300000 ms after its write. */
  lemma DecisionRunsOut(d: Discipline, s: State, c: nat, t: nat)
    requires c in s.checks && s.checks[c].at.AtStoreAuthz?
    ensures var q, later := s.checks[c].q, AdvanceCheck(d, s, c).(now := s.now + t);
            (AuthzHit(later, q) <==> t < 300000) && later.authz[q].allowed == s.checks[c].at.allowed
  {
  }

  /** So is an ACL answer. */
  lemma AclAnswerRunsOut(d: Discipline, s: State, c: nat, t: nat)
    requires c in s.checks && s.checks[c].at.AtStoreAcl?
    ensures var q, later := s.checks[c].q, AdvanceCheck(d, s, c).(now := s.now + t);
            (AclHit(later, q) <==> t < 300000) && later.acl[q].allowed == s.checks[c].at.found
  {
  }

  /** A permission set is there for its configured lifetime. */
  lemma PermsRunOut(d: Discipline, s: State, c: nat, t: nat)
    requires c in s.checks && s.checks[c].at.AtStorePerms?
    ensures var q, later := s.checks[c].q, AdvanceCheck(d, s, c).(now := s.now + t);
            (PermsHit(later, q.tenant, q.user) <==> t < d.permsTtl) && later.perms[(q.tenant, q.user)].codes == s.checks[c].at.codes
  {
  }

  // ---- `seen` is the run's own history ----

  lemma {:induction false} RunPrefix(d: Discipline, s: State, labels: seq<Label>, n: nat)
    requires CanRun(d, s, labels) && n <= |labels|
    ensures CanRun(d, s, labels[..n])
    decreases n
  {
    if n > 0 {
      RunPrefix(d, Step(d, s, labels[0]), labels[1..], n - 1);
      assert labels[..n][1..] == labels[1..][..n - 1];
    }
  }

  /** `sn` is the clock and tables after the first `n` steps. */
  ghost predicate HeldAfter(d: Discipline, s: State, labels: seq<Label>, n: nat, sn: Snapshot)
  {
    n <= |labels| && CanRun(d, s, labels[..n]) && sn == Now(Run(d, s, labels[..n]))
  }

  lemma HeldLater(d: Discipline, s: State, labels: seq<Label>, n: nat, sn: Snapshot)
    requires labels != [] && CanRun(d, s, labels)
    requires HeldAfter(d, Step(d, s, labels[0]), labels[1..], n, sn)
    ensures HeldAfter(d, s, labels, n + 1, sn)
  {
    var some := labels[..n + 1];
    assert some[0] == labels[0] && some[1..] == labels[1..][..n];
    RunPrefix(d, s, labels, n + 1);
  }

  lemma StepAddsNow(d: Discipline, s: State, l: Label)
    requires Enabled(d, s, l)
    ensures Step(d, s, l).seen <= s.seen + {Now(Step(d, s, l))}
  {
    match l
    case Emit(m) => OpenAddsNothing(s, EditsOf(s.db, m), Apply(s.db, m).event);
    case _ =>
  }

  lemma OpenAddsNothing(s: State, edits: seq<Edit>, event: Option<Invalidation>)
    ensures Open(s, edits, event).seen == s.seen
  {
  }

  /** Nothing enters `seen` but table states of the run itself. */
  lemma {:induction false} SeenIsHistory(d: Discipline, s: State, labels: seq<Label>, sn: Snapshot)
    requires CanRun(d, s, labels) && sn in Run(d, s, labels).seen && sn !in s.seen
    ensures exists n: nat :: HeldAfter(d, s, labels, n, sn)
    decreases |labels|
  {
    if labels != [] {
      var s' := Step(d, s, labels[0]);
      StepAddsNow(d, s, labels[0]);
      if sn in s'.seen {
        assert labels[1..][..0] == [];
        assert HeldAfter(d, s', labels[1..], 0, sn);
        HeldLater(d, s, labels, 0, sn);
      } else {
        SeenIsHistory(d, s', labels[1..], sn);
        var n: nat :| HeldAfter(d, s', labels[1..], n, sn);
        HeldLater(d, s, labels, n, sn);
      }
    }
  }
}
