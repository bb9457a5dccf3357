// A check that runs from its first await to its last with nothing in between: what
// it leaves, and that it is a run of the protocol's single awaits.

module WholeChecks {
  import opened PermissionMatcher
  import opened Tables
  import opened Protocol

  // ---- runs of one check ----

  function Advances(c: nat, n: nat): seq<Label>
  {
    if n == 0 then [] else [Advance(c)] + Advances(c, n - 1)
  }

  /** `n` awaits of check `c` take `s` to `s'`. */
  ghost predicate Leads(d: Discipline, s: State, c: nat, n: nat, s': State)
  {
    CanRun(d, s, Advances(c, n)) && Run(d, s, Advances(c, n)) == s'
  }

  lemma {:induction false} AdvancesSum(c: nat, m: nat, n: nat)
    ensures Advances(c, m) + Advances(c, n) == Advances(c, m + n)
  {
    if m > 0 {
      AdvancesSum(c, m - 1, n);
    }
  }

  lemma LeadsOn(d: Discipline, s: State, c: nat, m: nat, s1: State, n: nat, s2: State)
    requires Leads(d, s, c, m, s1) && Leads(d, s1, c, n, s2)
    ensures Leads(d, s, c, m + n, s2)
  {
    Joined(d, s, Advances(c, m), Advances(c, n));
    AdvancesSum(c, m, n);
  }

  lemma LeadsOnce(d: Discipline, s: State, c: nat)
    requires c in s.checks
    ensures Leads(d, s, c, 1, AdvanceCheck(d, s, c))
  {
    assert Advances(c, 1) == [Advance(c)];
    OneStep(d, s, Advance(c));
  }

  // Check `c` runs on top of the rest of the state.

  function At(s: State, c: nat, q: Query, begun: Time, at: Progress): State
  {
    s.(checks := s.checks[c := Check(q, begun, at)])
  }

  /** With its check gone, or moved on. */
  function Then(s: State, c: nat, q: Query, begun: Time, next: Option<Progress>): State
  {
    if next.Some? then At(s, c, q, begun, next.value) else s
  }

  /** What an await does depends on the tables, the clock and the caches alone. */
  lemma NextReadsNoChecks(d: Discipline, s: State, checks: map<nat, Check>, q: Query, at: Progress)
    ensures Next(d, s.(checks := checks), q, at) == Next(d, s, q, at)
  {
  }

  lemma WroteOnTop(s: State, checks: map<nat, Check>, q: Query, w: Write)
    ensures Wrote(s.(checks := checks), q, w) == Wrote(s, q, w).(checks := checks)
  {
  }

  lemma AwaitOnTop(d: Discipline, s: State, c: nat, q: Query, begun: Time, at: Progress)
    requires c !in s.checks
    ensures var o := Next(d, s, q, at);
            Leads(d, At(s, c, q, begun, at), c, 1, Then(Wrote(s, q, o.write), c, q, begun, o.next))
  {
    var o := Next(d, s, q, at);
    var checks := s.checks[c := Check(q, begun, at)];
    NextReadsNoChecks(d, s, checks, q, at);
    WroteOnTop(s, checks, q, o.write);
    LeadsOnce(d, At(s, c, q, begun, at), c);
    assert Moved(checks, c, o.next) == if o.next.Some? then s.checks[c := Check(q, begun, o.next.value)] else s.checks;
    assert Wrote(s, q, o.write).checks == s.checks;
    assert AdvanceCheck(d, At(s, c, q, begun, at), c) == Then(Wrote(s, q, o.write), c, q, begun, o.next);
  }

  // ---- the permission set ----

  /** The tables at one instant, for all three reads. */
  function AtOnce(s: State): Basis { Basis(Now(s), Now(s), Now(s)) }

  /** The permission set entry a check of `q` works with: cached, or computed now. */
  function PermsUsed(d: Discipline, s: State, q: Query): PermsEntry
  {
    if PermsHit(s, q.tenant, q.user) then s.perms[(q.tenant, q.user)]
    else PermsEntry(Effective(s.db, q.tenant, q.user, s.now), s.now + d.permsTtl, s.writes + 1, AtOnce(s))
  }

  function AfterPerms(d: Discipline, s: State, q: Query): State
  {
    if PermsHit(s, q.tenant, q.user) then s else Wrote(s, q, WritePerms(PermsUsed(d, s, q)))
  }

  function Loaded(s: State, q: Query): Progress
  {
    AtStorePerms(Effective(s.db, q.tenant, q.user, s.now), AtOnce(s))
  }

  /** The three reads, with nothing in between. */
  lemma TablesLead(d: Discipline, s: State, c: nat, q: Query, begun: Time) returns (n: nat)
    requires c !in s.checks
    ensures Leads(d, At(s, c, q, begun, AtRoles), c, n, At(s, c, q, begun, Loaded(s, q)))
  {
    var held := HeldRoles(s.db, q.tenant, q.user, s.now);
    var given := PermissionsOf(s.db, held);
    var last := At(s, c, q, begun, AtOverrides(given, Now(s), Now(s)));
    EffectiveInThreeReads(s.db, q.tenant, q.user, s.now);
    AwaitOnTop(d, s, c, q, begun, AtRoles);
    AwaitOnTop(d, s, c, q, begun, AtOverrides(given, Now(s), Now(s)));
    if held == {} {
      assert given == {};
      n := 2;
    } else {
      var middle := At(s, c, q, begun, AtMappings(held, Now(s)));
      AwaitOnTop(d, s, c, q, begun, AtMappings(held, Now(s)));
      LeadsOn(d, At(s, c, q, begun, AtRoles), c, 1, middle, 1, last);
      n := 3;
    }
    LeadsOn(d, At(s, c, q, begun, AtRoles), c, n - 1, last, 1, At(s, c, q, begun, Loaded(s, q)));
  }

  /** A missing set: the cache read, then the tables. */
  lemma MissLeads(d: Discipline, s: State, c: nat, q: Query, begun: Time) returns (n: nat)
    requires c !in s.checks && !PermsHit(s, q.tenant, q.user)
    ensures Leads(d, At(s, c, q, begun, AtPerms), c, n, At(s, c, q, begun, Loaded(s, q)))
  {
    AwaitOnTop(d, s, c, q, begun, AtPerms);
    var m := TablesLead(d, s, c, q, begun);
    LeadsOn(d, At(s, c, q, begun, AtPerms), c, 1, At(s, c, q, begun, AtRoles), m, At(s, c, q, begun, Loaded(s, q)));
    n := 1 + m;
  }

  ghost function Judged(d: Discipline, s: State, q: Query): Progress
  {
    var e := PermsUsed(d, s, q);
    Judge(q, e.codes, e.basis, Grants(e.codes, q.permission))
  }

  lemma StorePermsLeads(d: Discipline, s: State, c: nat, q: Query, begun: Time)
    requires c !in s.checks && !PermsHit(s, q.tenant, q.user)
    ensures Leads(d, At(s, c, q, begun, Loaded(s, q)), c, 1, At(AfterPerms(d, s, q), c, q, begun, Judged(d, s, q)))
  {
    AwaitOnTop(d, s, c, q, begun, Loaded(s, q));
  }

  lemma PermsLead(d: Discipline, s: State, c: nat, q: Query, begun: Time) returns (n: nat)
    requires c !in s.checks
    ensures Leads(d, At(s, c, q, begun, AtPerms), c, n, At(AfterPerms(d, s, q), c, q, begun, Judged(d, s, q)))
  {
    if PermsHit(s, q.tenant, q.user) {
      AwaitOnTop(d, s, c, q, begun, AtPerms);
      n := 1;
    } else {
      var m := MissLeads(d, s, c, q, begun);
      StorePermsLeads(d, s, c, q, begun);
      LeadsOn(d, At(s, c, q, begun, AtPerms), c, m, At(s, c, q, begun, Loaded(s, q)), 1,
              At(AfterPerms(d, s, q), c, q, begun, Judged(d, s, q)));
      n := m + 1;
    }
  }

  // ---- the ACL answer ----

  function AclUsed(s: State, q: Query): AclEntry
  {
    if AclHit(s, q) then s.acl[q] else AclEntry(AclAllows(s.db, q), s.now + ACL_TTL, s.writes + 1, Now(s))
  }

  function AfterAcl(s: State, q: Query): State
  {
    if AclHit(s, q) then s else Wrote(s, q, WriteAcl(AclUsed(s, q)))
  }

  lemma CountLeads(d: Discipline, s: State, c: nat, q: Query, begun: Time, caller: Option<Denial>)
    requires c !in s.checks && !AclHit(s, q)
    ensures var a := AclUsed(s, q);
            Leads(d, At(s, c, q, begun, AtAcl(caller)), c, 2, At(s, c, q, begun, AtStoreAcl(caller, a.allowed, a.basis)))
  {
    var a := AclUsed(s, q);
    AwaitOnTop(d, s, c, q, begun, AtAcl(caller));
    AwaitOnTop(d, s, c, q, begun, AtCount(caller));
    LeadsOn(d, At(s, c, q, begun, AtAcl(caller)), c, 1, At(s, c, q, begun, AtCount(caller)), 1,
            At(s, c, q, begun, AtStoreAcl(caller, a.allowed, a.basis)));
  }

  lemma StoreAclLeads(d: Discipline, s: State, c: nat, q: Query, begun: Time, caller: Option<Denial>)
    requires c !in s.checks && !AclHit(s, q)
    ensures var a := AclUsed(s, q);
            Leads(d, At(s, c, q, begun, AtStoreAcl(caller, a.allowed, a.basis)), c, 1,
                  Then(AfterAcl(s, q), c, q, begun, Resumed(caller, a.allowed, a.basis)))
  {
    var a := AclUsed(s, q);
    AwaitOnTop(d, s, c, q, begun, AtStoreAcl(caller, a.allowed, a.basis));
  }

  lemma AclLeads(d: Discipline, s: State, c: nat, q: Query, begun: Time, caller: Option<Denial>) returns (n: nat)
    requires c !in s.checks
    ensures var a := AclUsed(s, q);
            Leads(d, At(s, c, q, begun, AtAcl(caller)), c, n, Then(AfterAcl(s, q), c, q, begun, Resumed(caller, a.allowed, a.basis)))
  {
    if AclHit(s, q) {
      AwaitOnTop(d, s, c, q, begun, AtAcl(caller));
      n := 1;
    } else {
      var a := AclUsed(s, q);
      CountLeads(d, s, c, q, begun, caller);
      StoreAclLeads(d, s, c, q, begun, caller);
      LeadsOn(d, At(s, c, q, begun, AtAcl(caller)), c, 2, At(s, c, q, begun, AtStoreAcl(caller, a.allowed, a.basis)), 1,
              Then(AfterAcl(s, q), c, q, begun, Resumed(caller, a.allowed, a.basis)));
      n := 3;
    }
  }

  // ---- the decision ----

  function AfterAuthz(s: State, q: Query, allowed: bool, rbac: Basis, acl: Option<Snapshot>): State
  {
    Wrote(s, q, WriteAuthz(AuthzEntry(allowed, s.now + AUTHZ_TTL, s.writes + 1, rbac, acl)))
  }

  /** With the permission set entry `e` in hand: the rest of the check. */
  function AfterVerdict(s: State, q: Query, e: PermsEntry, granted: bool): (s': State)
    ensures s' == s.(acl := s'.acl, authz := s'.authz, writes := s'.writes)
    ensures q in s'.authz && s'.authz[q].rbac == e.basis
  {
    if !granted && q.HasResource() then
      AfterAuthz(AfterAcl(s, q), q, AclUsed(s, q).allowed, e.basis, Some(AclUsed(s, q).basis))
    else AfterAuthz(s, q, granted, e.basis, None)
  }

  lemma StoreAuthzLeads(d: Discipline, s: State, c: nat, q: Query, begun: Time, allowed: bool, rbac: Basis, acl: Option<Snapshot>)
    requires c !in s.checks
    ensures Leads(d, At(s, c, q, begun, AtStoreAuthz(allowed, rbac, acl)), c, 1, AfterAuthz(s, q, allowed, rbac, acl))
  {
    AwaitOnTop(d, s, c, q, begun, AtStoreAuthz(allowed, rbac, acl));
  }

  lemma ThenStoreAuthz(
      d: Discipline, s0: State, c: nat, m: nat, s: State, q: Query, begun: Time, allowed: bool, rbac: Basis, acl: Option<Snapshot>)
    requires c !in s.checks && Leads(d, s0, c, m, At(s, c, q, begun, AtStoreAuthz(allowed, rbac, acl)))
    ensures Leads(d, s0, c, m + 1, AfterAuthz(s, q, allowed, rbac, acl))
  {
    StoreAuthzLeads(d, s, c, q, begun, allowed, rbac, acl);
    LeadsOn(d, s0, c, m, At(s, c, q, begun, AtStoreAuthz(allowed, rbac, acl)), 1, AfterAuthz(s, q, allowed, rbac, acl));
  }

  lemma DenialLeads(d: Discipline, s: State, c: nat, q: Query, begun: Time, denial: Denial) returns (n: nat)
    requires c !in s.checks
    ensures var a := AclUsed(s, q);
            Leads(d, At(s, c, q, begun, AtAcl(Some(denial))), c, n,
                  AfterAuthz(AfterAcl(s, q), q, a.allowed, denial.rbac, Some(a.basis)))
  {
    var a := AclUsed(s, q);
    var m := AclLeads(d, s, c, q, begun, Some(denial));
    ThenStoreAuthz(d, At(s, c, q, begun, AtAcl(Some(denial))), c, m, AfterAcl(s, q), q, begun, a.allowed, denial.rbac, Some(a.basis));
    n := m + 1;
  }

  lemma VerdictLeads(d: Discipline, s: State, c: nat, q: Query, begun: Time, e: PermsEntry, granted: bool) returns (n: nat)
    requires c !in s.checks
    ensures Leads(d, At(s, c, q, begun, Judge(q, e.codes, e.basis, granted)), c, n, AfterVerdict(s, q, e, granted))
  {
    if !granted && q.HasResource() {
      n := DenialLeads(d, s, c, q, begun, Denial(e.codes, e.basis));
    } else {
      StoreAuthzLeads(d, s, c, q, begun, granted, e.basis, None);
      n := 1;
    }
  }

  // ---- the whole check ----

  ghost function AfterMiss(d: Discipline, s: State, q: Query): State
  {
    var e := PermsUsed(d, s, q);
    AfterVerdict(AfterPerms(d, s, q), q, e, Grants(e.codes, q.permission))
  }

  /** The state after a whole check, begun and finished with nothing in between. */
  ghost function AfterCheck(d: Discipline, s: State, q: Query): State
  {
    if AuthzHit(s, q) then s
    else AfterMiss(d, s.(nextId := s.nextId + 1), q)
  }

  /** Its answer: the decision it found or stored. */
  ghost function ServiceAnswer(d: Discipline, s: State, q: Query): bool
  {
    var s' := AfterCheck(d, s, q);
    q in s'.authz && s'.authz[q].allowed
  }

  lemma JudgedLeads(d: Discipline, s: State, c: nat, q: Query) returns (n: nat)
    requires c !in s.checks
    ensures Leads(d, At(AfterPerms(d, s, q), c, q, s.now, Judged(d, s, q)), c, n, AfterMiss(d, s, q))
  {
    var e := PermsUsed(d, s, q);
    n := VerdictLeads(d, AfterPerms(d, s, q), c, q, s.now, e, Grants(e.codes, q.permission));
  }

  /** Whatever led up to the judged set, the verdict follows. */
  lemma ThenVerdict(d: Discipline, s0: State, c: nat, m: nat, judged: State, s: State, q: Query) returns (n: nat)
    requires c !in s.checks && judged == At(AfterPerms(d, s, q), c, q, s.now, Judged(d, s, q)) && Leads(d, s0, c, m, judged)
    ensures Leads(d, s0, c, n, AfterMiss(d, s, q))
  {
    var k := JudgedLeads(d, s, c, q);
    LeadsOn(d, s0, c, m, judged, k, AfterMiss(d, s, q));
    n := m + k;
  }

  lemma MissRuns(d: Discipline, s: State, c: nat, q: Query) returns (n: nat)
    requires c !in s.checks
    ensures Leads(d, At(s, c, q, s.now, AtPerms), c, n, AfterMiss(d, s, q))
  {
    var m := PermsLead(d, s, c, q, s.now);
    n := ThenVerdict(d, At(s, c, q, s.now, AtPerms), c, m, At(AfterPerms(d, s, q), c, q, s.now, Judged(d, s, q)), s, q);
  }

  lemma BeginsCheck(d: Discipline, s: State, q: Query)
    requires !AuthzHit(s, q)
    ensures CanRun(d, s, [Begin(q)])
    ensures Run(d, s, [Begin(q)]) == At(s.(nextId := s.nextId + 1), s.nextId, q, s.now, AtPerms)
  {
    OneStep(d, s, Begin(q));
  }

  lemma BegunLeads(d: Discipline, s: State, q: Query, n: nat, s': State)
    requires !AuthzHit(s, q)
    requires Leads(d, At(s.(nextId := s.nextId + 1), s.nextId, q, s.now, AtPerms), s.nextId, n, s')
    ensures var labels := [Begin(q)] + Advances(s.nextId, n); CanRun(d, s, labels) && Run(d, s, labels) == s'
  {
    BeginsCheck(d, s, q);
    Joined(d, s, [Begin(q)], Advances(s.nextId, n));
  }

  /** Begun and advanced, a check ends in `s'`. */
  ghost predicate RunsTo(d: Discipline, s: State, q: Query, n: nat, s': State)
  {
    var labels := [Begin(q)] + Advances(s.nextId, n);
    CanRun(d, s, labels) && Run(d, s, labels) == s'
  }

  lemma MissIsRun(d: Discipline, s: State, base: State, q: Query) returns (n: nat)
    requires s.nextId !in s.checks && !AuthzHit(s, q) && base == s.(nextId := s.nextId + 1)
    ensures RunsTo(d, s, q, n, AfterMiss(d, base, q))
  {
    n := MissRuns(d, base, s.nextId, q);
    BegunLeads(d, s, q, n, AfterMiss(d, base, q));
  }

  lemma HitIsRun(d: Discipline, s: State, q: Query)
    requires AuthzHit(s, q)
    ensures RunsTo(d, s, q, 0, s)
  {
    OneStep(d, s, Begin(q));
    assert [Begin(q)] + Advances(s.nextId, 0) == [Begin(q)];
  }

  /** Begun and advanced await by await, from any state, the check ends there. */
  lemma AfterCheckIsRun(d: Discipline, s: State, q: Query) returns (n: nat)
    requires s.nextId !in s.checks
    ensures RunsTo(d, s, q, n, AfterCheck(d, s, q))
  {
    if AuthzHit(s, q) {
      n := 0;
      HitIsRun(d, s, q);
    } else {
      var base := s.(nextId := s.nextId + 1);
      n := MissIsRun(d, s, base, q);
      assert AfterCheck(d, s, q) == AfterMiss(d, base, q);
    }
  }
}
