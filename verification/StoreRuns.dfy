// Every run of the protocol, checks split into their awaits included, on the
// string-keyed store: the store that the same writes, deletions and evictions leave
// represents the protocol's caches in each state.

module StoreRuns {
  import opened Tables
  import opened Mutations
  import opened Protocol
  import opened CacheKeys
  import opened CacheStore
  import opened Authorization

  /** Every key a state holds or will write is colon-free, and no resource field is "*". */
  ghost predicate AllClean(s: State)
  {
    && (forall k | k in s.perms :: ColonFree(k.0) && ColonFree(k.1))
    && (forall q | q in s.acl :: WellKeyed(q))
    && (forall q | q in s.authz :: WellKeyed(q))
    && (forall c | c in s.checks :: WellKeyed(s.checks[c].q))
  }

  /** The questions asked, the events announced and the keys evicted are clean too. */
  ghost predicate CleanLabel(l: Label)
  {
    match l
    case Begin(q) => WellKeyed(q)
    case BeginAcl(q) => WellKeyed(q)
    case EvictPerms(k) => ColonFree(k.0) && ColonFree(k.1)
    case EvictAcl(q) => WellKeyed(q)
    case EvictAuthz(q) => WellKeyed(q)
    case _ => true
  }

  // ---- the same step on the store ----

  function Stored(store: Store, q: Query, w: Write): Store
  {
    match w
    case NoWrite => store
    case WritePerms(e) => WithPerms(store, q.tenant, q.user, e.codes, e.expires)
    case WriteAcl(e) => WithFlag(store, AclKey(q), e.allowed, e.expires)
    case WriteAuthz(e) => WithFlag(store, AuthzKey(q), e.allowed, e.expires)
  }

  /** The strings a source deletion takes: what its scan or its key finds. */
  function SourceKeys(s: State, inv: Invalidation, mark: nat, alsoPerms: set<(Id, Id)>, alsoAcl: set<Query>): set<string>
  {
    (set k | k in s.perms && Deletes(CoversUser(inv, k.0, k.1), s.perms[k].stamp, mark, k in alsoPerms) :: PermsKey(k.0, k.1))
    + (set q | q in s.acl && Deletes(CoversAcl(inv, q), s.acl[q].stamp, mark, q in alsoAcl) :: AclKey(q))
  }

  function DerivedKeys(s: State, inv: Invalidation, mark: nat, also: set<Query>): set<string>
  {
    set q | q in s.authz && Deletes(CoversDecision(inv, q), s.authz[q].stamp, mark, q in also) :: AuthzKey(q)
  }

  ghost function StoreStep(d: Discipline, s: State, store: Store, l: Label): Store
    requires Enabled(d, s, l)
  {
    match l
    case Advance(c) => Stored(store, s.checks[c].q, Next(d, s, s.checks[c].q, s.checks[c].at).write)
    case FinishSource(f, alsoPerms, alsoAcl) =>
      store - SourceKeys(s, s.flights[f].inv, s.flights[f].stage.mark, alsoPerms, alsoAcl)
    case FinishDerived(f, also) => store - DerivedKeys(s, s.flights[f].inv, s.flights[f].stage.mark, also)
    case EvictPerms(k) => store - {PermsKey(k.0, k.1)}
    case EvictAcl(q) => store - {AclKey(q)}
    case EvictAuthz(q) => store - {AuthzKey(q)}
    case _ => store
  }

  ghost function StoreRun(d: Discipline, s: State, store: Store, labels: seq<Label>): Store
    requires CanRun(d, s, labels)
    decreases |labels|
  {
    if labels == [] then store
    else StoreRun(d, Step(d, s, labels[0]), StoreStep(d, s, store, labels[0]), labels[1..])
  }

  // ---- what the deletions take are the event's own strings ----

  /** Every string a source deletion takes is one the event's key or pattern matches. */
  lemma SourceKeysMatch(s: State, inv: Invalidation, mark: nat, alsoPerms: set<(Id, Id)>, alsoAcl: set<Query>)
    requires AllClean(s) && WellKeyedEvent(inv)
    ensures forall key | key in SourceKeys(s, inv, mark, alsoPerms, alsoAcl) :: RemovesSource(inv, key)
    ensures forall k | k in s.perms && RemovesSource(inv, PermsKey(k.0, k.1)) && s.perms[k].stamp <= mark ::
              PermsKey(k.0, k.1) in SourceKeys(s, inv, mark, alsoPerms, alsoAcl)
    ensures forall q | q in s.acl && RemovesSource(inv, AclKey(q)) && s.acl[q].stamp <= mark ::
              AclKey(q) in SourceKeys(s, inv, mark, alsoPerms, alsoAcl)
  {
    forall k | k in s.perms ensures RemovesSource(inv, PermsKey(k.0, k.1)) <==> CoversUser(inv, k.0, k.1) {
      RemovesPerms(inv, k.0, k.1);
    }
    forall q | q in s.acl ensures RemovesSource(inv, AclKey(q)) <==> CoversAcl(inv, q) { RemovesAcl(inv, q); }
  }

  /** Likewise for a derived deletion. */
  lemma DerivedKeysMatch(s: State, inv: Invalidation, mark: nat, also: set<Query>)
    requires AllClean(s) && WellKeyedEvent(inv)
    ensures forall key | key in DerivedKeys(s, inv, mark, also) :: RemovesDerived(inv, key)
    ensures forall q | q in s.authz && RemovesDerived(inv, AuthzKey(q)) && s.authz[q].stamp <= mark ::
              AuthzKey(q) in DerivedKeys(s, inv, mark, also)
  {
    forall q | q in s.authz ensures RemovesDerived(inv, AuthzKey(q)) <==> CoversDecision(inv, q) { RemovesAuthz(inv, q); }
  }

  // ---- each step ----

  lemma WriteRepresents(store: Store, s: State, q: Query, w: Write)
    requires Represents(store, s) && WellKeyed(q)
    ensures Represents(Stored(store, q, w), Wrote(s, q, w))
  {
    match w
    case NoWrite =>
    case WritePerms(e) => StorePermsRepresents(store, s.perms, s.acl, s.authz, q.tenant, q.user, e);
    case WriteAcl(e) => StoreAclRepresents(store, s.perms, s.acl, s.authz, q, e);
    case WriteAuthz(e) => StoreAuthzRepresents(store, s.perms, s.acl, s.authz, q, e);
  }

  /** Deleting the strings of some entries deletes those entries and no other. */
  lemma DeletionRepresents(store: Store, s: State, s': State, gone: set<string>)
    requires Represents(store, s)
    requires forall t, u | ColonFree(t) && ColonFree(u) ::
               ((t, u) in s'.perms <==> (t, u) in s.perms && PermsKey(t, u) !in gone)
               && ((t, u) in s'.perms ==> s'.perms[(t, u)] == s.perms[(t, u)])
    requires forall q | WellKeyed(q) ::
               (q in s'.acl <==> q in s.acl && AclKey(q) !in gone) && (q in s'.acl ==> s'.acl[q] == s.acl[q])
    requires forall q | WellKeyed(q) ::
               (q in s'.authz <==> q in s.authz && AuthzKey(q) !in gone) && (q in s'.authz ==> s'.authz[q] == s.authz[q])
    ensures Represents(store - gone, s')
  {
    forall t, u | ColonFree(t) && ColonFree(u) ensures PermsAgree(store - gone, s'.perms, t, u) {
      assert PermsAgree(store, s.perms, t, u);
    }
    forall q | WellKeyed(q) ensures AclAgrees(store - gone, s'.acl, q) && AuthzAgrees(store - gone, s'.authz, q) {
      assert AclAgrees(store, s.acl, q) && AuthzAgrees(store, s.authz, q);
    }
  }

  lemma SourceTakesPerms(s: State, inv: Invalidation, mark: nat, alsoPerms: set<(Id, Id)>, alsoAcl: set<Query>, t: Id, u: Id)
    requires AllClean(s) && ColonFree(t) && ColonFree(u) && (t, u) in s.perms
    ensures PermsKey(t, u) in SourceKeys(s, inv, mark, alsoPerms, alsoAcl) <==>
            Deletes(CoversUser(inv, t, u), s.perms[(t, u)].stamp, mark, (t, u) in alsoPerms)
  {
    forall k: (Id, Id) | k in s.perms ensures PermsKey(k.0, k.1) == PermsKey(t, u) <==> k == (t, u) {
      PermsKeyInjective(k.0, k.1, t, u);
    }
    forall q | q in s.acl ensures AclKey(q) != PermsKey(t, u) { KeySpacesDisjoint(t, u, q, q); }
  }

  lemma SourceTakesAcl(s: State, inv: Invalidation, mark: nat, alsoPerms: set<(Id, Id)>, alsoAcl: set<Query>, q: Query)
    requires AllClean(s) && WellKeyed(q)
    ensures q in s.acl ==> (AclKey(q) in SourceKeys(s, inv, mark, alsoPerms, alsoAcl) <==>
                            Deletes(CoversAcl(inv, q), s.acl[q].stamp, mark, q in alsoAcl))
    ensures AuthzKey(q) !in SourceKeys(s, inv, mark, alsoPerms, alsoAcl)
  {
    forall r | r in s.acl ensures (AclKey(r) == AclKey(q) <==> r == q) && AclKey(r) != AuthzKey(q) {
      AclKeyInjective(r, q);
      KeySpacesDisjoint(q.tenant, q.user, q, r);
    }
    forall k: (Id, Id) | k in s.perms ensures PermsKey(k.0, k.1) != AclKey(q) && PermsKey(k.0, k.1) != AuthzKey(q) {
      KeySpacesDisjoint(k.0, k.1, q, q);
    }
  }

  lemma SourceStepRepresents(store: Store, s: State, inv: Invalidation, mark: nat, alsoPerms: set<(Id, Id)>, alsoAcl: set<Query>)
    requires Represents(store, s) && AllClean(s)
    ensures Represents(store - SourceKeys(s, inv, mark, alsoPerms, alsoAcl), DeleteSource(s, inv, mark, alsoPerms, alsoAcl))
  {
    var gone, s' := SourceKeys(s, inv, mark, alsoPerms, alsoAcl), DeleteSource(s, inv, mark, alsoPerms, alsoAcl);
    forall t, u | ColonFree(t) && ColonFree(u) && (t, u) in s.perms
      ensures (t, u) in s'.perms <==> PermsKey(t, u) !in gone
    {
      SourceTakesPerms(s, inv, mark, alsoPerms, alsoAcl, t, u);
    }
    forall q | WellKeyed(q)
      ensures q in s.acl ==> (q in s'.acl <==> AclKey(q) !in gone)
      ensures AuthzKey(q) !in gone
    {
      SourceTakesAcl(s, inv, mark, alsoPerms, alsoAcl, q);
    }
    DeletionRepresents(store, s, s', gone);
  }

  lemma DerivedStepRepresents(store: Store, s: State, inv: Invalidation, mark: nat, also: set<Query>)
    requires Represents(store, s) && AllClean(s)
    ensures Represents(store - DerivedKeys(s, inv, mark, also), DeleteDerived(s, inv, mark, also))
  {
    var gone, s' := DerivedKeys(s, inv, mark, also), DeleteDerived(s, inv, mark, also);
    forall t, u | ColonFree(t) && ColonFree(u) ensures PermsKey(t, u) !in gone {
      forall q | q in s.authz ensures AuthzKey(q) != PermsKey(t, u) { KeySpacesDisjoint(t, u, q, q); }
    }
    forall q | WellKeyed(q)
      ensures AclKey(q) !in gone
      ensures q in s.authz ==> (AuthzKey(q) in gone <==> Deletes(CoversDecision(inv, q), s.authz[q].stamp, mark, q in also))
    {
      forall r | r in s.authz ensures (AuthzKey(r) == AuthzKey(q) <==> r == q) && AuthzKey(r) != AclKey(q) {
        AuthzKeyExactly(r, q);
        KeySpacesDisjoint(q.tenant, q.user, r, q);
      }
    }
    DeletionRepresents(store, s, s', gone);
  }

  /** The string an eviction takes. */
  function EvictedKey(l: Label): string
    requires l.EvictPerms? || l.EvictAcl? || l.EvictAuthz?
  {
    if l.EvictPerms? then PermsKey(l.key.0, l.key.1) else if l.EvictAcl? then AclKey(l.q) else AuthzKey(l.q)
  }

  lemma EvictsPerms(l: Label, t: Id, u: Id)
    requires (l.EvictPerms? || l.EvictAcl? || l.EvictAuthz?) && CleanLabel(l) && ColonFree(t) && ColonFree(u)
    ensures PermsKey(t, u) == EvictedKey(l) <==> l == EvictPerms((t, u))
  {
    if l.EvictPerms? {
      PermsKeyInjective(l.key.0, l.key.1, t, u);
    } else {
      KeySpacesDisjoint(t, u, l.q, l.q);
    }
  }

  lemma EvictsFlag(l: Label, q: Query)
    requires (l.EvictPerms? || l.EvictAcl? || l.EvictAuthz?) && CleanLabel(l) && WellKeyed(q)
    ensures AclKey(q) == EvictedKey(l) <==> l == EvictAcl(q)
    ensures AuthzKey(q) == EvictedKey(l) <==> l == EvictAuthz(q)
  {
    if l.EvictPerms? {
      KeySpacesDisjoint(l.key.0, l.key.1, q, q);
    } else {
      AclKeyInjective(l.q, q);
      AuthzKeyExactly(l.q, q);
      KeySpacesDisjoint(q.tenant, q.user, q, l.q);
      KeySpacesDisjoint(q.tenant, q.user, l.q, q);
    }
  }

  lemma EvictionRepresents(d: Discipline, store: Store, s: State, l: Label)
    requires Represents(store, s) && CleanLabel(l) && (l.EvictPerms? || l.EvictAcl? || l.EvictAuthz?)
    ensures Represents(StoreStep(d, s, store, l), Step(d, s, l))
  {
    forall t, u | ColonFree(t) && ColonFree(u) ensures PermsKey(t, u) == EvictedKey(l) <==> l == EvictPerms((t, u)) {
      EvictsPerms(l, t, u);
    }
    forall q | WellKeyed(q)
      ensures AclKey(q) == EvictedKey(l) <==> l == EvictAcl(q)
      ensures AuthzKey(q) == EvictedKey(l) <==> l == EvictAuthz(q)
    {
      EvictsFlag(l, q);
    }
    DeletionRepresents(store, s, Step(d, s, l), {EvictedKey(l)});
  }

  /** Deleting and evicting leave only clean keys. */
  lemma RemovalStaysClean(d: Discipline, s: State, l: Label)
    requires AllClean(s) && Enabled(d, s, l)
    requires l.FinishSource? || l.FinishDerived? || l.EvictPerms? || l.EvictAcl? || l.EvictAuthz?
    ensures AllClean(Step(d, s, l))
  {
  }

  lemma AdvanceStaysClean(d: Discipline, s: State, c: nat)
    requires AllClean(s) && c in s.checks
    ensures AllClean(AdvanceCheck(d, s, c))
  {
    var s', q := AdvanceCheck(d, s, c), s.checks[c].q;
    assert forall b | b in s'.checks :: b in s.checks && s'.checks[b].q == s.checks[b].q;
    WroteStaysClean(s, q, Next(d, s, q, s.checks[c].at).write);
  }

  lemma WroteStaysClean(s: State, q: Query, w: Write)
    requires AllClean(s) && WellKeyed(q)
    ensures AllClean(Wrote(s, q, w))
  {
  }

  lemma AdvanceRepresents(d: Discipline, store: Store, s: State, c: nat)
    requires Represents(store, s) && AllClean(s) && c in s.checks
    ensures Represents(StoreStep(d, s, store, Advance(c)), AdvanceCheck(d, s, c)) && AllClean(AdvanceCheck(d, s, c))
  {
    var q := s.checks[c].q;
    WriteRepresents(store, s, q, Next(d, s, q, s.checks[c].at).write);
    AdvanceStaysClean(d, s, c);
  }

  /** Steps that touch no cache and begin no check. */
  lemma OtherStepRepresents(d: Discipline, store: Store, s: State, l: Label)
    requires Represents(store, s) && AllClean(s) && Enabled(d, s, l)
    requires !l.Advance? && !l.FinishSource? && !l.FinishDerived? && !l.EvictPerms? && !l.EvictAcl? && !l.EvictAuthz?
    requires !l.Begin? && !l.BeginAcl?
    ensures Represents(store, Step(d, s, l)) && AllClean(Step(d, s, l))
  {
  }

  lemma BeginRepresents(d: Discipline, store: Store, s: State, l: Label)
    requires Represents(store, s) && AllClean(s) && Enabled(d, s, l) && CleanLabel(l) && (l.Begin? || l.BeginAcl?)
    ensures Represents(store, Step(d, s, l)) && AllClean(Step(d, s, l))
  {
  }

  lemma StepRepresents(d: Discipline, store: Store, s: State, l: Label)
    requires Represents(store, s) && AllClean(s) && Enabled(d, s, l) && CleanLabel(l)
    ensures Represents(StoreStep(d, s, store, l), Step(d, s, l)) && AllClean(Step(d, s, l))
  {
    if l.Advance? {
      AdvanceRepresents(d, store, s, l.check);
    } else if l.FinishSource? || l.FinishDerived? || l.EvictPerms? || l.EvictAcl? || l.EvictAuthz? {
      RemovalStaysClean(d, s, l);
      RemovalRepresents(d, store, s, l);
    } else if l.Begin? || l.BeginAcl? {
      BeginRepresents(d, store, s, l);
    } else {
      OtherStepRepresents(d, store, s, l);
    }
  }

  lemma RemovalRepresents(d: Discipline, store: Store, s: State, l: Label)
    requires Represents(store, s) && AllClean(s) && Enabled(d, s, l) && CleanLabel(l)
    requires l.FinishSource? || l.FinishDerived? || l.EvictPerms? || l.EvictAcl? || l.EvictAuthz?
    ensures Represents(StoreStep(d, s, store, l), Step(d, s, l))
  {
    match l
    case FinishSource(f, alsoPerms, alsoAcl) =>
      SourceStepRepresents(store, s, s.flights[f].inv, s.flights[f].stage.mark, alsoPerms, alsoAcl);
    case FinishDerived(f, also) => DerivedStepRepresents(store, s, s.flights[f].inv, s.flights[f].stage.mark, also);
    case _ => EvictionRepresents(d, store, s, l);
  }

  /** From any state a store represents, every run with clean labels has a store that represents where it ends. */
  lemma {:induction false} RunRepresents(d: Discipline, store: Store, s: State, labels: seq<Label>)
    requires Represents(store, s) && AllClean(s) && CanRun(d, s, labels) && forall l | l in labels :: CleanLabel(l)
    ensures Represents(StoreRun(d, s, store, labels), Run(d, s, labels)) && AllClean(Run(d, s, labels))
    decreases |labels|
  {
    if labels != [] {
      StepRepresents(d, store, s, labels[0]);
      RunRepresents(d, StoreStep(d, s, store, labels[0]), Step(d, s, labels[0]), labels[1..]);
    }
  }

  /** So from an empty store on. */
  lemma EveryRunHasItsStore(d: Discipline, db: Db, now: Time, labels: seq<Label>)
    requires CanRun(d, Initial(db, now), labels) && forall l | l in labels :: CleanLabel(l)
    ensures Represents(StoreRun(d, Initial(db, now), map[], labels), Run(d, Initial(db, now), labels))
  {
    RunRepresents(d, map[], Initial(db, now), labels);
  }
}
