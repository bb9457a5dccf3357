// The authorization check over the string-keyed cache and the database, and its
// agreement with the protocol's check and with the reference decision.

module Authorization {
  import opened PermissionMatcher
  import opened Tables
  import opened Protocol
  import opened WholeChecks
  import opened CacheKeys
  import opened CacheStore
  import opened RbacServices
  import Faithfulness
  import Coherence
  import Agreement

  datatype Source = FromCache | FromRbac | FromAcl | FromNone
  datatype Answer = Answer(allowed: bool, source: Source)

  // ---- what one uninterrupted check does to the store ----

  function CodesIn(store: Store, tenant: Id, user: Id, now: Time): Option<set<string>>
  {
    match Read(store, PermsKey(tenant, user), now)
    case Some(Codes(codes)) => Some(codes)
    case _ => None
  }

  function FlagIn(store: Store, key: string, now: Time): Option<bool>
  {
    match Read(store, key, now)
    case Some(Flag(flag)) => Some(flag)
    case _ => None
  }

  function WithPerms(store: Store, tenant: Id, user: Id, codes: set<string>, expires: Time): Store
  {
    store[PermsKey(tenant, user) := Cached(Codes(codes), expires)]
  }

  function WithFlag(store: Store, key: string, flag: bool, expires: Time): Store
  {
    store[key := Cached(Flag(flag), expires)]
  }

  /** The permission set a check works with, and the store after fetching it. */
  function FetchPerms(store: Store, ttlMs: nat, db: Db, now: Time, q: Query): (Store, set<string>)
  {
    match CodesIn(store, q.tenant, q.user, now)
    case Some(codes) => (store, codes)
    case None =>
      var codes := Effective(db, q.tenant, q.user, now);
      (WithPerms(store, q.tenant, q.user, codes, now + ttlMs), codes)
  }

  function FetchAcl(store: Store, db: Db, now: Time, q: Query): (Store, bool)
  {
    match FlagIn(store, AclKey(q), now)
    case Some(found) => (store, found)
    case None => (WithFlag(store, AclKey(q), AclAllows(db, q), now + ACL_TTL), AclAllows(db, q))
  }

  /** With the permission set in hand: RBAC, then the ACL, then the decision is stored. */
  ghost function Concluded(store: Store, db: Db, now: Time, q: Query, codes: set<string>): (Store, Answer)
  {
    if Grants(codes, q.permission) then (WithFlag(store, AuthzKey(q), true, now + AUTHZ_TTL), Answer(true, FromRbac))
    else if q.HasResource() then
      var (store2, found) := FetchAcl(store, db, now, q);
      (WithFlag(store2, AuthzKey(q), found, now + AUTHZ_TTL), Answer(found, if found then FromAcl else FromNone))
    else (WithFlag(store, AuthzKey(q), false, now + AUTHZ_TTL), Answer(false, FromNone))
  }

  ghost function Checked(store: Store, ttlMs: nat, db: Db, now: Time, q: Query): (Store, Answer)
  {
    match FlagIn(store, AuthzKey(q), now)
    case Some(allowed) => (store, Answer(allowed, FromCache))
    case None => CheckedMiss(store, ttlMs, db, now, q)
  }

  /** The part of the check after a missing decision. */
  ghost function CheckedMiss(store: Store, ttlMs: nat, db: Db, now: Time, q: Query): (Store, Answer)
  {
    var (store1, codes) := FetchPerms(store, ttlMs, db, now, q);
    Concluded(store1, db, now, q, codes)
  }

  // ---- how long what a check stores is there ----

  /** A missed decision is stored for exactly 300000 ms; a cached one is answered and nothing is written. */
  lemma DecisionLifetime(store: Store, ttlMs: nat, db: Db, now: Time, q: Query, t: Time)
    ensures var (store', answer) := Checked(store, ttlMs, db, now, q);
            if FlagIn(store, AuthzKey(q), now).Some?
            then store' == store && Some(answer.allowed) == FlagIn(store, AuthzKey(q), now)
            else Read(store', AuthzKey(q), t) == if t < now + 300000 then Some(Flag(answer.allowed)) else None
  {
  }

  /** A permission set that was not there is stored as the tables give it, for exactly the default lifetime. */
  lemma PermsLifetime(store: Store, ttlMs: nat, db: Db, now: Time, q: Query, t: Time)
    ensures var store' := CheckedMiss(store, ttlMs, db, now, q).0;
            Read(store', PermsKey(q.tenant, q.user), t) ==
            if CodesIn(store, q.tenant, q.user, now).Some? then Read(store, PermsKey(q.tenant, q.user), t)
            else if t < now + ttlMs then Some(Codes(Effective(db, q.tenant, q.user, now))) else None
  {
    KeySpacesDisjoint(q.tenant, q.user, q, q);
  }

  /** An ACL answer that was needed and not there is stored as the rows give it, for exactly 300000 ms. */
  lemma AclLifetime(store: Store, ttlMs: nat, db: Db, now: Time, q: Query, t: Time)
    ensures var (store1, codes) := FetchPerms(store, ttlMs, db, now, q);
            var store' := CheckedMiss(store, ttlMs, db, now, q).0;
            Read(store', AclKey(q), t) ==
            if Grants(codes, q.permission) || !q.HasResource() || FlagIn(store, AclKey(q), now).Some? then Read(store, AclKey(q), t)
            else if t < now + 300000 then Some(Flag(AclAllows(db, q))) else None
  {
    KeySpacesDisjoint(q.tenant, q.user, q, q);
  }

  // ---- where an answer comes from ----

  /** The codes and the ACL answer a check goes by: what is cached, or what the tables say. */
  ghost predicate GoesBy(store: Store, db: Db, now: Time, q: Query, codes: set<string>, listed: bool)
  {
    && codes == (match Read(store, PermsKey(q.tenant, q.user), now)
                 case Some(Codes(cached)) => cached
                 case _ => Effective(db, q.tenant, q.user, now))
    && listed == (match Read(store, AclKey(q), now)
                  case Some(Flag(cached)) => cached
                  case _ => AclAllows(db, q))
  }

  /**
   * The answer and its source, exactly: a cached decision as it is; otherwise RBAC where
   * the codes grant, the ACL only for a full resource that RBAC denies, and else nothing.
   */
  lemma AnswerExactly(store: Store, ttlMs: nat, db: Db, now: Time, q: Query, codes: set<string>, listed: bool)
    requires GoesBy(store, db, now, q, codes, listed)
    ensures var answer := Checked(store, ttlMs, db, now, q).1;
            var missed := FlagIn(store, AuthzKey(q), now).None?;
            && (answer.source == FromCache <==> !missed)
            && (missed ==>
                  && (answer.allowed <==> Grants(codes, q.permission) || (q.resourceType != "" && q.resourceId != "" && listed))
                  && (answer.source == FromRbac <==> Grants(codes, q.permission))
                  && (answer.source == FromAcl <==> answer.allowed && !Grants(codes, q.permission))
                  && (answer.source == FromNone <==> !answer.allowed))
  {
    KeySpacesDisjoint(q.tenant, q.user, q, q);
  }

  /** With nothing cached the check answers the reference decision. */
  lemma ColdCheckDecides(ttlMs: nat, db: Db, now: Time, q: Query)
    ensures Checked(map[], ttlMs, db, now, q).1.allowed <==> Decide(db, q, now)
  {
  }

  class AclService {
    const cache: CacheService
    const db: Database

    constructor (cache: CacheService, db: Database)
      ensures this.cache == cache && this.db == db
    {
      this.cache, this.db := cache, db;
    }

    method Check(q: Query, now: Time) returns (allowed: bool)
      requires Read(cache.store, AclKey(q), now).None? || Read(cache.store, AclKey(q), now).value.Flag?
      modifies cache`store
      ensures (cache.store, allowed) == FetchAcl(old(cache.store), db.Snapshot(), now, q)
      ensures Read(old(cache.store), AclKey(q), now).None? ==>
                forall t :: Read(cache.store, AclKey(q), t) == if t < now + 300000 then Some(Flag(allowed)) else None
    {
      var cached := cache.Get(AclKey(q), now);
      if cached.Some? {
        return cached.value.flag;
      }
      var count := |Keep(db.acls, (a: Acl) => Matches(a, q))|;
      allowed := count > 0;
      assert allowed == AclAllows(db.Snapshot(), q) by {
        var rows := Keep(db.acls, (a: Acl) => Matches(a, q));
        assert |rows| > 0 ==> rows[0] in rows;
      }
      cache.Set(AclKey(q), Flag(allowed), Some(300), now);
    }
  }

  class AuthorizationService {
    const cache: CacheService
    const overrideService: OverrideService
    const aclService: AclService

    constructor (cache: CacheService, db: Database)
      ensures this.cache == cache && Wired() && aclService.db == db
    {
      this.cache := cache;
      overrideService := new OverrideService(db);
      aclService := new AclService(cache, db);
    }

    /** The injected services share one cache and one database. */
    predicate Wired()
    {
      && aclService.cache == cache && overrideService.db == aclService.db
      && overrideService.assignmentService.db == aclService.db
    }

    /** Each key holds the kind of value its writers store. */
    ghost predicate Typed(q: Query)
      reads cache
    {
      && (AuthzKey(q) in cache.store ==> cache.store[AuthzKey(q)].value.Flag?)
      && (AclKey(q) in cache.store ==> cache.store[AclKey(q)].value.Flag?)
    }

    method Check(q: Query, now: Time) returns (answer: Answer)
      requires Wired() && Typed(q) && UniquePermissions(aclService.db.permissions)
      modifies cache`store
      ensures (cache.store, answer) == Checked(old(cache.store), cache.ttlMs, aclService.db.Snapshot(), now, q)
      ensures Read(old(cache.store), AuthzKey(q), now).None? ==>
                forall t :: Read(cache.store, AuthzKey(q), t) == if t < now + 300000 then Some(Flag(answer.allowed)) else None
    {
      var authzKey := AuthzKey(q);
      var cachedDecision := cache.Get(authzKey, now);
      if cachedDecision.Some? {
        return Answer(cachedDecision.value.flag, FromCache);
      }
      var cachedSet := cache.GetPermissions(q.tenant, q.user, now);
      var effectiveSet;
      if cachedSet.None? {
        var rows := overrideService.GetEffectivePermissions(q.user, q.tenant, now);
        effectiveSet := set p | p in rows :: p.code;
        assert effectiveSet == Effective(aclService.db.Snapshot(), q.tenant, q.user, now);
        cache.SetPermissions(q.tenant, q.user, effectiveSet, now);
      } else {
        effectiveSet := cachedSet.value;
      }
      ghost var store1 := cache.store;
      assert (store1, effectiveSet) == FetchPerms(old(cache.store), cache.ttlMs, aclService.db.Snapshot(), now, q);
      var allowed := HasPermission(effectiveSet, q.permission);
      var source := FromRbac;
      if !allowed && q.HasResource() {
        KeySpacesDisjoint(q.tenant, q.user, q, q);
        allowed := aclService.Check(q, now);
        source := FromAcl;
      }
      cache.Set(authzKey, Flag(allowed), Some(300), now);
      answer := Answer(allowed, if allowed then source else FromNone);
    }
  }

  // ---- the store check refines the protocol's check ----

  lemma StorePermsRepresents(store: Store, perms: PermsMap, acl: AclMap, authz: AuthzMap, t: Id, u: Id, e: PermsEntry)
    requires RepresentsCaches(store, perms, acl, authz) && ColonFree(t) && ColonFree(u)
    ensures RepresentsCaches(WithPerms(store, t, u, e.codes, e.expires), perms[(t, u) := e], acl, authz)
  {
    var store', perms' := WithPerms(store, t, u, e.codes, e.expires), perms[(t, u) := e];
    forall t', u' | ColonFree(t') && ColonFree(u') ensures PermsAgree(store', perms', t', u') {
      PermsKeyInjective(t, u, t', u');
      assert PermsAgree(store, perms, t', u');
    }
    forall q | WellKeyed(q) ensures AclAgrees(store', acl, q) && AuthzAgrees(store', authz, q) {
      KeySpacesDisjoint(t, u, q, q);
      assert AclAgrees(store, acl, q) && AuthzAgrees(store, authz, q);
    }
  }

  lemma StoreAclRepresents(store: Store, perms: PermsMap, acl: AclMap, authz: AuthzMap, q: Query, e: AclEntry)
    requires RepresentsCaches(store, perms, acl, authz) && WellKeyed(q)
    ensures RepresentsCaches(WithFlag(store, AclKey(q), e.allowed, e.expires), perms, acl[q := e], authz)
  {
    var store', acl' := WithFlag(store, AclKey(q), e.allowed, e.expires), acl[q := e];
    forall t, u | ColonFree(t) && ColonFree(u) ensures PermsAgree(store', perms, t, u) {
      KeySpacesDisjoint(t, u, q, q);
      assert PermsAgree(store, perms, t, u);
    }
    forall q' | WellKeyed(q') ensures AclAgrees(store', acl', q') && AuthzAgrees(store', authz, q') {
      AclKeyInjective(q, q');
      KeySpacesDisjoint(q.tenant, q.user, q', q);
      assert AclAgrees(store, acl, q') && AuthzAgrees(store, authz, q');
    }
  }

  lemma StoreAuthzRepresents(store: Store, perms: PermsMap, acl: AclMap, authz: AuthzMap, q: Query, e: AuthzEntry)
    requires RepresentsCaches(store, perms, acl, authz) && WellKeyed(q)
    ensures RepresentsCaches(WithFlag(store, AuthzKey(q), e.allowed, e.expires), perms, acl, authz[q := e])
  {
    var store', authz' := WithFlag(store, AuthzKey(q), e.allowed, e.expires), authz[q := e];
    forall t, u | ColonFree(t) && ColonFree(u) ensures PermsAgree(store', perms, t, u) {
      KeySpacesDisjoint(t, u, q, q);
      assert PermsAgree(store, perms, t, u);
    }
    forall q' | WellKeyed(q') ensures AclAgrees(store', acl, q') && AuthzAgrees(store', authz', q') {
      AuthzKeyExactly(q, q');
      KeySpacesDisjoint(q.tenant, q.user, q, q');
      assert AclAgrees(store, acl, q') && AuthzAgrees(store, authz, q');
    }
  }

  lemma AfterPermsMiss(d: Discipline, s: State, q: Query)
    requires !PermsHit(s, q.tenant, q.user)
    ensures var e := PermsUsed(d, s, q);
            && e.codes == Effective(s.db, q.tenant, q.user, s.now) && e.expires == s.now + d.permsTtl
            && AfterPerms(d, s, q) == s.(perms := s.perms[(q.tenant, q.user) := e], writes := s.writes + 1)
  {
  }

  lemma PermsMissRefines(d: Discipline, store: Store, s: State, q: Query)
    requires Represents(store, s) && WellKeyed(q) && !PermsHit(s, q.tenant, q.user)
    ensures var codes := Effective(s.db, q.tenant, q.user, s.now);
            Represents(WithPerms(store, q.tenant, q.user, codes, s.now + d.permsTtl), AfterPerms(d, s, q))
  {
    var e := PermsUsed(d, s, q);
    AfterPermsMiss(d, s, q);
    StorePermsRepresents(store, s.perms, s.acl, s.authz, q.tenant, q.user, e);
  }

  lemma SamePermsRead(store: Store, s: State, q: Query)
    requires Represents(store, s) && WellKeyed(q)
    ensures CodesIn(store, q.tenant, q.user, s.now) ==
            if PermsHit(s, q.tenant, q.user) then Some(s.perms[(q.tenant, q.user)].codes) else None
  {
    assert PermsAgree(store, s.perms, q.tenant, q.user);
  }

  lemma PermsStageRefines(d: Discipline, store: Store, s: State, q: Query)
    requires Represents(store, s) && WellKeyed(q)
    ensures var (store1, codes) := FetchPerms(store, d.permsTtl, s.db, s.now, q);
            Represents(store1, AfterPerms(d, s, q)) && codes == PermsUsed(d, s, q).codes
  {
    SamePermsRead(store, s, q);
    if PermsHit(s, q.tenant, q.user) {
      assert AfterPerms(d, s, q) == s;
    } else {
      PermsMissRefines(d, store, s, q);
    }
  }

  lemma AclMissRefines(store: Store, s: State, q: Query)
    requires Represents(store, s) && WellKeyed(q) && !AclHit(s, q)
    ensures Represents(WithFlag(store, AclKey(q), AclAllows(s.db, q), s.now + ACL_TTL), AfterAcl(s, q))
  {
    StoreAclRepresents(store, s.perms, s.acl, s.authz, q, AclUsed(s, q));
  }

  lemma SameAclRead(store: Store, s: State, q: Query)
    requires Represents(store, s) && WellKeyed(q)
    ensures FlagIn(store, AclKey(q), s.now) == if AclHit(s, q) then Some(s.acl[q].allowed) else None
  {
    assert AclAgrees(store, s.acl, q);
  }

  lemma AclStageRefines(store: Store, s: State, q: Query)
    requires Represents(store, s) && WellKeyed(q)
    ensures var (store2, found) := FetchAcl(store, s.db, s.now, q);
            Represents(store2, AfterAcl(s, q)) && found == AclUsed(s, q).allowed
  {
    SameAclRead(store, s, q);
    if !AclHit(s, q) {
      AclMissRefines(store, s, q);
    }
  }

  lemma AuthzStageRefines(store: Store, s: State, q: Query, allowed: bool, rbac: Basis, acl: Option<Snapshot>)
    requires Represents(store, s) && WellKeyed(q)
    ensures Represents(WithFlag(store, AuthzKey(q), allowed, s.now + AUTHZ_TTL), AfterAuthz(s, q, allowed, rbac, acl))
  {
    var e := AuthzEntry(allowed, s.now + AUTHZ_TTL, s.writes + 1, rbac, acl);
    var s' := AfterAuthz(s, q, allowed, rbac, acl);
    assert s'.perms == s.perms && s'.acl == s.acl && s'.authz == s.authz[q := e];
    StoreAuthzRepresents(store, s.perms, s.acl, s.authz, q, e);
  }

  lemma AclVerdictRefines(store: Store, s: State, q: Query, rbac: Basis)
    requires Represents(store, s) && WellKeyed(q)
    ensures var (store2, found) := FetchAcl(store, s.db, s.now, q);
            && found == AclUsed(s, q).allowed
            && Represents(WithFlag(store2, AuthzKey(q), found, s.now + AUTHZ_TTL),
                          AfterAuthz(AfterAcl(s, q), q, found, rbac, Some(AclUsed(s, q).basis)))
  {
    AclStageRefines(store, s, q);
    var (store2, found) := FetchAcl(store, s.db, s.now, q);
    AuthzStageRefines(store2, AfterAcl(s, q), q, found, rbac, Some(AclUsed(s, q).basis));
  }

  lemma VerdictRefines(store: Store, s: State, q: Query, e: PermsEntry, granted: bool)
    requires Represents(store, s) && WellKeyed(q) && granted == Grants(e.codes, q.permission)
    ensures var (store', answer) := Concluded(store, s.db, s.now, q, e.codes);
            var s' := AfterVerdict(s, q, e, granted);
            Represents(store', s') && q in s'.authz && s'.authz[q].allowed == answer.allowed
  {
    if !granted && q.HasResource() {
      AclVerdictRefines(store, s, q, e.basis);
    } else {
      AuthzStageRefines(store, s, q, granted, e.basis, None);
    }
  }

  lemma MissRefinesProtocol(d: Discipline, store: Store, s: State, q: Query)
    requires Represents(store, s) && WellKeyed(q)
    ensures var (store', answer) := CheckedMiss(store, d.permsTtl, s.db, s.now, q);
            var s' := AfterMiss(d, s, q);
            Represents(store', s') && q in s'.authz && s'.authz[q].allowed == answer.allowed
  {
    var e := PermsUsed(d, s, q);
    PermsStageRefines(d, store, s, q);
    VerdictRefines(FetchPerms(store, d.permsTtl, s.db, s.now, q).0, AfterPerms(d, s, q), q, e, Grants(e.codes, q.permission));
  }

  lemma SameDecisionRead(store: Store, s: State, q: Query)
    requires Represents(store, s) && WellKeyed(q)
    ensures FlagIn(store, AuthzKey(q), s.now) == if AuthzHit(s, q) then Some(s.authz[q].allowed) else None
  {
    assert AuthzAgrees(store, s.authz, q);
  }

  lemma NumberIsNotStored(store: Store, s: State)
    requires Represents(store, s)
    ensures Represents(store, s.(nextId := s.nextId + 1))
  {
  }

  lemma HitRefinesProtocol(d: Discipline, store: Store, s: State, q: Query)
    requires Represents(store, s) && AuthzHit(s, q) && FlagIn(store, AuthzKey(q), s.now) == Some(s.authz[q].allowed)
    ensures Checked(store, d.permsTtl, s.db, s.now, q) == (store, Answer(s.authz[q].allowed, FromCache))
    ensures AfterCheck(d, s, q) == s && ServiceAnswer(d, s, q) == s.authz[q].allowed
  {
  }

  lemma ColdAnswer(d: Discipline, s: State, q: Query)
    requires !AuthzHit(s, q)
    ensures AfterCheck(d, s, q) == AfterMiss(d, s.(nextId := s.nextId + 1), q)
    ensures ServiceAnswer(d, s, q) == AfterCheck(d, s, q).authz[q].allowed
  {
  }

  lemma ColdRefinesProtocol(d: Discipline, store: Store, s: State, q: Query)
    requires Represents(store, s) && WellKeyed(q) && !AuthzHit(s, q) && FlagIn(store, AuthzKey(q), s.now) == None
    ensures var (store', answer) := CheckedMiss(store, d.permsTtl, s.db, s.now, q);
            Represents(store', AfterCheck(d, s, q)) && answer.allowed == ServiceAnswer(d, s, q)
  {
    NumberIsNotStored(store, s);
    MissRefinesProtocol(d, store, s.(nextId := s.nextId + 1), q);
    ColdAnswer(d, s, q);
  }

  /**
   * The service's check on the string-keyed store is the protocol's check: it gives
   * the same answer and leaves a store that represents the protocol's next state.
   */
  lemma CheckRefinesProtocol(d: Discipline, store: Store, s: State, q: Query)
    requires Represents(store, s) && WellKeyed(q)
    ensures var (store', answer) := Checked(store, d.permsTtl, s.db, s.now, q);
            && Represents(store', AfterCheck(d, s, q))
            && answer.allowed == ServiceAnswer(d, s, q)
  {
    SameDecisionRead(store, s, q);
    if AuthzHit(s, q) {
      HitRefinesProtocol(d, store, s, q);
    } else {
      ColdRefinesProtocol(d, store, s, q);
    }
  }

  // ---- the answer is the reference decision ----

  /** No assignment of the user ran out since what is cached for the question was read. */
  ghost predicate NoExpirySinceCaching(s: State, q: Query)
  {
    && ((q.tenant, q.user) in s.perms ==> Faithfulness.Unexpired(s, q.tenant, q.user, s.perms[(q.tenant, q.user)].basis.roles.time))
    && (q in s.authz ==> Faithfulness.Unexpired(s, q.tenant, q.user, s.authz[q].rbac.roles.time))
  }

  /**
   * In a disciplined deployment, with no event in flight for the user and no expiry since
   * caching, a check that runs through answers the reference decision, whatever is cached.
   */
  lemma ServiceAnswersReference(d: Discipline, s: State, q: Query)
    requires Coherence.Disciplined(d) && Reachable(d, s) && Agreement.Clear(s, q.tenant, q.user) && NoExpirySinceCaching(s, q)
    ensures ServiceAnswer(d, s, q) == Decide(s.db, q, s.now)
  {
    var s' := AfterCheck(d, s, q);
    Coherence.ReachableIsCoherent(d, s);
    var n := AfterCheckIsRun(d, s, q);
    ReachableLater(d, s, [Begin(q)] + Advances(s.nextId, n));
    Coherence.ReachableIsCoherent(d, s');
    CheckKeepsWorld(d, s, q);
    Agreement.ClearAuthz(s', q);
  }

  lemma MissKeepsWorld(d: Discipline, s: State, q: Query)
    requires NoExpirySinceCaching(s, q)
    ensures var s' := AfterMiss(d, s, q);
            && s'.db == s.db && s'.now == s.now && s'.purged == s.purged && s'.flights == s.flights
            && q in s'.authz && Faithfulness.Unexpired(s, q.tenant, q.user, s'.authz[q].rbac.roles.time)
  {
    var e := PermsUsed(d, s, q);
    assert Faithfulness.Unexpired(s, q.tenant, q.user, e.basis.roles.time);
    assert AfterMiss(d, s, q).authz[q].rbac == e.basis;
  }

  /** A check changes caches only, and its decision rests on tables no expiry has outdated. */
  lemma CheckKeepsWorld(d: Discipline, s: State, q: Query)
    requires NoExpirySinceCaching(s, q)
    ensures var s' := AfterCheck(d, s, q);
            && s'.db == s.db && s'.now == s.now && s'.purged == s.purged && s'.flights == s.flights
            && q in s'.authz && Faithfulness.Unexpired(s, q.tenant, q.user, s'.authz[q].rbac.roles.time)
  {
    if !AuthzHit(s, q) {
      MissKeepsWorld(d, s.(nextId := s.nextId + 1), q);
    }
  }

  /** End to end: the string-keyed service method's answer is the reference decision. */
  lemma StoreCheckAnswersReference(d: Discipline, store: Store, s: State, q: Query)
    requires Coherence.Disciplined(d) && Reachable(d, s) && Agreement.Clear(s, q.tenant, q.user) && NoExpirySinceCaching(s, q)
    requires Represents(store, s) && WellKeyed(q)
    ensures Checked(store, d.permsTtl, s.db, s.now, q).1.allowed == Decide(s.db, q, s.now)
  {
    CheckRefinesProtocol(d, store, s, q);
    ServiceAnswersReference(d, s, q);
  }

  /**
   * Where keys fail: a question about the literal resource "*" reads the answer
   * cached for the plain question, and its own ACL row is never looked at.
   */
  lemma StarReadsThePlainAnswer(store: Store, ttlMs: nat, db: Db, now: Time, tenant: Id, user: Id, permission: string)
    requires FlagIn(store, AuthzKey(Query(tenant, user, permission, "", "")), now) == Some(false)
    requires AclAllows(db, Query(tenant, user, permission, "*", "*"))
    ensures var q := Query(tenant, user, permission, "*", "*");
            Decide(db, q, now) && Checked(store, ttlMs, db, now, q).1 == Answer(false, FromCache)
  {
  }
}
