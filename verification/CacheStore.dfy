// The typed cache over Redis, its invalidations, and the event consumers, on the
// string-keyed store; and how the store represents the protocol's three caches.

module CacheStore {
  import opened Tables
  import opened Mutations
  import opened Protocol
  import opened CacheKeys

  datatype Value = Codes(codes: set<string>) | Flag(flag: bool)
  datatype Cached = Cached(value: Value, expires: Time)
  type Store = map<string, Cached>

  function Read(store: Store, key: string, now: Time): Option<Value>
  {
    if key in store && now < store[key].expires then Some(store[key].value) else None
  }

  function WithoutKey(store: Store, key: string): Store
  {
    store - {key}
  }

  function WithoutPrefix(store: Store, prefix: string): Store
  {
    map k | k in store && !(prefix <= k) :: store[k]
  }

  function DecisionKey(q: Query): string
  {
    InvalidatedAuthzKey(q.tenant, q.user, q.permission, q.resourceType, q.resourceId)
  }

  /** What the first deletion of an event leaves: the source keys go. */
  function SourceDeleted(store: Store, inv: Invalidation): Store
  {
    match inv
    case UserInvalidation(t, u) => WithoutKey(store, InvalidatedPermsKey(t, u))
    case TenantInvalidation(t) => WithoutPrefix(store, TenantPermsPattern(t))
    case AclInvalidation(q) => WithoutKey(store, InvalidatedAclKey(q.tenant, q.user, q.resourceType, q.resourceId, q.permission))
  }

  /** What the second deletion leaves: the derived keys go. */
  function DerivedDeleted(store: Store, inv: Invalidation): Store
  {
    match inv
    case UserInvalidation(t, u) => WithoutPrefix(store, UserPattern(t, u))
    case TenantInvalidation(t) => WithoutPrefix(store, TenantAuthzPattern(t))
    case AclInvalidation(q) => WithoutKey(store, DecisionKey(q))
  }

  /** What handling one event leaves in the store. */
  function Invalidated(store: Store, inv: Invalidation): Store
  {
    DerivedDeleted(SourceDeleted(store, inv), inv)
  }

  /** One yield of the Redis scan iterator: newer clients give a key, older ones a batch. */
  datatype Batch = One(key: string) | Many(keys: seq<string>)

  function KeysOf(batch: Batch): seq<string>
  {
    match batch
    case One(key) => [key]
    case Many(keys) => keys
  }

  function AllKeys(batches: seq<Batch>): seq<string>
  {
    if batches == [] then [] else AllKeys(batches[..|batches| - 1]) + KeysOf(batches[|batches| - 1])
  }

  /** A scan's contract: every matching key at least once, possibly repeatedly, and no other. */
  ghost predicate Scans(batches: seq<Batch>, store: Store, prefix: string)
  {
    && (forall k | k in store && prefix <= k :: k in AllKeys(batches))
    && (forall k | k in AllKeys(batches) :: prefix <= k)
  }

  class CacheService {
    const ttlMs: nat
    var store: Store

    constructor (ttlMs: nat)
      ensures this.ttlMs == ttlMs && store == map[]
    {
      this.ttlMs := ttlMs;
      store := map[];
    }

    method Get(key: string, now: Time) returns (v: Option<Value>)
      ensures v == Read(store, key, now)
    {
      v := None;
      if key in store {
        var c := store[key];
        if now < c.expires { v := Some(c.value); }
      }
    }

    method Set(key: string, value: Value, ttlSeconds: Option<nat>, now: Time)
      modifies this`store
      ensures store == old(store)[key := Cached(value, now + if ttlSeconds.Some? then ttlSeconds.value * 1000 else ttlMs)]
    {
      var ttl := if ttlSeconds.Some? then ttlSeconds.value * 1000 else ttlMs;
      store := store[key := Cached(value, now + ttl)];
    }

    method GetPermissions(tenant: Id, user: Id, now: Time) returns (codes: Option<set<string>>)
      ensures codes.Some? <==> Read(store, PermsKey(tenant, user), now).Some? && Read(store, PermsKey(tenant, user), now).value.Codes?
      ensures codes.Some? ==> Read(store, PermsKey(tenant, user), now) == Some(Codes(codes.value))
    {
      var data := Get(PermsKey(tenant, user), now);
      codes := match data
        case Some(Codes(cs)) => Some(cs)
        case _ => None;
    }

    method SetPermissions(tenant: Id, user: Id, codes: set<string>, now: Time)
      modifies this`store
      ensures store == old(store)[PermsKey(tenant, user) := Cached(Codes(codes), now + ttlMs)]
    {
      store := store[PermsKey(tenant, user) := Cached(Codes(codes), now + ttlMs)];
    }

    /** Collects what the scan yields, in either shape and with repeats, then deletes it. */
    method ScanAndDelete(prefix: string, batches: seq<Batch>)
      requires Scans(batches, store, prefix)
      modifies this`store
      ensures store == WithoutPrefix(old(store), prefix)
    {
      var keys: seq<string> := [];
      for i := 0 to |batches|
        invariant keys == AllKeys(batches[..i])
        invariant store == old(store)
      {
        assert batches[..i + 1][..i] == batches[..i];
        match batches[i] {
          case Many(batch) => keys := keys + batch;
          case One(key) => keys := keys + [key];
        }
      }
      assert batches[..|batches|] == batches;
      if |keys| > 0 {
        store := store - set k | k in keys;
      }
      assert store == WithoutPrefix(old(store), prefix);
    }

    method InvalidateUser(tenant: Id, user: Id, batches: seq<Batch>)
      requires Scans(batches, store - {InvalidatedPermsKey(tenant, user)}, UserPattern(tenant, user))
      modifies this`store
      ensures store == Invalidated(old(store), UserInvalidation(tenant, user))
    {
      store := store - {InvalidatedPermsKey(tenant, user)};
      ScanAndDelete(UserPattern(tenant, user), batches);
    }

    method InvalidateTenant(tenant: Id, permsBatches: seq<Batch>, authzBatches: seq<Batch>)
      requires Scans(permsBatches, store, TenantPermsPattern(tenant))
      requires Scans(authzBatches, WithoutPrefix(store, TenantPermsPattern(tenant)), TenantAuthzPattern(tenant))
      modifies this`store
      ensures store == Invalidated(old(store), TenantInvalidation(tenant))
    {
      ScanAndDelete(TenantPermsPattern(tenant), permsBatches);
      ScanAndDelete(TenantAuthzPattern(tenant), authzBatches);
    }

    method InvalidateAcl(q: Query)
      modifies this`store
      ensures store == SourceDeleted(old(store), AclInvalidation(q))
    {
      store := store - {InvalidatedAclKey(q.tenant, q.user, q.resourceType, q.resourceId, q.permission)};
    }

    method InvalidateAuthzDecision(q: Query)
      modifies this`store
      ensures store == DerivedDeleted(old(store), AclInvalidation(q))
    {
      store := store - {DecisionKey(q)};
    }
  }

  // ---- the consumers ----

  /** The messages on the three topics; "" stands for an absent field. */
  datatype Message =
    | UserChanged(tenant: Id, user: Id)
    | AclChanged(tenant: Id, user: Id, resourceType: string, resourceId: string, permission: string)
    | PermissionChanged(tenant: Id, user: Id, payloadTenant: Id, payloadUser: Id)

  function FirstOf(a: string, b: string): string
  {
    if a != "" then a else b
  }

  /** What a message asks to invalidate, or nothing when a required field is missing. */
  function Meaning(m: Message): Option<Invalidation>
  {
    match m
    case UserChanged(t, u) => if t == "" || u == "" then None else Some(UserInvalidation(t, u))
    case AclChanged(t, u, rt, rid, p) =>
      if t == "" || u == "" || rt == "" || rid == "" || p == "" then None else Some(AclInvalidation(Query(t, u, p, rt, rid)))
    case PermissionChanged(t, u, pt, pu) =>
      if FirstOf(t, pt) == "" then None
      else if FirstOf(u, pu) != "" then Some(UserInvalidation(FirstOf(t, pt), FirstOf(u, pu)))
      else Some(TenantInvalidation(FirstOf(t, pt)))
  }

  /** The message a service emits for an invalidation. */
  function MessageFor(inv: Invalidation): Message
  {
    match inv
    case UserInvalidation(t, u) => PermissionChanged(t, u, "", "")
    case TenantInvalidation(t) => PermissionChanged(t, "", "", "")
    case AclInvalidation(q) => AclChanged(q.tenant, q.user, q.resourceType, q.resourceId, q.permission)
  }

  /** Tenant and user ids are never empty. */
  ghost predicate HasIds(inv: Invalidation)
  {
    match inv
    case UserInvalidation(t, u) => t != "" && u != ""
    case TenantInvalidation(t) => t != ""
    case AclInvalidation(_) => true
  }

  /** No event of a well-formed table is skipped by a consumer: what is emitted is what is done. */
  lemma EmittedIsUnderstood(db: Db, m: Mutation)
    requires WellFormed(db) && Apply(db, m).Done? && Apply(db, m).event.Some?
    requires HasIds(Apply(db, m).event.value)
    ensures Meaning(MessageFor(Apply(db, m).event.value)) == Some(Apply(db, m).event.value)
    ensures MessageFor(Apply(db, m).event.value).AclChanged? <==> m.CreateAcl? || m.DeleteAcl?
    ensures MessageFor(Apply(db, m).event.value).PermissionChanged? <==> !m.CreateAcl? && !m.DeleteAcl?
  {
    if Apply(db, m).event.value.AclInvalidation? && m.DeleteAcl? {
      var i := FindAcl(db.acls, m.aclId, m.tenant);
      assert FilledIn(AclQuery(db.acls[i]));
    }
  }

  /** The store after a message has been handled. */
  function Handled(store: Store, m: Message): Store
  {
    match Meaning(m)
    case None => store
    case Some(inv) => Invalidated(store, inv)
  }

  /** A change of one user, or of a permission with a user: their set and all their decisions go, nothing else. */
  lemma UserMessageExactly(store: Store, m: Message, tenant: Id, user: Id, key: string)
    requires tenant != "" && user != ""
    requires match m
             case UserChanged(t, u) => t == tenant && u == user
             case PermissionChanged(t, u, pt, pu) => (t == tenant || (t == "" && pt == tenant)) && (u == user || (u == "" && pu == user))
             case _ => false
    ensures key in Handled(store, m) <==>
            key in store && key != "perms:" + tenant + ":" + user && !("authz:" + tenant + ":" + user + ":" <= key)
    ensures key in Handled(store, m) ==> Handled(store, m)[key] == store[key]
  {
    KeysSpelledOut(Query(tenant, user, "", "", ""));
  }

  /** A permission change without a user: all sets and all decisions of the tenant go, its ACL answers stay. */
  lemma TenantMessageExactly(store: Store, tenant: Id, own: Id, inPayload: Id, key: string)
    requires tenant != "" && (own == tenant || (own == "" && inPayload == tenant))
    ensures var after := Handled(store, PermissionChanged(own, "", inPayload, ""));
            && (key in after <==> key in store && !("perms:" + tenant + ":" <= key) && !("authz:" + tenant + ":" <= key))
            && (key in after ==> after[key] == store[key])
  {
    KeysSpelledOut(Query(tenant, "", "", "", ""));
  }

  /** An ACL change: its own answer and the decision of its question go. */
  lemma AclMessageExactly(store: Store, q: Query, key: string)
    requires q.tenant != "" && q.user != "" && q.permission != "" && q.resourceType != "" && q.resourceId != ""
    ensures var after := Handled(store, AclChanged(q.tenant, q.user, q.resourceType, q.resourceId, q.permission));
            && (key in after <==>
                  && key in store
                  && key != "acl:" + q.tenant + ":" + q.user + ":" + q.resourceType + ":" + q.resourceId + ":" + q.permission
                  && key != "authz:" + q.tenant + ":" + q.user + ":" + q.permission + ":" + q.resourceType + ":" + q.resourceId)
            && (key in after ==> after[key] == store[key])
  {
  }

  /** A message without a field it needs does nothing. */
  lemma IncompleteMessageDoesNothing(store: Store, m: Message)
    requires match m
             case UserChanged(t, u) => t == "" || u == ""
             case AclChanged(t, u, rt, rid, p) => t == "" || u == "" || rt == "" || rid == "" || p == ""
             case PermissionChanged(t, _, pt, _) => t == "" && pt == ""
    ensures Handled(store, m) == store
  {
  }

  class EventConsumer {
    const cache: CacheService

    constructor (cache: CacheService)
      ensures this.cache == cache
    {
      this.cache := cache;
    }

    /** The scans this message would need find what they must. */
    ghost predicate ScansFor(m: Message, first: seq<Batch>, second: seq<Batch>)
      reads cache
    {
      match Meaning(m)
      case Some(UserInvalidation(t, u)) => Scans(second, cache.store - {InvalidatedPermsKey(t, u)}, UserPattern(t, u))
      case Some(TenantInvalidation(t)) =>
        && Scans(first, cache.store, TenantPermsPattern(t))
        && Scans(second, WithoutPrefix(cache.store, TenantPermsPattern(t)), TenantAuthzPattern(t))
      case _ => true
    }

    method Handle(m: Message, first: seq<Batch>, second: seq<Batch>)
      requires ScansFor(m, first, second)
      modifies cache`store
      ensures cache.store == Handled(old(cache.store), m)
    {
      match m {
        case UserChanged(t, u) =>
          if t == "" || u == "" { return; }
          cache.InvalidateUser(t, u, second);
        case AclChanged(t, u, rt, rid, p) =>
          if t == "" || u == "" || rt == "" || rid == "" || p == "" { return; }
          cache.InvalidateAcl(Query(t, u, p, rt, rid));
          cache.InvalidateAuthzDecision(Query(t, u, p, rt, rid));
        case PermissionChanged(t, u, pt, pu) =>
          var tenant := FirstOf(t, pt);
          var user := FirstOf(u, pu);
          if tenant == "" { return; }
          if user != "" {
            cache.InvalidateUser(tenant, user, second);
          } else {
            cache.InvalidateTenant(tenant, first, second);
          }
      }
    }
  }

  // ---- the store represents the protocol's caches ----

  type PermsMap = map<(Id, Id), PermsEntry>
  type AclMap = map<Query, AclEntry>
  type AuthzMap = map<Query, AuthzEntry>

  ghost predicate PermsAgree(store: Store, perms: PermsMap, t: Id, u: Id)
  {
    && (PermsKey(t, u) in store <==> (t, u) in perms)
    && ((t, u) in perms ==> store[PermsKey(t, u)] == Cached(Codes(perms[(t, u)].codes), perms[(t, u)].expires))
  }

  ghost predicate AclAgrees(store: Store, acl: AclMap, q: Query)
  {
    && (AclKey(q) in store <==> q in acl)
    && (q in acl ==> store[AclKey(q)] == Cached(Flag(acl[q].allowed), acl[q].expires))
  }

  ghost predicate AuthzAgrees(store: Store, authz: AuthzMap, q: Query)
  {
    && (AuthzKey(q) in store <==> q in authz)
    && (q in authz ==> store[AuthzKey(q)] == Cached(Flag(authz[q].allowed), authz[q].expires))
  }

  /** Key by key, for colon-free ids and well-keyed questions. */
  ghost predicate RepresentsCaches(store: Store, perms: PermsMap, acl: AclMap, authz: AuthzMap)
  {
    && (forall t, u | ColonFree(t) && ColonFree(u) :: PermsAgree(store, perms, t, u))
    && (forall q | WellKeyed(q) :: AclAgrees(store, acl, q))
    && (forall q | WellKeyed(q) :: AuthzAgrees(store, authz, q))
  }

  ghost predicate Represents(store: Store, s: State)
  {
    RepresentsCaches(store, s.perms, s.acl, s.authz)
  }

  /** The ids in an event, and the question of an ACL event, are well keyed. */
  ghost predicate WellKeyedEvent(inv: Invalidation)
  {
    match inv
    case UserInvalidation(t, u) => ColonFree(t) && ColonFree(u)
    case TenantInvalidation(t) => ColonFree(t)
    case AclInvalidation(q) => WellKeyed(q) && q.HasResource()
  }

  /** Both deletions of an event, with no check in between, on the structural caches. */
  function Delivered(s: State, inv: Invalidation): State
  {
    DeleteDerived(DeleteSource(s, inv, s.writes, {}, {}), inv, s.writes, {})
  }

  /** Which keys each deletion removes from the store. */
  ghost predicate RemovesSource(inv: Invalidation, key: string)
  {
    match inv
    case UserInvalidation(t, u) => key == InvalidatedPermsKey(t, u)
    case TenantInvalidation(t) => TenantPermsPattern(t) <= key
    case AclInvalidation(q) => key == InvalidatedAclKey(q.tenant, q.user, q.resourceType, q.resourceId, q.permission)
  }

  ghost predicate RemovesDerived(inv: Invalidation, key: string)
  {
    match inv
    case UserInvalidation(t, u) => UserPattern(t, u) <= key
    case TenantInvalidation(t) => TenantAuthzPattern(t) <= key
    case AclInvalidation(q) => key == DecisionKey(q)
  }

  /** Each deletion removes exactly its keys and leaves the other entries as they were. */
  lemma DeletedExactly(store: Store, inv: Invalidation, key: string)
    ensures key in SourceDeleted(store, inv) <==> key in store && !RemovesSource(inv, key)
    ensures key in SourceDeleted(store, inv) ==> SourceDeleted(store, inv)[key] == store[key]
    ensures key in DerivedDeleted(store, inv) <==> key in store && !RemovesDerived(inv, key)
    ensures key in DerivedDeleted(store, inv) ==> DerivedDeleted(store, inv)[key] == store[key]
  {
  }

  /** The first deletion takes a user's permission set exactly when the event covers the user; the second, never. */
  lemma RemovesPerms(inv: Invalidation, t: Id, u: Id)
    requires WellKeyedEvent(inv) && ColonFree(t) && ColonFree(u)
    ensures RemovesSource(inv, PermsKey(t, u)) <==> CoversUser(inv, t, u)
    ensures !RemovesDerived(inv, PermsKey(t, u))
  {
    var none := Query(t, u, "", "", "");
    KeySpacesDisjoint(t, u, none, none);
    match inv
    case UserInvalidation(t', u') =>
      PermsBuildersAgree(t', u');
      PermsKeyInjective(t, u, t', u');
    case TenantInvalidation(t') => TenantPatternsExact(t', t, u, none);
    case AclInvalidation(q) =>
      BuildersAgree(q);
      KeySpacesDisjoint(t, u, q, q);
  }

  /** Likewise an ACL answer, exactly when the event covers the question. */
  lemma RemovesAcl(inv: Invalidation, q: Query)
    requires WellKeyedEvent(inv) && WellKeyed(q)
    ensures RemovesSource(inv, AclKey(q)) <==> CoversAcl(inv, q)
    ensures !RemovesDerived(inv, AclKey(q))
  {
    KeySpacesDisjoint(q.tenant, q.user, q, q);
    match inv
    case UserInvalidation(t', u') =>
      PermsBuildersAgree(t', u');
      KeySpacesDisjoint(t', u', q, q);
    case TenantInvalidation(t') =>
    case AclInvalidation(q') =>
      BuildersAgree(q');
      AclKeyInjective(q, q');
      KeySpacesDisjoint(q.tenant, q.user, q', q);
  }

  /** A decision goes with the second deletion, exactly when the event covers the user or the question. */
  lemma RemovesAuthz(inv: Invalidation, q: Query)
    requires WellKeyedEvent(inv) && WellKeyed(q)
    ensures RemovesDerived(inv, AuthzKey(q)) <==> CoversDecision(inv, q)
    ensures !RemovesSource(inv, AuthzKey(q))
  {
    match inv
    case UserInvalidation(t', u') =>
      PermsBuildersAgree(t', u');
      UserPatternExact(t', u', q);
      KeySpacesDisjoint(t', u', q, q);
    case TenantInvalidation(t') =>
      TenantPatternsExact(t', q.tenant, q.user, q);
      KeySpacesDisjoint(q.tenant, q.user, q, q);
    case AclInvalidation(q') =>
      BuildersAgree(q');
      AuthzKeyExactly(q, q');
      KeySpacesDisjoint(q.tenant, q.user, q, q');
  }

  ghost predicate AllWritten(s: State)
  {
    && (forall k | k in s.perms :: s.perms[k].stamp <= s.writes)
    && (forall q | q in s.acl :: s.acl[q].stamp <= s.writes)
    && (forall q | q in s.authz :: s.authz[q].stamp <= s.writes)
  }

  /** On the strings the first deletion is the protocol's source deletion. */
  lemma SourceRepresents(store: Store, s: State, inv: Invalidation)
    requires Represents(store, s) && WellKeyedEvent(inv) && AllWritten(s)
    ensures Represents(SourceDeleted(store, inv), DeleteSource(s, inv, s.writes, {}, {}))
  {
    var store', s' := SourceDeleted(store, inv), DeleteSource(s, inv, s.writes, {}, {});
    forall t, u | ColonFree(t) && ColonFree(u) ensures PermsAgree(store', s'.perms, t, u) {
      RemovesPerms(inv, t, u);
      DeletedExactly(store, inv, PermsKey(t, u));
      assert PermsAgree(store, s.perms, t, u);
    }
    forall q | WellKeyed(q) ensures AclAgrees(store', s'.acl, q) && AuthzAgrees(store', s'.authz, q) {
      RemovesAcl(inv, q);
      RemovesAuthz(inv, q);
      DeletedExactly(store, inv, AclKey(q));
      DeletedExactly(store, inv, AuthzKey(q));
      assert AclAgrees(store, s.acl, q) && AuthzAgrees(store, s.authz, q);
    }
  }

  /** And the second its derived deletion, whatever checks have stored in between. */
  lemma DerivedRepresents(store: Store, s: State, inv: Invalidation)
    requires Represents(store, s) && WellKeyedEvent(inv) && AllWritten(s)
    ensures Represents(DerivedDeleted(store, inv), DeleteDerived(s, inv, s.writes, {}))
  {
    var store', s' := DerivedDeleted(store, inv), DeleteDerived(s, inv, s.writes, {});
    forall t, u | ColonFree(t) && ColonFree(u) ensures PermsAgree(store', s'.perms, t, u) {
      RemovesPerms(inv, t, u);
      DeletedExactly(store, inv, PermsKey(t, u));
      assert PermsAgree(store, s.perms, t, u);
    }
    forall q | WellKeyed(q) ensures AclAgrees(store', s'.acl, q) && AuthzAgrees(store', s'.authz, q) {
      RemovesAcl(inv, q);
      RemovesAuthz(inv, q);
      DeletedExactly(store, inv, AclKey(q));
      DeletedExactly(store, inv, AuthzKey(q));
      assert AclAgrees(store, s.acl, q) && AuthzAgrees(store, s.authz, q);
    }
  }

  /** So a whole handler on the strings is both deletions on the entries. */
  lemma InvalidationRepresents(store: Store, s: State, inv: Invalidation)
    requires Represents(store, s) && WellKeyedEvent(inv) && AllWritten(s)
    ensures Represents(Invalidated(store, inv), Delivered(s, inv))
  {
    SourceRepresents(store, s, inv);
    DerivedRepresents(SourceDeleted(store, inv), DeleteSource(s, inv, s.writes, {}, {}), inv);
  }
}
