// The string keys of the three caches, as the service, the SDK and the
// invalidator each build them, and when two of them coincide.

module CacheKeys {
  import opened PermissionMatcher
  import opened Tables

  function OrStar(field: string): string
  {
    if field == "" then "*" else field
  }

  function PermsKey(tenant: Id, user: Id): string
  {
    "perms:" + (tenant + (":" + user))
  }

  function AuthzKey(q: Query): string
  {
    "authz:" + (q.tenant + (":" + (q.user + (":" + (q.permission + (":" + (OrStar(q.resourceType) + (":" + OrStar(q.resourceId)))))))))
  }

  function AclKey(q: Query): string
  {
    "acl:" + (q.tenant + (":" + (q.user + (":" + (q.resourceType + (":" + (q.resourceId + (":" + q.permission))))))))
  }

  // The same keys where the SDK and the invalidator write them, each its own template.

  function SdkPermsKey(user: Id, tenant: Id): string
  {
    "perms:" + tenant + ":" + user
  }

  function SdkAuthzKey(user: Id, tenant: Id, permission: string, resourceType: string, resourceId: string): string
  {
    var kind := if resourceType != "" then resourceType else "*";
    var id := if resourceId != "" then resourceId else "*";
    "authz:" + tenant + ":" + user + ":" + permission + ":" + kind + ":" + id
  }

  function InvalidatedPermsKey(tenant: Id, user: Id): string
  {
    "perms:" + tenant + ":" + user
  }

  function InvalidatedAclKey(tenant: Id, user: Id, resourceType: string, resourceId: string, permission: string): string
  {
    "acl:" + tenant + ":" + user + ":" + resourceType + ":" + resourceId + ":" + permission
  }

  /** It takes the resource fields as they are, with no placeholder. */
  function InvalidatedAuthzKey(tenant: Id, user: Id, permission: string, resourceType: string, resourceId: string): string
  {
    "authz:" + tenant + ":" + user + ":" + permission + ":" + resourceType + ":" + resourceId
  }

  function UserPattern(tenant: Id, user: Id): string
  {
    "authz:" + (tenant + (":" + (user + ":")))
  }

  function TenantPermsPattern(tenant: Id): string { "perms:" + (tenant + ":") }
  function TenantAuthzPattern(tenant: Id): string { "authz:" + (tenant + ":") }

  predicate ColonFree(s: string) { ':' !in s }

  /** Ids are UUIDs; the inner fields happen to contain no colon. */
  predicate Clean(q: Query)
  {
    && ColonFree(q.tenant) && ColonFree(q.user) && ColonFree(q.permission)
    && ColonFree(q.resourceType) && ColonFree(q.resourceId)
  }

  /** Clean, and no resource field is the literal placeholder. */
  predicate WellKeyed(q: Query)
  {
    Clean(q) && q.resourceType != "*" && q.resourceId != "*"
  }

  // ---- cutting strings at a colon ----

  lemma {:induction false} CutAtColon(a: string, b: string, x: string, y: string)
    requires ColonFree(a) && ColonFree(b) && a + (":" + x) == b + (":" + y)
    ensures a == b && x == y
  {
    var whole := a + (":" + x);
    assert whole[|a|] == ':' && whole[|b|] == ':';
    assert forall k | 0 <= k < |a| :: whole[k] == a[k] && a[k] in a;
    assert forall k | 0 <= k < |b| :: whole[k] == b[k] && b[k] in b;
    assert a == whole[..|a|] && b == whole[..|b|];
    assert x == whole[|a| + 1..] && y == whole[|b| + 1..];
  }

  /** A key that starts with a colon-free field and a colon starts with that field. */
  lemma PrefixAtColon(a: string, b: string, x: string)
    requires ColonFree(a) && ColonFree(b)
    ensures a + ":" <= b + (":" + x) <==> a == b
  {
    var whole := b + (":" + x);
    if a + ":" <= whole {
      var y := whole[|a| + 1..];
      assert whole == a + (":" + y);
      CutAtColon(a, b, y, x);
    }
  }

  lemma PrefixUnder(head: string, a: string, b: string)
    ensures head + a <= head + b <==> a <= b
  {
    if head + a <= head + b {
      assert a == (head + a)[|head|..] && a == (head + b)[|head|..][..|a|];
    }
  }

  lemma CancelHead(head: string, a: string, b: string)
    requires head + a == head + b
    ensures a == b
  {
    assert a == (head + a)[|head|..] && b == (head + b)[|head|..];
  }

  // ---- injectivity ----

  lemma PermsKeyInjective(t: Id, u: Id, t': Id, u': Id)
    requires ColonFree(t) && ColonFree(t')
    ensures PermsKey(t, u) == PermsKey(t', u') <==> t == t' && u == u'
  {
    if PermsKey(t, u) == PermsKey(t', u') {
      CancelHead("perms:", t + (":" + u), t' + (":" + u'));
      CutAtColon(t, t', u, u');
    }
  }

  /** What two decision keys of clean queries share: all but the difference between "" and "*". */
  lemma AuthzKeyExactly(q: Query, q': Query)
    requires Clean(q) && Clean(q')
    ensures AuthzKey(q) == AuthzKey(q') <==>
            && q.tenant == q'.tenant && q.user == q'.user && q.permission == q'.permission
            && OrStar(q.resourceType) == OrStar(q'.resourceType) && OrStar(q.resourceId) == OrStar(q'.resourceId)
  {
    if AuthzKey(q) == AuthzKey(q') {
      var (k5, k5') := (OrStar(q.resourceType) + (":" + OrStar(q.resourceId)), OrStar(q'.resourceType) + (":" + OrStar(q'.resourceId)));
      var (k4, k4') := (q.permission + (":" + k5), q'.permission + (":" + k5'));
      var (k3, k3') := (q.user + (":" + k4), q'.user + (":" + k4'));
      CancelHead("authz:", q.tenant + (":" + k3), q'.tenant + (":" + k3'));
      CutAtColon(q.tenant, q'.tenant, k3, k3');
      CutAtColon(q.user, q'.user, k4, k4');
      CutAtColon(q.permission, q'.permission, k5, k5');
      CutAtColon(OrStar(q.resourceType), OrStar(q'.resourceType), OrStar(q.resourceId), OrStar(q'.resourceId));
    }
  }

  lemma AclKeyInjective(q: Query, q': Query)
    requires Clean(q) && Clean(q')
    ensures AclKey(q) == AclKey(q') <==> q == q'
  {
    if AclKey(q) == AclKey(q') {
      var (k5, k5') := (q.resourceId + (":" + q.permission), q'.resourceId + (":" + q'.permission));
      var (k4, k4') := (q.resourceType + (":" + k5), q'.resourceType + (":" + k5'));
      var (k3, k3') := (q.user + (":" + k4), q'.user + (":" + k4'));
      CancelHead("acl:", q.tenant + (":" + k3), q'.tenant + (":" + k3'));
      CutAtColon(q.tenant, q'.tenant, k3, k3');
      CutAtColon(q.user, q'.user, k4, k4');
      CutAtColon(q.resourceType, q'.resourceType, k5, k5');
      CutAtColon(q.resourceId, q'.resourceId, q.permission, q'.permission);
    }
  }

  /**
   * A decision key belongs to one clean question alone exactly when both resource fields
   * are given and neither is the literal "*", the placeholder for an absent field.
   */
  lemma AuthzKeyInjectiveExactly(q: Query)
    requires Clean(q)
    ensures (forall q' | Clean(q') && AuthzKey(q') == AuthzKey(q) :: q' == q)
            <==> (q.resourceType !in {"", "*"} && q.resourceId !in {"", "*"})
  {
    if q.resourceType !in {"", "*"} && q.resourceId !in {"", "*"} {
      forall q' | Clean(q') && AuthzKey(q') == AuthzKey(q) ensures q' == q {
        AuthzKeyExactly(q, q');
      }
    } else {
      var twin := q.(resourceType := Swapped(q.resourceType), resourceId := Swapped(q.resourceId));
      AuthzKeyExactly(q, twin);
      assert Clean(twin) && twin != q;
    }
  }

  /** The absent field for the placeholder, and back. */
  function Swapped(field: string): string
  {
    if field == "" then "*" else if field == "*" then "" else field
  }

  /** With colons in the inner fields different questions can share a key. */
  lemma ColonsCollide(tenant: Id, user: Id)
    ensures var q, q' := Query(tenant, user, "a:b", "c", "d"), Query(tenant, user, "a", "b", "c:d");
            q != q' && AuthzKey(q) == AuthzKey(q')
  {
    var tail, tail' := "a:b" + (":" + ("c" + (":" + "d"))), "a" + (":" + ("b" + (":" + "c:d")));
    assert tail == "a:b:c:d" && tail' == "a:b:c:d";
  }

  /** `head` is a template's fixed start, `a` and `b` two fields of it. */
  lemma TemplateTail(head: string, a: string, b: string)
    ensures head + a + ":" + b == head + (a + (":" + b))
  {
    Assoc(head, a, ":" + b);
    Assoc(head + a, ":", b);
  }

  /** Every template of the permission set's key is the same key. */
  lemma PermsBuildersAgree(t: Id, u: Id)
    ensures SdkPermsKey(u, t) == PermsKey(t, u) && InvalidatedPermsKey(t, u) == PermsKey(t, u)
  {
    TemplateTail("perms:", t, u);
  }

  lemma FiveFields(head: string, a: string, b: string, c: string, d: string, e: string)
    ensures head + a + ":" + b + ":" + c + ":" + d + ":" + e
            == head + (a + (":" + (b + (":" + (c + (":" + (d + (":" + e))))))))
  {
    var tail := d + (":" + e);
    TemplateTail(head + a + ":" + b + ":" + c + ":", d, e);
    TemplateTail(head + a + ":" + b + ":", c, tail);
    TemplateTail(head + a + ":", b, c + (":" + tail));
    TemplateTail(head, a, b + (":" + (c + (":" + tail))));
  }

  /**
   * The SDK builds the service's decision key for every question; the invalidator's
   * decision and ACL keys are the service's where an event can name them, with both
   * resource fields given, and its decision key only there.
   */
  lemma BuildersAgree(q: Query)
    ensures SdkAuthzKey(q.user, q.tenant, q.permission, q.resourceType, q.resourceId) == AuthzKey(q)
    ensures InvalidatedAclKey(q.tenant, q.user, q.resourceType, q.resourceId, q.permission) == AclKey(q)
    ensures Clean(q) ==>
              (InvalidatedAuthzKey(q.tenant, q.user, q.permission, q.resourceType, q.resourceId) == AuthzKey(q) <==> q.HasResource())
  {
    FiveFields("authz:", q.tenant, q.user, q.permission, OrStar(q.resourceType), OrStar(q.resourceId));
    FiveFields("acl:", q.tenant, q.user, q.resourceType, q.resourceId, q.permission);
    FiveFields("authz:", q.tenant, q.user, q.permission, q.resourceType, q.resourceId);
    if Clean(q) && !q.HasResource() {
      var whole := InvalidatedAuthzKey(q.tenant, q.user, q.permission, q.resourceType, q.resourceId);
      assert |whole| < |AuthzKey(q)|;
    }
  }

  /** The keys spelled out field by field, and the prefixes a scan deletes under. */
  lemma KeysSpelledOut(q: Query)
    ensures PermsKey(q.tenant, q.user) == "perms:" + q.tenant + ":" + q.user
    ensures AuthzKey(q) ==
            "authz:" + q.tenant + ":" + q.user + ":" + q.permission
            + ":" + (if q.resourceType == "" then "*" else q.resourceType) + ":" + (if q.resourceId == "" then "*" else q.resourceId)
    ensures AclKey(q) == "acl:" + q.tenant + ":" + q.user + ":" + q.resourceType + ":" + q.resourceId + ":" + q.permission
    ensures UserPattern(q.tenant, q.user) == "authz:" + q.tenant + ":" + q.user + ":"
    ensures TenantPermsPattern(q.tenant) == "perms:" + q.tenant + ":" && TenantAuthzPattern(q.tenant) == "authz:" + q.tenant + ":"
  {
    TemplateTail("perms:", q.tenant, q.user);
    FiveFields("authz:", q.tenant, q.user, q.permission, OrStar(q.resourceType), OrStar(q.resourceId));
    FiveFields("acl:", q.tenant, q.user, q.resourceType, q.resourceId, q.permission);
    TemplateTail("authz:", q.tenant, q.user + ":");
    Assoc("authz:" + q.tenant + ":", q.user, ":");
  }

  // ---- the three key spaces, and the delete patterns ----

  lemma KeySpacesDisjoint(t: Id, u: Id, q: Query, q': Query)
    ensures PermsKey(t, u) != AuthzKey(q) && PermsKey(t, u) != AclKey(q) && AuthzKey(q) != AclKey(q')
    ensures forall t', u' :: !(UserPattern(t', u') <= PermsKey(t, u)) && !(UserPattern(t', u') <= AclKey(q))
    ensures forall t' :: !(TenantAuthzPattern(t') <= PermsKey(t, u)) && !(TenantAuthzPattern(t') <= AclKey(q))
    ensures forall t' :: !(TenantPermsPattern(t') <= AuthzKey(q)) && !(TenantPermsPattern(t') <= AclKey(q))
  {
    assert PermsKey(t, u)[0] == 'p' && AuthzKey(q)[1] == 'u' && AclKey(q)[1] == 'c';
    assert forall q'' :: AclKey(q'')[1] == 'c';
    assert forall t', u' :: UserPattern(t', u')[0] == 'a' && UserPattern(t', u')[1] == 'u';
    assert forall t' :: TenantAuthzPattern(t')[0] == 'a' && TenantAuthzPattern(t')[1] == 'u';
    assert forall t' :: TenantPermsPattern(t')[0] == 'p';
  }

  /** `authz:t:u:*` matches exactly that user's decisions. */
  lemma UserPatternExact(t: Id, u: Id, q: Query)
    requires ColonFree(t) && ColonFree(u) && ColonFree(q.tenant) && ColonFree(q.user)
    ensures UserPattern(t, u) <= AuthzKey(q) <==> q.tenant == t && q.user == u
  {
    var k4 := q.permission + (":" + (OrStar(q.resourceType) + (":" + OrStar(q.resourceId))));
    var k3 := q.user + (":" + k4);
    PrefixUnder("authz:", t + (":" + (u + ":")), q.tenant + (":" + k3));
    if t + (":" + (u + ":")) <= q.tenant + (":" + k3) {
      assert t + ":" <= t + (":" + (u + ":"));
      PrefixAtColon(t, q.tenant, k3);
    }
    if t == q.tenant {
      assert t + (":" + (u + ":")) == (t + ":") + (u + ":") && t + (":" + k3) == (t + ":") + k3;
      PrefixUnder(t + ":", u + ":", k3);
      PrefixAtColon(u, q.user, k4);
    }
  }

  lemma TenantPatternsExact(t: Id, t': Id, u': Id, q: Query)
    requires ColonFree(t) && ColonFree(t') && ColonFree(q.tenant)
    ensures TenantPermsPattern(t) <= PermsKey(t', u') <==> t == t'
    ensures TenantAuthzPattern(t) <= AuthzKey(q) <==> t == q.tenant
  {
    PrefixUnder("perms:", t + ":", t' + (":" + u'));
    PrefixAtColon(t, t', u');
    var k3 := q.user + (":" + (q.permission + (":" + (OrStar(q.resourceType) + (":" + OrStar(q.resourceId))))));
    PrefixUnder("authz:", t + ":", q.tenant + (":" + k3));
    PrefixAtColon(t, q.tenant, k3);
  }
}
