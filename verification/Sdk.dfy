// The SDK's three-tier read path and the two permission guards, against the
// reference decision.

module Sdk {
  import opened PermissionMatcher
  import opened Tables
  import opened Protocol
  import opened SteadyRuns

  // ---- what the SDK reads ----

  /** The JSON shapes a reader may find; JNull also stands for a field that is not there. */
  datatype Json =
    | JNull
    | JBool(flag: bool)
    | JArray(codes: set<string>)
    | JWrapped(inner: Json) // the cache library's wrapper, an object with a `value` field
    | JObject // an object without one

  /** A Redis read: it may fail, or its text may not parse. */
  datatype Fetched = Failed | Missing | Found(json: Json)

  /** The HTTP reply: none, an error status, or a body with `allowed` inside or outside the envelope. */
  datatype Reply = NoReply | ErrorStatus | Body(data: Json, bare: Json)

  /** The codes tier 1 reads; none where building a set of them throws. */
  function PermsOf(json: Json): Option<set<string>>
  {
    match json
    case JArray(codes) => Some(codes)
    case JWrapped(JArray(codes)) => Some(codes)
    case JWrapped(JNull) => Some({})
    case JWrapped(_) => None
    case _ => Some({})
  }

  function FlagOf(json: Json): bool
  {
    var value := match json case JWrapped(inner) => inner case _ => json;
    value == JBool(true)
  }

  /** The client: anything but an explicit `true` is a denial. */
  function ClientAllowed(reply: Reply): bool
  {
    match reply
    case Body(data, bare) => (if data != JNull then data else bare) == JBool(true)
    case _ => false
  }

  /** What the service sends for its answer, with or without the envelope around it. */
  predicate Says(reply: Reply, allowed: bool)
  {
    reply.Body? && (reply.data == JBool(allowed) || (reply.data == JNull && reply.bare == JBool(allowed)))
  }

  predicate Answers(reply: Reply)
  {
    Says(reply, true) || Says(reply, false)
  }

  /** Whether tier 1 answers by itself. */
  ghost predicate Tier1Answers(perms: Fetched, q: Query)
  {
    perms.Found? && PermsOf(perms.json).Some? && (Grants(PermsOf(perms.json).value, q.permission) || !q.HasResource())
  }

  ghost predicate ReachesHttp(perms: Fetched, authz: Fetched, q: Query)
  {
    !Tier1Answers(perms, q) && !authz.Found?
  }

  /** `isAllowed`: the permission set, then the cached decision, then the service. */
  ghost function IsAllowed(perms: Fetched, authz: Fetched, reply: Reply, q: Query): bool
  {
    if Tier1Answers(perms, q) then Grants(PermsOf(perms.json).value, q.permission)
    else if authz.Found? then FlagOf(authz.json)
    else ClientAllowed(reply)
  }

  // ---- the three tiers, shape by shape ----

  /** A list of codes in either shape settles every question it grants, and every one without a full resource. */
  lemma ReadableCodesDecide(perms: Fetched, authz: Fetched, reply: Reply, q: Query, codes: set<string>)
    requires perms == Fetched.Found(JArray(codes)) || perms == Fetched.Found(JWrapped(JArray(codes)))
    requires Grants(codes, q.permission) || q.resourceType == "" || q.resourceId == ""
    ensures IsAllowed(perms, authz, reply, q) <==> Grants(codes, q.permission)
  {
  }

  /** A value that is no list reads as no codes, except that a wrapped one that is not null throws. */
  lemma OtherValuesGrantNothing(perms: Fetched, authz: Fetched, reply: Reply, q: Query)
    requires perms.Found? && !perms.json.JArray? && (perms.json.JWrapped? ==> perms.json.inner == JNull)
    requires q.resourceType == "" || q.resourceId == ""
    ensures !IsAllowed(perms, authz, reply, q)
  {
    GrantsNothing(q.permission);
  }

  /** In all other cases tier 1 says nothing, and the cached decision or else the reply is the answer. */
  lemma LaterTiersExactly(perms: Fetched, authz: Fetched, reply: Reply, q: Query)
    requires match perms
             case Failed => true
             case Missing => true
             case Found(JArray(codes)) => !Grants(codes, q.permission) && q.resourceType != "" && q.resourceId != ""
             case Found(JWrapped(JArray(codes))) => !Grants(codes, q.permission) && q.resourceType != "" && q.resourceId != ""
             case Found(JWrapped(inner)) => inner != JNull
             case Found(_) => q.resourceType != "" && q.resourceId != ""
    ensures IsAllowed(perms, authz, reply, q) <==>
            match authz
            case Found(json) => json == JBool(true) || json == JWrapped(JBool(true))
            case _ =>
              reply.Body? && (reply.data == JBool(true) || (reply.data == JNull && reply.bare == JBool(true)))
  {
    GrantsNothing(q.permission);
  }

  lemma GrantsNothing(required: string)
    ensures !Grants({}, required)
  {
  }

  // ---- reads along a run ----

  /** A read of the permission set either fails or sees the state, in either shape. */
  ghost predicate ReadsPerms(s: State, q: Query, perms: Fetched)
  {
    match perms
    case Failed => true
    case Missing => !PermsHit(s, q.tenant, q.user)
    case Found(json) =>
      PermsHit(s, q.tenant, q.user) &&
      var codes := s.perms[(q.tenant, q.user)].codes;
      json == JArray(codes) || json == JWrapped(JArray(codes))
  }

  ghost predicate ReadsAuthz(s: State, q: Query, authz: Fetched)
  {
    match authz
    case Failed => true
    case Missing => !AuthzHit(s, q)
    case Found(json) =>
      AuthzHit(s, q) && (json == JBool(s.authz[q].allowed) || json == JWrapped(JBool(s.authz[q].allowed)))
  }

  /** Step `k` of the run is where a check of `q` answers. */
  ghost predicate AnsweredAt(d: Discipline, s: State, labels: seq<Label>, k: nat, q: Query, allowed: bool)
    requires CanRun(d, s, labels)
  {
    k < |labels| && AnswerOf(StateAt(d, s, labels, k), labels[k]) == Some((q, allowed))
  }

  /** What one call of the SDK reads, and after how many steps of the run it reads it. */
  datatype Ask = Ask(perms: Fetched, permsAt: nat, authz: Fetched, authzAt: nat, reply: Reply, replyAt: nat)

  /** Each read sees the state of its own moment; where HTTP is reached, the answer sent is what a check of the service gave. */
  ghost predicate Sees(d: Discipline, s: State, labels: seq<Label>, q: Query, ask: Ask)
    requires CanRun(d, s, labels)
  {
    && ask.permsAt <= ask.authzAt <= |labels|
    && ReadsPerms(StateAt(d, s, labels, ask.permsAt), q, ask.perms)
    && ReadsAuthz(StateAt(d, s, labels, ask.authzAt), q, ask.authz)
    && (ReachesHttp(ask.perms, ask.authz, q) && Answers(ask.reply) ==>
          ask.authzAt <= ask.replyAt && AnsweredAt(d, s, labels, ask.replyAt, q, Says(ask.reply, true)))
  }

  ghost predicate Allows(ask: Ask, q: Query)
  {
    IsAllowed(ask.perms, ask.authz, ask.reply, q)
  }

  lemma TierOneIsRight(d: Discipline, s: State, labels: seq<Label>, until: Time, q: Query, ask: Ask)
    requires Undisturbed(d, s, labels, q.tenant, q.user, until) && Sees(d, s, labels, q, ask) && ask.perms.Found?
    ensures PermsOf(ask.perms.json) == Some(Effective(s.db, q.tenant, q.user, s.now))
  {
    UndisturbedAt(d, s, labels, q.tenant, q.user, until, ask.permsAt);
    SteadyPerms(s, StateAt(d, s, labels, ask.permsAt), q.tenant, q.user, until);
  }

  lemma TierTwoIsRight(d: Discipline, s: State, labels: seq<Label>, until: Time, q: Query, ask: Ask)
    requires Undisturbed(d, s, labels, q.tenant, q.user, until) && Sees(d, s, labels, q, ask) && ask.authz.Found?
    ensures FlagOf(ask.authz.json) == Decide(s.db, q, s.now)
  {
    UndisturbedAt(d, s, labels, q.tenant, q.user, until, ask.authzAt);
    SteadyAuthz(s, StateAt(d, s, labels, ask.authzAt), q, until);
  }

  /**
   * The SDK agrees with the service. Along any run that is undisturbed for the user, the
   * checks of other callers and of this very call included, with each read at its own
   * moment and under every combination of read failures, misses and HTTP failures: it
   * answers the reference decision, except that when it needed the service and got no
   * answer it denies. This includes questions that give only one of resource type and id.
   */
  lemma SdkAgreesWithReference(d: Discipline, s: State, labels: seq<Label>, until: Time, q: Query, ask: Ask)
    requires Undisturbed(d, s, labels, q.tenant, q.user, until) && Sees(d, s, labels, q, ask)
    ensures Allows(ask, q) ==
            if ReachesHttp(ask.perms, ask.authz, q) && !Answers(ask.reply) then false else Decide(s.db, q, s.now)
  {
    if Tier1Answers(ask.perms, q) {
      TierOneIsRight(d, s, labels, until, q, ask);
    } else if ask.authz.Found? {
      TierTwoIsRight(d, s, labels, until, q, ask);
    } else if Answers(ask.reply) {
      AnswersAreSteady(d, s, labels, until, ask.replyAt, q, Says(ask.reply, true));
    }
  }

  // ---- the guards ----

  datatype Identity = OrdinaryUser | SuperAdmin | Impersonation
  datatype Principal = Principal(sub: Id, tenant: Id, identity: Identity)

  /** A route's metadata and the request it guards; "" stands for an absent parameter. */
  datatype Request = Request(
    isPublic: bool,
    required: Option<seq<string>>,
    user: Option<Principal>,
    selfParam: string,
    targetId: string)

  function Needs(r: Request): seq<string>
  {
    if r.required.Some? then r.required.value else []
  }

  predicate SelfAccess(r: Request)
    requires r.user.Some?
  {
    r.selfParam != "" && r.targetId != "" && r.targetId == r.user.value.sub
  }

  function Needed(user: Principal, permission: string): Query
  {
    Query(user.tenant, user.sub, permission, "", "")
  }

  /** The request is one whose permissions are checked at all. */
  predicate IsChecked(r: Request)
  {
    Needs(r) != [] && r.user.Some? && !r.user.value.identity.SuperAdmin? && !SelfAccess(r)
  }

  /** The service's guard: one batch of checks, all of which must allow. */
  predicate BatchGuardAdmits(r: Request, results: seq<bool>)
  {
    if r.isPublic || Needs(r) == [] then true
    else if r.user.None? then false
    else if r.user.value.identity.SuperAdmin? || SelfAccess(r) then true
    else forall i | 0 <= i < |results| :: results[i]
  }

  /** The SDK guard's loop: it stops at the first permission that is not allowed. */
  ghost predicate AllAllowed(user: Principal, needs: seq<string>, asks: seq<Ask>)
    requires |asks| == |needs|
  {
    needs == [] || (Allows(asks[0], Needed(user, needs[0])) && AllAllowed(user, needs[1..], asks[1..]))
  }

  ghost predicate LoopGuardAdmits(r: Request, asks: seq<Ask>)
    requires |asks| == |Needs(r)|
  {
    if Needs(r) == [] then true
    else if r.user.None? then false
    else if r.user.value.identity.SuperAdmin? || SelfAccess(r) then true
    else AllAllowed(r.user.value, Needs(r), asks)
  }

  /** What both are for: nothing required, or a user who is a super admin, the target itself, or may do all that is required. */
  ghost predicate ShouldAdmit(db: Db, now: Time, r: Request)
  {
    || r.required == None || r.required == Some([])
    || (r.user.Some? &&
        var Principal(sub, tenant, identity) := r.user.value;
        (|| identity == SuperAdmin
         || (r.selfParam != "" && r.targetId != "" && r.targetId == sub)
         || forall p | p in r.required.value :: Decide(db, Query(tenant, sub, p, "", ""), now)))
  }

  /** The loop goes through exactly when each of its calls allows. */
  lemma {:induction false} LoopAllowsAll(user: Principal, needs: seq<string>, asks: seq<Ask>)
    requires |asks| == |needs|
    ensures AllAllowed(user, needs, asks) <==>
            forall i | 0 <= i < |needs| :: Allows(asks[i], Query(user.tenant, user.sub, needs[i], "", ""))
  {
    if needs != [] {
      LoopAllowsAll(user, needs[1..], asks[1..]);
      assert forall i | 0 < i < |needs| :: needs[i] == needs[1..][i - 1] && asks[i] == asks[1..][i - 1];
    }
  }

  /**
   * A user who is neither a super admin nor the record's own gets through either guard
   * exactly when nothing is required or every required permission was allowed.
   */
  lemma OthersNeedEveryPermission(r: Request, user: Principal, results: seq<bool>, asks: seq<Ask>)
    requires !r.isPublic && r.user == Some(user) && user.identity != SuperAdmin
    requires r.selfParam == "" || r.targetId != user.sub
    requires |asks| == |Needs(r)| == |results|
    ensures BatchGuardAdmits(r, results) <==>
            r.required == None || forall i | 0 <= i < |r.required.value| :: results[i]
    ensures LoopGuardAdmits(r, asks) <==>
            r.required == None ||
            forall i | 0 <= i < |r.required.value| :: Allows(asks[i], Query(user.tenant, user.sub, r.required.value[i], "", ""))
  {
    LoopAllowsAll(user, Needs(r), asks);
  }

  /** Where no answer matters: a route that requires nothing, a public one for the batch guard alone, a missing user. */
  lemma AnsweredWithoutChecks(r: Request, results: seq<bool>, asks: seq<Ask>)
    requires |asks| == |Needs(r)|
    ensures r.required == None || r.required == Some([]) ==> BatchGuardAdmits(r, results) && LoopGuardAdmits(r, asks)
    ensures r.isPublic ==> BatchGuardAdmits(r, results)
    ensures r.user == None && r.required != None && r.required != Some([]) ==>
              (BatchGuardAdmits(r, results) <==> r.isPublic) && !LoopGuardAdmits(r, asks)
  {
  }

  /** Each result of the batch is what a check of its permission answered somewhere in the run, in any interleaving. */
  ghost predicate BatchAnswered(d: Discipline, s: State, labels: seq<Label>, user: Principal, needs: seq<string>, results: seq<bool>)
    requires CanRun(d, s, labels)
  {
    && |results| == |needs|
    && forall i | 0 <= i < |needs| :: exists k :: AnsweredAt(d, s, labels, k, Needed(user, needs[i]), results[i])
  }

  /** Every call the loop makes sees the run, and finds the service if it needs it. */
  ghost predicate LoopSees(d: Discipline, s: State, labels: seq<Label>, user: Principal, needs: seq<string>, asks: seq<Ask>)
    requires CanRun(d, s, labels) && |asks| == |needs|
  {
    needs == [] ||
    (&& Sees(d, s, labels, Needed(user, needs[0]), asks[0])
     && (ReachesHttp(asks[0].perms, asks[0].authz, Needed(user, needs[0])) ==> Answers(asks[0].reply))
     && (Allows(asks[0], Needed(user, needs[0])) ==> LoopSees(d, s, labels, user, needs[1..], asks[1..])))
  }

  /** All of the batch allow exactly when every required permission is the user's. */
  lemma BatchIsForAll(
      d: Discipline, s: State, labels: seq<Label>, until: Time, user: Principal, needs: seq<string>, results: seq<bool>)
    requires Undisturbed(d, s, labels, user.tenant, user.sub, until) && BatchAnswered(d, s, labels, user, needs, results)
    ensures (forall i | 0 <= i < |results| :: results[i]) <==> forall p | p in needs :: Decide(s.db, Needed(user, p), s.now)
  {
    forall i | 0 <= i < |needs|
      ensures results[i] == Decide(s.db, Needed(user, needs[i]), s.now)
    {
      var k :| AnsweredAt(d, s, labels, k, Needed(user, needs[i]), results[i]);
      AnswersAreSteady(d, s, labels, until, k, Needed(user, needs[i]), results[i]);
    }
    if forall i | 0 <= i < |results| :: results[i] {
      forall p | p in needs
        ensures Decide(s.db, Needed(user, p), s.now)
      {
        var i :| 0 <= i < |needs| && needs[i] == p;
        assert results[i];
      }
    }
  }

  /** The loop goes through exactly when every required permission is the user's. */
  lemma {:induction false} LoopIsForAll(
      d: Discipline, s: State, labels: seq<Label>, until: Time, user: Principal, needs: seq<string>, asks: seq<Ask>)
    requires Undisturbed(d, s, labels, user.tenant, user.sub, until)
    requires |asks| == |needs| && LoopSees(d, s, labels, user, needs, asks)
    ensures AllAllowed(user, needs, asks) <==> forall p | p in needs :: Decide(s.db, Needed(user, p), s.now)
  {
    if needs != [] {
      SdkAgreesWithReference(d, s, labels, until, Needed(user, needs[0]), asks[0]);
      if Allows(asks[0], Needed(user, needs[0])) {
        LoopIsForAll(d, s, labels, until, user, needs[1..], asks[1..]);
      }
      assert forall p :: p in needs <==> p == needs[0] || p in needs[1..];
    }
  }

  /**
   * On a route that is not public the two guards admit the same requests, the ones they
   * should, along any run that is undisturbed for the user and with a reachable service.
   * The checks of the request change the caches as they go: a later one may read what an
   * earlier one stored, those of the batch interleave, and other callers' run on.
   */
  lemma GuardsAgree(d: Discipline, s: State, labels: seq<Label>, until: Time, r: Request, results: seq<bool>, asks: seq<Ask>)
    requires CanRun(d, s, labels) && !r.isPublic && |asks| == |Needs(r)|
    requires IsChecked(r) ==>
               var user := r.user.value;
               && Undisturbed(d, s, labels, user.tenant, user.sub, until)
               && BatchAnswered(d, s, labels, user, Needs(r), results) && LoopSees(d, s, labels, user, Needs(r), asks)
    ensures BatchGuardAdmits(r, results) <==> ShouldAdmit(s.db, s.now, r)
    ensures LoopGuardAdmits(r, asks) <==> ShouldAdmit(s.db, s.now, r)
  {
    if IsChecked(r) {
      var user := r.user.value;
      BatchIsForAll(d, s, labels, until, user, Needs(r), results);
      LoopIsForAll(d, s, labels, until, user, Needs(r), asks);
    }
  }
}
