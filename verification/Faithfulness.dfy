// What it means for a value computed earlier to agree with the tables now: it may
// err on one side, through an assignment that has run out since. And which changes
// of the tables keep such values as they are.

module Faithfulness {
  import opened PermissionMatcher
  import opened Tables
  import opened Mutations
  import opened Protocol

  /** `v` contains the truth, and is the truth when nothing ran out. */
  predicate Approximates<T>(truth: set<T>, v: set<T>, unexpired: bool)
  {
    truth <= v && (unexpired ==> v == truth)
  }

  /** No assignment of the user ran out since `asOf`. */
  ghost predicate Unexpired(s: State, t: Id, u: Id, asOf: Time)
  {
    NoExpiry(s.db, s.purged, t, u, asOf, s.now)
  }

  function RolesNow(s: State, t: Id, u: Id): set<Id> { HeldRoles(s.db, t, u, s.now) }
  function GivenNow(s: State, t: Id, u: Id): set<Permission> { PermissionsOf(s.db, RolesNow(s, t, u)) }
  function CodesNow(s: State, t: Id, u: Id): set<string> { Effective(s.db, t, u, s.now) }

  // the three stages of reading a permission set, and a decision

  ghost predicate RolesOk(s: State, t: Id, u: Id, held: set<Id>, asOf: Time)
  {
    asOf <= s.now && Approximates(RolesNow(s, t, u), held, Unexpired(s, t, u, asOf))
  }

  ghost predicate GivenOk(s: State, t: Id, u: Id, given: set<Permission>, asOf: Time)
  {
    asOf <= s.now && Approximates(GivenNow(s, t, u), given, Unexpired(s, t, u, asOf))
  }

  ghost predicate SetOk(s: State, t: Id, u: Id, codes: set<string>, asOf: Time)
  {
    asOf <= s.now && Approximates(CodesNow(s, t, u), codes, Unexpired(s, t, u, asOf))
  }

  /** A denial is never wrong, an allow only through an expiry. */
  ghost predicate DecisionOk(s: State, q: Query, allowed: bool, asOf: Time)
  {
    && asOf <= s.now
    && (Decide(s.db, q, s.now) ==> allowed)
    && (Unexpired(s, q.tenant, q.user, asOf) ==> allowed == Decide(s.db, q, s.now))
  }

  /** A decision RBAC made alone: no ACL row can change it. */
  ghost predicate RbacOk(s: State, q: Query, allowed: bool, asOf: Time)
  {
    && asOf <= s.now
    && (RbacAllows(s.db, q, s.now) ==> allowed)
    && (Unexpired(s, q.tenant, q.user, asOf) ==> allowed == RbacAllows(s.db, q, s.now))
    && (allowed || !q.HasResource())
  }

  lemma RbacDecides(s: State, q: Query, allowed: bool, asOf: Time)
    requires RbacOk(s, q, allowed, asOf)
    ensures DecisionOk(s, q, allowed, asOf)
  {
  }

  // ---- from one stage to the next ----

  /** The mappings of faithful roles are faithful, whenever they are read. */
  lemma RolesGive(s: State, t: Id, u: Id, held: set<Id>, asOf: Time)
    requires RolesOk(s, t, u, held, asOf)
    ensures GivenOk(s, t, u, PermissionsOf(s.db, held), asOf)
  {
  }

  lemma NoRolesGive(s: State, t: Id, u: Id)
    requires RolesNow(s, t, u) == {}
    ensures GivenOk(s, t, u, {}, s.now)
  {
  }

  /** So is the set that the overrides leave of them. */
  lemma GivenLeaves(s: State, t: Id, u: Id, given: set<Permission>, asOf: Time)
    requires GivenOk(s, t, u, given, asOf)
    ensures SetOk(s, t, u, Overridden(s.db, t, u, given), asOf)
  {
    EffectiveInThreeReads(s.db, t, u, s.now);
    OverriddenMonotone(s.db, t, u, GivenNow(s, t, u), given);
  }

  /** What a faithful set decides about a question. */
  lemma SetDecides(s: State, q: Query, codes: set<string>, asOf: Time)
    requires SetOk(s, q.tenant, q.user, codes, asOf)
    ensures RbacAllows(s.db, q, s.now) ==> Grants(codes, q.permission)
    ensures Grants(codes, q.permission) || !q.HasResource() ==> RbacOk(s, q, Grants(codes, q.permission), asOf)
    ensures !Grants(codes, q.permission) && q.HasResource() ==> DecisionOk(s, q, AclAllows(s.db, q), asOf)
  {
    if RbacAllows(s.db, q, s.now) {
      GrantsMonotone(CodesNow(s, q.tenant, q.user), codes, q.permission);
    }
  }

  // ---- changes that keep faithful values faithful ----

  /** Going from `s` to `s'` only expiries have touched what this user holds. */
  ghost predicate OnlyExpiries(s: State, s': State, t: Id, u: Id)
  {
    && s.now <= s'.now
    && RolesNow(s', t, u) <= RolesNow(s, t, u)
    && GivenNow(s', t, u) <= GivenNow(s, t, u)
    && CodesNow(s', t, u) <= CodesNow(s, t, u)
    && forall asOf | asOf <= s.now && Unexpired(s', t, u, asOf) ::
         && Unexpired(s, t, u, asOf)
         && RolesNow(s', t, u) == RolesNow(s, t, u)
         && GivenNow(s', t, u) == GivenNow(s, t, u)
         && CodesNow(s', t, u) == CodesNow(s, t, u)
  }

  lemma KeepsValues(s: State, s': State, t: Id, u: Id)
    requires OnlyExpiries(s, s', t, u)
    ensures forall held, asOf | RolesOk(s, t, u, held, asOf) :: RolesOk(s', t, u, held, asOf)
    ensures forall given, asOf | GivenOk(s, t, u, given, asOf) :: GivenOk(s', t, u, given, asOf)
    ensures forall codes, asOf | SetOk(s, t, u, codes, asOf) :: SetOk(s', t, u, codes, asOf)
  {
  }

  lemma KeepsDecision(s: State, s': State, q: Query, allowed: bool, asOf: Time)
    requires OnlyExpiries(s, s', q.tenant, q.user) && (AclAllows(s.db, q) <==> AclAllows(s'.db, q))
    requires DecisionOk(s, q, allowed, asOf)
    ensures DecisionOk(s', q, allowed, asOf)
  {
    if RbacAllows(s'.db, q, s'.now) {
      GrantsMonotone(CodesNow(s', q.tenant, q.user), CodesNow(s, q.tenant, q.user), q.permission);
    }
  }

  lemma KeepsRbac(s: State, s': State, q: Query, allowed: bool, asOf: Time)
    requires OnlyExpiries(s, s', q.tenant, q.user) && RbacOk(s, q, allowed, asOf)
    ensures RbacOk(s', q, allowed, asOf)
  {
    if RbacAllows(s'.db, q, s'.now) {
      GrantsMonotone(CodesNow(s', q.tenant, q.user), CodesNow(s, q.tenant, q.user), q.permission);
    }
  }

  /** The clock moves. */
  lemma TickOnlyExpiries(s: State, s': State, t: Id, u: Id)
    requires s'.db == s.db && s'.purged == s.purged && s.now <= s'.now
    ensures OnlyExpiries(s, s', t, u)
  {
    EffectiveOverTime(s.db, s.purged, t, u, s.now, s'.now);
    HeldRolesOverTime(s.db, s.purged, t, u, s.now, s'.now);
    forall asOf | asOf <= s.now && Unexpired(s', t, u, asOf)
      ensures Unexpired(s, t, u, asOf) && NoExpiry(s.db, s.purged, t, u, s.now, s'.now)
    {
    }
  }

  lemma HeldRolesOverTime(db: Db, purged: seq<UserRole>, t: Id, u: Id, from: Time, to: Time)
    requires from <= to
    ensures HeldRoles(db, t, u, to) <= HeldRoles(db, t, u, from)
    ensures NoExpiry(db, purged, t, u, from, to) ==> HeldRoles(db, t, u, to) == HeldRoles(db, t, u, from)
  {
    if NoExpiry(db, purged, t, u, from, to) {
      assert forall ur | ur in db.userRoles && Belongs(ur, t, u) && Active(ur.expires, from) :: Active(ur.expires, to);
    }
  }

  /** The tables change, but not in what this user's set is read from. */
  lemma SameRowsOnlyExpiries(s: State, s': State, t: Id, u: Id)
    requires SameForUser(s.db, s'.db, t, u) && s'.purged == s.purged && s'.now == s.now
    ensures OnlyExpiries(s, s', t, u)
  {
    FrameEffective(s.db, s'.db, t, u, s.now);
    assert RolesNow(s', t, u) == RolesNow(s, t, u);
    SameGiven(s.db, s'.db, t, u, s.now);
    assert forall asOf :: Unexpired(s', t, u, asOf) <==> Unexpired(s, t, u, asOf);
  }

  lemma SameGiven(db: Db, db': Db, t: Id, u: Id, now: Time)
    requires SameForUser(db, db', t, u)
    ensures PermissionsOf(db', HeldRoles(db', t, u, now)) == PermissionsOf(db, HeldRoles(db, t, u, now))
  {
    forall p: Permission
      ensures p in PermissionsOf(db', HeldRoles(db', t, u, now)) <==> p in PermissionsOf(db, HeldRoles(db, t, u, now))
    {
      PermissionsGiven(db, t, u, now, p);
      PermissionsGiven(db', t, u, now, p);
      FrameRoleGives(db, db', t, u, now, p.id);
    }
  }

  // ---- purge ----

  /**
   * The purge is invisible: at its own time and every later one, each user's
   * effective set and every decision are what they were, so it needs no event.
   */
  lemma PurgeInvisible(db: Db, purgedAt: Time, now: Time, q: Query)
    requires purgedAt <= now
    ensures HeldRoles(PurgeRows(db, purgedAt), q.tenant, q.user, now) == HeldRoles(db, q.tenant, q.user, now)
    ensures Effective(PurgeRows(db, purgedAt), q.tenant, q.user, now) == Effective(db, q.tenant, q.user, now)
    ensures Decide(PurgeRows(db, purgedAt), q, now) <==> Decide(db, q, now)
  {
    var db' := PurgeRows(db, purgedAt);
    assert forall ur | ur in db.userRoles && Active(ur.expires, now) :: ur in db'.userRoles;
    EffectiveInThreeReads(db, q.tenant, q.user, now);
    EffectiveInThreeReads(db', q.tenant, q.user, now);
  }

  lemma PurgeKeepsHistory(db: Db, purged: seq<UserRole>, t: Id, u: Id, asOf: Time, now: Time, at: Time)
    ensures NoExpiry(PurgeRows(db, at), purged + PurgedRows(db, at), t, u, asOf, now) <==> NoExpiry(db, purged, t, u, asOf, now)
  {
    var db', purged' := PurgeRows(db, at), purged + PurgedRows(db, at);
    assert forall ur: UserRole :: (ur in db.userRoles || ur in purged) <==> (ur in db'.userRoles || ur in purged');
  }

  lemma PurgeOnlyExpiries(s: State, s': State, t: Id, u: Id)
    requires s'.db == PurgeRows(s.db, s.now) && s'.purged == s.purged + PurgedRows(s.db, s.now) && s'.now == s.now
    ensures OnlyExpiries(s, s', t, u)
  {
    PurgeInvisible(s.db, s.now, s.now, Query(t, u, "", "", ""));
    forall asOf
      ensures Unexpired(s', t, u, asOf) <==> Unexpired(s, t, u, asOf)
    {
      PurgeKeepsHistory(s.db, s.purged, t, u, asOf, s.now, s.now);
    }
  }
}
