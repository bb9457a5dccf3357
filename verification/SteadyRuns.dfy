// Runs in which nothing concerns one user: other users' transactions, events and
// checks go on, the clock moves, entries come and go. Every read and every answer for
// the user along such a run is the same reference decision.

module SteadyRuns {
  import opened Tables
  import opened RowEdits
  import opened Protocol
  import opened Faithfulness
  import opened Coherence
  import opened Agreement

  /** When the roles behind a progress were read, if they were. */
  function ReadAt(at: Progress): Option<Time>
  {
    match at
    case AtMappings(_, roles) => Some(roles.time)
    case AtOverrides(_, roles, _) => Some(roles.time)
    case AtStorePerms(_, basis) => Some(basis.roles.time)
    case AtAcl(Some(denial)) => Some(denial.rbac.roles.time)
    case AtCount(Some(denial)) => Some(denial.rbac.roles.time)
    case AtStoreAcl(Some(denial), _, _) => Some(denial.rbac.roles.time)
    case AtStoreAuthz(_, rbac, _) => Some(rbac.roles.time)
    case _ => None
  }

  /** No assignment of the user that `s0` knows of runs out between `from` and `until`. */
  ghost predicate Lasting(s0: State, t: Id, u: Id, from: Time, until: Time)
  {
    NoExpiry(s0.db, s0.purged, t, u, from, until)
  }

  /** Nothing held for the user, cached or in a check, was read before an assignment ran out. */
  ghost predicate ReadsLast(s0: State, s: State, t: Id, u: Id, until: Time)
  {
    && ((t, u) in s.perms ==> Lasting(s0, t, u, s.perms[(t, u)].basis.roles.time, until))
    && (forall q | q in s.authz && q.tenant == t && q.user == u :: Lasting(s0, t, u, s.authz[q].rbac.roles.time, until))
    && (forall c | c in s.checks && s.checks[c].q.tenant == t && s.checks[c].q.user == u && ReadAt(s.checks[c].at).Some? ::
          Lasting(s0, t, u, ReadAt(s.checks[c].at).value, until))
  }

  /** The user's assignments, stored or purged, are those of `s0`. */
  ghost predicate SameAssignmentsEver(s0: State, s: State, t: Id, u: Id)
  {
    forall ur: UserRole | Belongs(ur, t, u) ::
      (ur in s0.db.userRoles || ur in s0.purged) <==> (ur in s.db.userRoles || ur in s.purged)
  }

  ghost predicate SameAclAnswers(s0: State, s: State, t: Id, u: Id)
  {
    forall q: Query | q.tenant == t && q.user == u :: AclAllows(s0.db, q) <==> AclAllows(s.db, q)
  }

  /** For this user, `s` is as good as `s0`. */
  ghost predicate Steady(s0: State, s: State, t: Id, u: Id, until: Time)
  {
    && s0.now <= s.now <= until
    && SameAssignmentsEver(s0, s, t, u) && SameAclAnswers(s0, s, t, u)
    && CodesNow(s, t, u) == CodesNow(s0, t, u)
    && ReadsLast(s0, s, t, u, until)
  }

  lemma LastingIsUnexpired(s0: State, s: State, t: Id, u: Id, from: Time, until: Time)
    requires SameAssignmentsEver(s0, s, t, u) && s.now <= until && Lasting(s0, t, u, from, until)
    ensures Unexpired(s, t, u, from)
  {
  }

  // ---- one step ----

  /** What a step does to the tables is nothing for this user, or an expiry. */
  ghost predicate OnlyExpiriesStep(s: State, s': State, t: Id, u: Id)
  {
    OnlyExpiries(s, s', t, u) && SameAssignmentsEver(s, s', t, u) && SameAclAnswers(s, s', t, u)
  }

  lemma OthersOnlyExpiries(d: Discipline, s: State, l: Label, t: Id, u: Id)
    requires Enabled(d, s, l) && !l.Tick? && !l.Purge? && !l.Commit? && !l.Found?
    ensures OnlyExpiriesStep(s, Step(d, s, l), t, u)
  {
    OtherStepsSameWorld(d, s, l);
    TickOnlyExpiries(s, Step(d, s, l), t, u);
  }

  lemma StepOnlyExpiries(d: Discipline, s: State, l: Label, t: Id, u: Id)
    requires Disciplined(d) && Inv(s) && Enabled(d, s, l) && Clear(s, t, u) && NotFounding(l, t, u)
    ensures OnlyExpiriesStep(s, Step(d, s, l), t, u)
  {
    match l
    case Tick(_) => TickOnlyExpiries(s, Step(d, s, l), t, u);
    case Purge => PurgingOnlyExpiries(d, s, t, u);
    case Commit(x) => CommitOnlyExpiries(s, x, t, u);
    case Found(_, _, _) => FoundingOnlyExpiries(d, s, l, t, u);
    case _ => OthersOnlyExpiries(d, s, l, t, u);
  }

  lemma PurgingOnlyExpiries(d: Discipline, s: State, t: Id, u: Id)
    ensures OnlyExpiriesStep(s, Step(d, s, Purge), t, u)
  {
    var s' := Step(d, s, Purge);
    PurgeOnlyExpiries(s, s', t, u);
    assert forall ur: UserRole :: (ur in s.db.userRoles || ur in s.purged) <==> (ur in s'.db.userRoles || ur in s'.purged);
  }

  lemma FoundingOnlyExpiries(d: Discipline, s: State, l: Label, t: Id, u: Id)
    requires Inv(s) && l.Found? && Enabled(d, s, l) && NotFounding(l, t, u)
    ensures var s' := Step(d, s, l);
            OnlyExpiries(s, s', t, u) && SameAssignmentsEver(s, s', t, u) && SameAclAnswers(s, s', t, u)
  {
    var s' := Step(d, s, l);
    forall q ensures AclAllows(s.db, q) <==> AclAllows(s'.db, q) {
      FoundingTouchesOnlyTheAdmin(s.db, l.tenant, l.admin, l.role, t, u, q);
    }
    FoundingTouchesOnlyTheAdmin(s.db, l.tenant, l.admin, l.role, t, u, Query(t, u, "", "", ""));
    SameRowsOnlyExpiries(s, s', t, u);
  }

  lemma OtherStepsSameWorld(d: Discipline, s: State, l: Label)
    requires Enabled(d, s, l) && !l.Tick? && !l.Purge? && !l.Commit? && !l.Found?
    ensures SameWorld(s, Step(d, s, l))
  {
  }

  lemma CommitOnlyExpiries(s: State, x: nat, t: Id, u: Id)
    requires Inv(s) && x in s.txs && Clear(s, t, u)
    requires AdmitsAll(s.db, s.txs[x].edits) && CascadeFree(s.db, s.txs[x].edits)
    ensures var s' := Close(s, x);
            OnlyExpiries(s, s', t, u) && SameAssignmentsEver(s, s', t, u) && SameAclAnswers(s, s', t, u)
  {
    var s', tx := Close(s, x), s.txs[x];
    assert TxOk(s, tx);
    LandingIsCovered(s.db, tx.edits, tx.event);
    assert tx.event.Some? ==> !Touches(tx.event.value, t, u);
    assert SameForUser(s.db, s'.db, t, u);
    SameRowsOnlyExpiries(s, s', t, u);
  }

  // What a step holds for the user it held before, or reads now.

  ghost predicate PermsReadsKept(s: State, s': State, t: Id, u: Id)
  {
    (t, u) in s'.perms ==>
      || ((t, u) in s.perms && s'.perms[(t, u)] == s.perms[(t, u)])
      || ReadInCheck(s, s'.perms[(t, u)].basis.roles.time, t, u)
  }

  ghost predicate AuthzReadsKept(s: State, s': State, t: Id, u: Id)
  {
    forall q | q in s'.authz && q.tenant == t && q.user == u ::
      || (q in s.authz && s'.authz[q] == s.authz[q])
      || ReadInCheck(s, s'.authz[q].rbac.roles.time, t, u)
  }

  ghost predicate CheckReadsKept(s: State, s': State, t: Id, u: Id)
  {
    forall c | c in s'.checks && s'.checks[c].q.tenant == t && s'.checks[c].q.user == u && ReadAt(s'.checks[c].at).Some? ::
      || ReadInCheck(s, ReadAt(s'.checks[c].at).value, t, u)
      || ((t, u) in s.perms && ReadAt(s'.checks[c].at).value == s.perms[(t, u)].basis.roles.time)
      || ReadAt(s'.checks[c].at).value == s.now
  }

  ghost predicate ReadsKept(s: State, s': State, t: Id, u: Id)
  {
    PermsReadsKept(s, s', t, u) && AuthzReadsKept(s, s', t, u) && CheckReadsKept(s, s', t, u)
  }

  ghost predicate ReadInCheck(s: State, time: Time, t: Id, u: Id)
  {
    exists c | c in s.checks :: s.checks[c].q.tenant == t && s.checks[c].q.user == u && ReadAt(s.checks[c].at) == Some(time)
  }

  lemma KeptReadsLast(s0: State, s: State, s': State, t: Id, u: Id, until: Time)
    requires ReadsLast(s0, s, t, u, until) && ReadsKept(s, s', t, u) && s0.now <= s.now && Lasting(s0, t, u, s0.now, until)
    ensures ReadsLast(s0, s', t, u, until)
  {
    assert forall time | ReadInCheck(s, time, t, u) :: Lasting(s0, t, u, time, until);
    assert Lasting(s0, t, u, s.now, until);
  }

  lemma NextReads(d: Discipline, s: State, q: Query, at: Progress)
    ensures var o := Next(d, s, q, at);
            && (o.next.Some? && ReadAt(o.next.value).Some? ==>
                  || ReadAt(o.next.value) == ReadAt(at)
                  || ((q.tenant, q.user) in s.perms && ReadAt(o.next.value).value == s.perms[(q.tenant, q.user)].basis.roles.time)
                  || ReadAt(o.next.value).value == s.now)
            && (o.write.WritePerms? ==> ReadAt(at) == Some(o.write.perms.basis.roles.time))
            && (o.write.WriteAuthz? ==> ReadAt(at) == Some(o.write.authz.rbac.roles.time))
  {
  }

  lemma ReadsItsOwn(s: State, c: nat)
    requires c in s.checks && ReadAt(s.checks[c].at).Some?
    ensures ReadInCheck(s, ReadAt(s.checks[c].at).value, s.checks[c].q.tenant, s.checks[c].q.user)
  {
  }

  lemma AdvanceEntriesKept(d: Discipline, s: State, c: nat, t: Id, u: Id)
    requires c in s.checks
    ensures PermsReadsKept(s, AdvanceCheck(d, s, c), t, u) && AuthzReadsKept(s, AdvanceCheck(d, s, c), t, u)
  {
    var q, at := s.checks[c].q, s.checks[c].at;
    var o := Next(d, s, q, at);
    NextReads(d, s, q, at);
    if ReadAt(at).Some? { ReadsItsOwn(s, c); }
    WrittenReadsKept(s, q, o.write, ReadAt(at), t, u);
  }

  lemma WrittenReadsKept(s: State, q: Query, w: Write, read: Option<Time>, t: Id, u: Id)
    requires read.Some? ==> ReadInCheck(s, read.value, q.tenant, q.user)
    requires w.WritePerms? ==> read == Some(w.perms.basis.roles.time)
    requires w.WriteAuthz? ==> read == Some(w.authz.rbac.roles.time)
    ensures PermsReadsKept(s, Wrote(s, q, w), t, u) && AuthzReadsKept(s, Wrote(s, q, w), t, u)
  {
  }

  lemma AdvanceChecksKept(d: Discipline, s: State, c: nat, t: Id, u: Id)
    requires c in s.checks
    ensures CheckReadsKept(s, AdvanceCheck(d, s, c), t, u)
  {
    NextReads(d, s, s.checks[c].q, s.checks[c].at);
    if ReadAt(s.checks[c].at).Some? { ReadsItsOwn(s, c); }
    var s' := AdvanceCheck(d, s, c);
    forall b | b in s'.checks && b != c && ReadAt(s'.checks[b].at).Some?
      ensures ReadInCheck(s, ReadAt(s'.checks[b].at).value, s'.checks[b].q.tenant, s'.checks[b].q.user)
    {
      ReadsItsOwn(s, b);
    }
  }

  lemma AdvanceReadsKept(d: Discipline, s: State, c: nat, t: Id, u: Id)
    requires c in s.checks
    ensures ReadsKept(s, AdvanceCheck(d, s, c), t, u)
  {
    AdvanceEntriesKept(d, s, c, t, u);
    AdvanceChecksKept(d, s, c, t, u);
  }

  /** Entries only disappear, and checks only begin. */
  ghost predicate OnlyShrinks(s: State, s': State)
  {
    && (forall k | k in s'.perms :: k in s.perms && s'.perms[k] == s.perms[k])
    && (forall q | q in s'.authz :: q in s.authz && s'.authz[q] == s.authz[q])
    && (forall c | c in s'.checks :: (c in s.checks && s'.checks[c] == s.checks[c]) || ReadAt(s'.checks[c].at).None?)
  }

  lemma DeliveriesOnlyShrink(d: Discipline, s: State, l: Label)
    requires Enabled(d, s, l) && (l.StartSource? || l.FinishSource? || l.StartDerived? || l.FinishDerived?)
    ensures OnlyShrinks(s, Step(d, s, l))
  {
  }

  lemma HandlersOnlyShrink(d: Discipline, s: State, l: Label)
    requires Enabled(d, s, l) && (l.Emit? || l.Commit? || l.Abort? || l.Replay? || l.Lose?)
    ensures OnlyShrinks(s, Step(d, s, l))
  {
  }

  lemma EvictionsOnlyShrink(d: Discipline, s: State, l: Label)
    requires Enabled(d, s, l) && (l.EvictPerms? || l.EvictAcl? || l.EvictAuthz?)
    ensures OnlyShrinks(s, Step(d, s, l))
  {
  }

  lemma ClockOnlyShrinks(d: Discipline, s: State, l: Label)
    requires Enabled(d, s, l) && (l.Tick? || l.Purge? || l.Found?)
    ensures OnlyShrinks(s, Step(d, s, l))
  {
  }

  lemma BeganOnlyShrinks(s: State, q: Query, at: Progress)
    requires ReadAt(at).None?
    ensures OnlyShrinks(s, Began(s, q, at))
  {
  }

  lemma BeginOnlyShrinks(d: Discipline, s: State, l: Label)
    requires Enabled(d, s, l) && (l.Begin? || l.BeginAcl?)
    ensures OnlyShrinks(s, Step(d, s, l))
  {
    BeganOnlyShrinks(s, l.q, AtPerms);
    BeganOnlyShrinks(s, l.q, AtAcl(None));
  }

  lemma ShrunkReadsKept(s: State, s': State, t: Id, u: Id)
    requires OnlyShrinks(s, s')
    ensures ReadsKept(s, s', t, u)
  {
    forall c | c in s'.checks && s'.checks[c].q.tenant == t && s'.checks[c].q.user == u && ReadAt(s'.checks[c].at).Some?
      ensures ReadInCheck(s, ReadAt(s'.checks[c].at).value, t, u)
    {
      assert c in s.checks && s'.checks[c] == s.checks[c];
    }
  }

  lemma StepReadsKept(d: Discipline, s: State, l: Label, t: Id, u: Id)
    requires Enabled(d, s, l)
    ensures ReadsKept(s, Step(d, s, l), t, u)
  {
    if l.Advance? {
      AdvanceReadsKept(d, s, l.check, t, u);
    } else {
      if l.StartSource? || l.FinishSource? || l.StartDerived? || l.FinishDerived? {
        DeliveriesOnlyShrink(d, s, l);
      } else if l.Emit? || l.Commit? || l.Abort? || l.Replay? || l.Lose? {
        HandlersOnlyShrink(d, s, l);
      } else if l.EvictPerms? || l.EvictAcl? || l.EvictAuthz? {
        EvictionsOnlyShrink(d, s, l);
      } else if l.Begin? || l.BeginAcl? {
        BeginOnlyShrinks(d, s, l);
      } else {
        ClockOnlyShrinks(d, s, l);
      }
      ShrunkReadsKept(s, Step(d, s, l), t, u);
    }
  }

  lemma StepKeepsSteady(d: Discipline, s0: State, s: State, l: Label, t: Id, u: Id, until: Time)
    requires Disciplined(d) && Inv(s) && Enabled(d, s, l) && Clear(s, t, u) && NotFounding(l, t, u)
    requires Steady(s0, s, t, u, until) && Lasting(s0, t, u, s0.now, until) && Step(d, s, l).now <= until
    ensures Steady(s0, Step(d, s, l), t, u, until)
  {
    var s' := Step(d, s, l);
    StepOnlyExpiries(d, s, l, t, u);
    assert Lasting(s0, t, u, s.now, until);
    LastingIsUnexpired(s0, s', t, u, s.now, until);
    StepReadsKept(d, s, l, t, u);
    KeptReadsLast(s0, s, s', t, u, until);
  }

  // ---- what is read and answered in a steady state ----

  lemma SteadyPerms(s0: State, s: State, t: Id, u: Id, until: Time)
    requires Inv(s) && Clear(s, t, u) && Steady(s0, s, t, u, until) && (t, u) in s.perms
    ensures s.perms[(t, u)].codes == CodesNow(s0, t, u)
  {
    ClearPerms(s, t, u);
    LastingIsUnexpired(s0, s, t, u, s.perms[(t, u)].basis.roles.time, until);
  }

  lemma SteadyDecision(s0: State, s: State, q: Query, allowed: bool, asOf: Time, until: Time)
    requires Steady(s0, s, q.tenant, q.user, until) && DecisionOk(s, q, allowed, asOf) && Lasting(s0, q.tenant, q.user, asOf, until)
    ensures allowed == Decide(s0.db, q, s0.now)
  {
    LastingIsUnexpired(s0, s, q.tenant, q.user, asOf, until);
  }

  lemma SteadyAuthz(s0: State, s: State, q: Query, until: Time)
    requires Inv(s) && Clear(s, q.tenant, q.user) && Steady(s0, s, q.tenant, q.user, until) && q in s.authz
    ensures s.authz[q].allowed == Decide(s0.db, q, s0.now)
  {
    ClearAuthz(s, q);
    SteadyDecision(s0, s, q, s.authz[q].allowed, s.authz[q].rbac.roles.time, until);
  }

  lemma SteadyAnswer(d: Discipline, s0: State, s: State, l: Label, q: Query, allowed: bool, until: Time)
    requires Inv(s) && Clear(s, q.tenant, q.user) && Steady(s0, s, q.tenant, q.user, until)
    requires AnswerOf(s, l) == Some((q, allowed))
    ensures allowed == Decide(s0.db, q, s0.now)
  {
    match l
    case Begin(_) => SteadyAuthz(s0, s, q, until);
    case Advance(c) =>
      ClearStoring(s, c);
      SteadyDecision(s0, s, q, allowed, s.checks[c].at.rbac.roles.time, until);
  }

  // ---- whole runs ----

  /** The step does not bring this very user into being. */
  predicate NotFounding(l: Label, t: Id, u: Id)
  {
    l.Found? ==> l.tenant != t || l.admin != u
  }

  /** All along the run nothing in flight concerns the user, and the clock stays before `until`. */
  ghost predicate ClearRun(d: Discipline, s: State, labels: seq<Label>, t: Id, u: Id, until: Time)
    decreases |labels|
  {
    && Clear(s, t, u) && s.now <= until
    && (labels == [] || (Enabled(d, s, labels[0]) && NotFounding(labels[0], t, u) && ClearRun(d, Step(d, s, labels[0]), labels[1..], t, u, until)))
  }

  /** The state after the first `k` steps. */
  ghost function StateAt(d: Discipline, s: State, labels: seq<Label>, k: nat): State
    requires k <= |labels| && CanRun(d, s, labels)
    decreases |labels|
  {
    if k == 0 then s else StateAt(d, Step(d, s, labels[0]), labels[1..], k - 1)
  }

  lemma {:induction false} ClearRunRuns(d: Discipline, s: State, labels: seq<Label>, t: Id, u: Id, until: Time)
    requires ClearRun(d, s, labels, t, u, until)
    ensures CanRun(d, s, labels)
    decreases |labels|
  {
    if labels != [] {
      ClearRunRuns(d, Step(d, s, labels[0]), labels[1..], t, u, until);
    }
  }

  /** Coherent, clear and steady for the user. */
  ghost predicate Good(s0: State, s: State, t: Id, u: Id, until: Time)
  {
    Inv(s) && Clear(s, t, u) && Steady(s0, s, t, u, until)
  }

  lemma GoodStep(d: Discipline, s0: State, s: State, labels: seq<Label>, t: Id, u: Id, until: Time) returns (s': State)
    requires labels != [] && Disciplined(d) && CanRun(d, s, labels) && ClearRun(d, s, labels, t, u, until)
    requires Good(s0, s, t, u, until) && Lasting(s0, t, u, s0.now, until)
    ensures s' == Step(d, s, labels[0]) && Good(s0, s', t, u, until)
    ensures CanRun(d, s', labels[1..]) && ClearRun(d, s', labels[1..], t, u, until)
  {
    StepKeepsCoherence(d, s, labels[0]);
    StepKeepsSteady(d, s0, s, labels[0], t, u, until);
    s' := Step(d, s, labels[0]);
  }

  lemma {:induction false} GoodAt(d: Discipline, s0: State, s: State, labels: seq<Label>, t: Id, u: Id, until: Time, k: nat)
    requires Disciplined(d) && CanRun(d, s, labels) && ClearRun(d, s, labels, t, u, until) && k <= |labels|
    requires Good(s0, s, t, u, until) && Lasting(s0, t, u, s0.now, until)
    ensures Good(s0, StateAt(d, s, labels, k), t, u, until)
    decreases |labels|
  {
    if k > 0 {
      var s' := GoodStep(d, s0, s, labels, t, u, until);
      GoodAt(d, s0, s', labels[1..], t, u, until, k - 1);
    }
  }

  /**
   * What a caller may assume of the time around one request: the deployment is
   * disciplined, no event concerning the user is in flight, and none of the user's
   * assignments runs out between the reading of what is held for them and the end.
   */
  ghost predicate Undisturbed(d: Discipline, s: State, labels: seq<Label>, t: Id, u: Id, until: Time)
  {
    && Disciplined(d) && Reachable(d, s) && CanRun(d, s, labels) && ClearRun(d, s, labels, t, u, until)
    && ReadsLast(s, s, t, u, until) && Lasting(s, t, u, s.now, until)
  }

  lemma UndisturbedAt(d: Discipline, s: State, labels: seq<Label>, t: Id, u: Id, until: Time, k: nat)
    requires Undisturbed(d, s, labels, t, u, until) && k <= |labels|
    ensures var sk := StateAt(d, s, labels, k); Inv(sk) && Clear(sk, t, u) && Steady(s, sk, t, u, until)
  {
    ReachableIsCoherent(d, s);
    GoodAt(d, s, s, labels, t, u, until, k);
  }

  /** Every answer for the user along the run is the reference decision at its start. */
  lemma AnswersAreSteady(
      d: Discipline, s: State, labels: seq<Label>, until: Time, k: nat, q: Query, allowed: bool)
    requires Undisturbed(d, s, labels, q.tenant, q.user, until) && k < |labels|
    requires AnswerOf(StateAt(d, s, labels, k), labels[k]) == Some((q, allowed))
    ensures allowed == Decide(s.db, q, s.now)
  {
    UndisturbedAt(d, s, labels, q.tenant, q.user, until, k);
    SteadyAnswer(d, s, StateAt(d, s, labels, k), labels[k], q, allowed, until);
  }
}
