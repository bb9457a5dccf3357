// A permission set is read in three statements, each of the tables committed at its
// own instant. When the three amount to the effective set of one state, and a case in
// which they amount to that of none.

module TornReads {
  import opened Tables
  import opened Mutations
  import opened RowEdits
  import opened Protocol
  import opened WholeChecks
  import Faithfulness

  /** The user has an override on the permission, one way or the other. */
  predicate Overrides(db: Db, t: Id, u: Id, permissionId: Id)
  {
    HasOverride(db, t, u, permissionId, Grant) || HasOverride(db, t, u, permissionId, Deny)
  }

  /**
   * What was read of the roles agrees with the tables of the last read, on every
   * permission that the overrides leave open.
   */
  ghost predicate RolesAgree(b: Basis, t: Id, u: Id)
  {
    forall p | p in b.overrides.db.permissions && !Overrides(b.overrides.db, t, u, p.id) ::
      p in PermissionsOf(b.mappings.db, HeldRoles(b.roles.db, t, u, b.roles.time)) <==>
      RoleGives(b.overrides.db, t, u, b.overrides.time, p.id)
  }

  ghost predicate SamePermissions(b: Basis)
  {
    b.roles.db.permissions == b.mappings.db.permissions == b.overrides.db.permissions
  }

  lemma MixedHolds(b: Basis, t: Id, u: Id, p: Permission)
    requires UniquePermissions(b.overrides.db.permissions) && SamePermissions(b) && p in b.overrides.db.permissions
    ensures p.code in MixedSet(b, t, u) <==> ReadAsHeld(b, t, u, p)
  {
    var given := PermissionsOf(b.mappings.db, HeldRoles(b.roles.db, t, u, b.roles.time));
    assert forall x | x in given :: x in b.overrides.db.permissions;
    assert forall x | x in b.overrides.db.permissions && x.code == p.code :: x == p;
  }

  lemma EffectiveHolds(db: Db, t: Id, u: Id, now: Time, p: Permission)
    requires UniquePermissions(db.permissions) && p in db.permissions
    ensures p.code in Effective(db, t, u, now) <==> Holds(db, t, u, now, p.id)
  {
    assert forall x | x in db.permissions && x.code == p.code :: x == p;
  }

  /** What the three reads say of a permission. */
  predicate ReadAsHeld(b: Basis, t: Id, u: Id, p: Permission)
  {
    && (|| p in PermissionsOf(b.mappings.db, HeldRoles(b.roles.db, t, u, b.roles.time))
        || HasOverride(b.overrides.db, t, u, p.id, Grant))
    && !HasOverride(b.overrides.db, t, u, p.id, Deny)
  }

  /**
   * The three reads give the effective set of a given state, one of the three or any other,
   * exactly when permission by permission they say what that state says.
   */
  lemma AnyStateExactly(b: Basis, sn: Snapshot, t: Id, u: Id)
    requires UniquePermissions(sn.db.permissions) && SamePermissions(b) && sn.db.permissions == b.overrides.db.permissions
    ensures MixedSet(b, t, u) == Effective(sn.db, t, u, sn.time) <==>
            forall p | p in sn.db.permissions :: ReadAsHeld(b, t, u, p) <==> Holds(sn.db, t, u, sn.time, p.id)
  {
    var mixed, effective := MixedSet(b, t, u), Effective(sn.db, t, u, sn.time);
    forall p | p in sn.db.permissions
      ensures (p.code in mixed <==> ReadAsHeld(b, t, u, p)) && (p.code in effective <==> Holds(sn.db, t, u, sn.time, p.id))
    {
      MixedHolds(b, t, u, p);
      EffectiveHolds(sn.db, t, u, sn.time, p);
    }
    forall c | c in mixed + effective
      ensures exists p | p in sn.db.permissions :: p.code == c
    {
    }
  }

  /** So a set that is torn, of none of its three states, differs from each at some permission. */
  lemma TornExactly(b: Basis, t: Id, u: Id)
    requires UniquePermissions(b.overrides.db.permissions) && SamePermissions(b)
    ensures (forall sn | sn in {b.roles, b.mappings, b.overrides} :: MixedSet(b, t, u) != Effective(sn.db, t, u, sn.time)) <==>
            (forall sn | sn in {b.roles, b.mappings, b.overrides} ::
               exists p :: p in sn.db.permissions && ReadAsHeld(b, t, u, p) != Holds(sn.db, t, u, sn.time, p.id))
  {
    forall sn | sn in {b.roles, b.mappings, b.overrides}
      ensures MixedSet(b, t, u) != Effective(sn.db, t, u, sn.time) <==>
              exists p :: p in sn.db.permissions && ReadAsHeld(b, t, u, p) != Holds(sn.db, t, u, sn.time, p.id)
    {
      AnyStateExactly(b, sn, t, u);
    }
  }

  /** The three reads give the effective set of the last state exactly when the roles agree with it. */
  lemma OneStateExactly(b: Basis, t: Id, u: Id)
    requires UniquePermissions(b.overrides.db.permissions) && SamePermissions(b)
    ensures MixedSet(b, t, u) == Effective(b.overrides.db, t, u, b.overrides.time) <==> RolesAgree(b, t, u)
  {
    var mixed, effective := MixedSet(b, t, u), Effective(b.overrides.db, t, u, b.overrides.time);
    forall p | p in b.overrides.db.permissions
      ensures (p.code in mixed <==> p.code in effective) <==>
              (Overrides(b.overrides.db, t, u, p.id)
               || (p in PermissionsOf(b.mappings.db, HeldRoles(b.roles.db, t, u, b.roles.time)) <==>
                   RoleGives(b.overrides.db, t, u, b.overrides.time, p.id)))
    {
      MixedHolds(b, t, u, p);
      EffectiveHolds(b.overrides.db, t, u, b.overrides.time, p);
    }
    forall c | c in mixed + effective
      ensures exists p | p in b.overrides.db.permissions :: p.code == c
    {
    }
  }

  /** So it does when, between the reads, the user's roles and what they map to stayed as they were. */
  lemma UndisturbedReadIsOneState(b: Basis, purged: seq<UserRole>, t: Id, u: Id)
    requires UniquePermissions(b.overrides.db.permissions) && SamePermissions(b)
    requires SameAssignments(b.roles.db, b.overrides.db, t, u)
    requires SameRolePermissions(b.roles.db, b.mappings.db, t, u) && SameRolePermissions(b.roles.db, b.overrides.db, t, u)
    requires b.roles.time <= b.overrides.time && NoExpiry(b.roles.db, purged, t, u, b.roles.time, b.overrides.time)
    ensures MixedSet(b, t, u) == Effective(b.overrides.db, t, u, b.overrides.time)
  {
    Faithfulness.HeldRolesOverTime(b.roles.db, purged, t, u, b.roles.time, b.overrides.time);
    forall p | p in b.overrides.db.permissions
      ensures p in PermissionsOf(b.mappings.db, HeldRoles(b.roles.db, t, u, b.roles.time)) <==>
              RoleGives(b.overrides.db, t, u, b.overrides.time, p.id)
    {
      FrameRoleGives(b.roles.db, b.overrides.db, t, u, b.overrides.time, p.id);
      PermissionsGiven(b.roles.db, t, u, b.overrides.time, p);
      assert forall r | r in HeldRoles(b.roles.db, t, u, b.roles.time) ::
          RolePermission(r, p.id) in b.mappings.db.rolePermissions <==> RolePermission(r, p.id) in b.roles.db.rolePermissions;
    }
    OneStateExactly(b, t, u);
  }

  // ---- a torn read ----

  const PERMISSION: Permission := Permission("p", "x")

  /** The user's one role gives the permission, and a DENY takes it away. */
  const DENIED: Db := Db(
    {"t"}, map["u" := "t"], [PERMISSION], map["r" := Role(Some("t"), false, "role")], [RolePermission("r", "p")],
    [UserRole("t", "u", "r", None)], [Override("o", "t", "u", "p", Deny)], [])
  const UNASSIGNED: Db := DENIED.(userRoles := [])
  const BARE: Db := UNASSIGNED.(overrides := [])

  lemma NeverHeld(db: Db, now: Time)
    requires db == DENIED || db == UNASSIGNED || db == BARE
    ensures Effective(db, "t", "u", now) == {}
  {
    if db == DENIED {
      assert Override("o", "t", "u", "p", Deny) in db.overrides;
      assert HasOverride(db, "t", "u", "p", Deny);
    }
    assert forall p | p in db.permissions :: !Holds(db, "t", "u", now, p.id);
  }

  /**
   * First the role is withdrawn, then the DENY. The user never holds the permission;
   * a check that reads the roles before both and the overrides after both stores it.
   */
  lemma TornReadIsNoState(from: Time)
    ensures WellFormed(DENIED) && UniquePermissions(DENIED.permissions)
    ensures Apply(DENIED, UpdateUserRoles("t", "u", [], ["r"])) == Done(UNASSIGNED, Some(UserInvalidation("t", "u")))
    ensures Apply(UNASSIGNED, RemoveOverride("o", "t", "u")) == Done(BARE, Some(UserInvalidation("t", "u")))
    ensures forall now :: Effective(DENIED, "t", "u", now) == Effective(UNASSIGNED, "t", "u", now) == Effective(BARE, "t", "u", now) == {}
    ensures var b := Basis(Snapshot(from, DENIED, 0), Snapshot(from, DENIED, 0), Snapshot(from, BARE, 2));
            MixedSet(b, "t", "u") == {"x"}
  {
    assert DENIED.userRoles[0] in DENIED.userRoles && RolePermission("r", "p") in DENIED.rolePermissions;
    assert "r" in HeldRoles(DENIED, "t", "u", from);
    assert PERMISSION in DENIED.permissions && PERMISSION in PermissionsOf(DENIED, HeldRoles(DENIED, "t", "u", from));
    forall now
      ensures Effective(DENIED, "t", "u", now) == Effective(UNASSIGNED, "t", "u", now) == Effective(BARE, "t", "u", now) == {}
    {
      NeverHeld(DENIED, now);
      NeverHeld(UNASSIGNED, now);
      NeverHeld(BARE, now);
    }
    Unassigning();
  }

  lemma Unassigning()
    ensures Apply(DENIED, UpdateUserRoles("t", "u", [], ["r"])) == Done(UNASSIGNED, Some(UserInvalidation("t", "u")))
  {
    assert ["r"][..0] == [];
    assert UnassignAll(DENIED.userRoles, "t", "u", ["r"]) == Unassign(UnassignAll(DENIED.userRoles, "t", "u", []), "t", "u", "r");
    assert FindAssignment(DENIED.userRoles, "t", "u", "r") == 0;
  }

  // ---- and a run that stores it ----

  const ASK: Query := Query("t", "u", "x", "", "")
  const EVENT: Invalidation := UserInvalidation("t", "u")
  const WITHDRAW: Mutation := UpdateUserRoles("t", "u", [], ["r"])
  const LIFT: Mutation := RemoveOverride("o", "t", "u")
  const START: Snapshot := Snapshot(0, DENIED, 0)
  const HALFWAY: Progress := AtOverrides({PERMISSION}, START, START)

  lemma Withdrawn()
    ensures Apply(DENIED, WITHDRAW) == Done(UNASSIGNED, Some(EVENT))
    ensures var edits := EditsOf(DENIED, WITHDRAW);
            Landed(DENIED, edits) == UNASSIGNED && AdmitsAll(DENIED, edits) && CascadeFree(DENIED, edits)
  {
    Unassigning();
    EditsLand(DENIED, WITHDRAW);
  }

  lemma Lifted()
    ensures Apply(UNASSIGNED, LIFT) == Done(BARE, Some(EVENT))
    ensures var edits := EditsOf(UNASSIGNED, LIFT);
            Landed(UNASSIGNED, edits) == BARE && AdmitsAll(UNASSIGNED, edits) && CascadeFree(UNASSIGNED, edits)
  {
    EditsLand(UNASSIGNED, LIFT);
  }

  lemma FirstTwoReads()
    ensures HeldRoles(DENIED, "t", "u", 0) == {"r"} && PermissionsOf(DENIED, {"r"}) == {PERMISSION}
    ensures Overridden(BARE, "t", "u", {PERMISSION}) == {"x"}
  {
    assert DENIED.userRoles[0] in DENIED.userRoles && RolePermission("r", "p") in DENIED.rolePermissions;
    assert PERMISSION in DENIED.permissions;
  }

  lemma TwoReadsLead(d: Discipline, base: State)
    requires base == Initial(DENIED, 0).(nextId := 1)
    ensures Leads(d, At(base, 0, ASK, 0, AtRoles), 0, 2, At(base, 0, ASK, 0, HALFWAY))
  {
    FirstTwoReads();
    AwaitOnTop(d, base, 0, ASK, 0, AtRoles);
    AwaitOnTop(d, base, 0, ASK, 0, AtMappings({"r"}, START));
    LeadsOn(d, At(base, 0, ASK, 0, AtRoles), 0, 1, At(base, 0, ASK, 0, AtMappings({"r"}, START)), 1, At(base, 0, ASK, 0, HALFWAY));
  }

  lemma HalfLeads(d: Discipline, base: State)
    requires base == Initial(DENIED, 0).(nextId := 1)
    ensures Leads(d, At(base, 0, ASK, 0, AtPerms), 0, 3, At(base, 0, ASK, 0, HALFWAY))
  {
    AwaitOnTop(d, base, 0, ASK, 0, AtPerms);
    TwoReadsLead(d, base);
    LeadsOn(d, At(base, 0, ASK, 0, AtPerms), 0, 1, At(base, 0, ASK, 0, AtRoles), 2, At(base, 0, ASK, 0, HALFWAY));
  }

  lemma Asked(d: Discipline) returns (s: State)
    ensures Reachable(d, s) && s == At(Initial(DENIED, 0).(nextId := 1), 0, ASK, 0, AtPerms)
  {
    s := Initial(DENIED, 0);
    assert CanRun(d, s, []) && Run(d, s, []) == s && WellFormed(DENIED);
    s := Take(d, s, Begin(ASK));
  }

  /** A check has read the roles and their mappings. */
  lemma HalfRead(d: Discipline) returns (s: State)
    ensures Reachable(d, s) && s.db == DENIED && 0 in s.checks && s.checks[0] == Check(ASK, 0, HALFWAY) && s.seen == {START}
  {
    var s0 := Asked(d);
    HalfLeads(d, Initial(DENIED, 0).(nextId := 1));
    ReachableLater(d, s0, Advances(0, 3));
    s := Run(d, s0, Advances(0, 3));
  }

  lemma Opened(d: Discipline, s: State, m: Mutation) returns (s': State)
    requires Reachable(d, s) && Apply(s.db, m).Done?
    ensures Reachable(d, s') && s' == Open(s, EditsOf(s.db, m), Apply(s.db, m).event)
  {
    s' := Take(d, s, Emit(m));
  }

  lemma Closed(d: Discipline, s: State, x: nat) returns (s': State)
    requires Reachable(d, s) && x in s.txs && AdmitsAll(s.db, s.txs[x].edits) && CascadeFree(s.db, s.txs[x].edits)
    ensures Reachable(d, s') && s' == Close(s, x)
  {
    s' := Take(d, s, Commit(x));
  }

  /** Opened and closed at once, a transaction changes the tables, the history and the events. */
  lemma OpenThenClose(s: State, edits: seq<Edit>, event: Option<Invalidation>)
    ensures var s1 := Open(s, edits, event);
            && s.nextId in s1.txs && s1.txs[s.nextId].edits == edits && s1.db == s.db
            && var s2 := Close(s1, s.nextId);
               && s2.db == Landed(s.db, edits) && s2.now == s.now && s2.checks == s.checks
               && s2.seen == s.seen + {Snapshot(s.now, Landed(s.db, edits), s.version + 1)}
  {
  }

  /** One operation runs and commits while the check waits. */
  lemma Operate(d: Discipline, s: State, m: Mutation) returns (s': State)
    requires Reachable(d, s) && Apply(s.db, m).Done?
    requires AdmitsAll(s.db, EditsOf(s.db, m)) && CascadeFree(s.db, EditsOf(s.db, m))
    ensures Reachable(d, s') && s' == Close(Open(s, EditsOf(s.db, m), Apply(s.db, m).event), s.nextId)
  {
    OpenThenClose(s, EditsOf(s.db, m), Apply(s.db, m).event);
    var s1 := Opened(d, s, m);
    s' := Closed(d, s1, s.nextId);
  }

  lemma AfterWithdrawal(s: State)
    requires s.db == DENIED
    ensures var edits := EditsOf(DENIED, WITHDRAW);
            && AdmitsAll(s.db, edits) && CascadeFree(s.db, edits)
            && var s' := Close(Open(s, edits, Some(EVENT)), s.nextId);
               && s'.db == UNASSIGNED && s'.checks == s.checks && s'.seen == s.seen + {Snapshot(s.now, UNASSIGNED, s.version + 1)}
  {
    Withdrawn();
    OpenThenClose(s, EditsOf(DENIED, WITHDRAW), Some(EVENT));
  }

  lemma OnceOperated(d: Discipline) returns (s: State)
    ensures Reachable(d, s) && s.db == UNASSIGNED && 0 in s.checks && s.checks[0] == Check(ASK, 0, HALFWAY)
    ensures forall sn | sn in s.seen :: sn.db == DENIED || sn.db == UNASSIGNED
  {
    Withdrawn();
    var s0 := HalfRead(d);
    AfterWithdrawal(s0);
    s := Operate(d, s0, WITHDRAW);
  }

  lemma BothOperated(d: Discipline) returns (s: State)
    ensures Reachable(d, s) && s.db == BARE && 0 in s.checks && s.checks[0] == Check(ASK, 0, HALFWAY)
    ensures forall sn | sn in s.seen :: sn.db == DENIED || sn.db == UNASSIGNED || sn.db == BARE
  {
    Lifted();
    var s1 := OnceOperated(d);
    OpenThenClose(s1, EditsOf(UNASSIGNED, LIFT), Some(EVENT));
    s := Operate(d, s1, LIFT);
  }

  lemma LastRead(d: Discipline, s: State) returns (s': State)
    requires Reachable(d, s) && s.db == BARE && 0 in s.checks && s.checks[0] == Check(ASK, 0, HALFWAY)
    ensures Reachable(d, s') && s'.seen == s.seen && 0 in s'.checks && s'.checks[0].q == ASK
    ensures s'.checks[0].at.AtStorePerms? && s'.checks[0].at.codes == {"x"}
  {
    FirstTwoReads();
    s' := Take(d, s, Advance(0));
  }

  lemma StoreTorn(d: Discipline, s: State) returns (s': State)
    requires Reachable(d, s) && 0 in s.checks && s.checks[0].q == ASK && d.permsTtl > 0
    requires s.checks[0].at.AtStorePerms? && s.checks[0].at.codes == {"x"}
    ensures Reachable(d, s') && PermsHit(s', "t", "u") && s'.perms[("t", "u")].codes == {"x"} && s'.seen == s.seen
  {
    s' := Take(d, s, Advance(0));
  }

  /** A reader finds a set that is the user's in no state the system was ever in, under any discipline. */
  lemma TornSetIsStored(d: Discipline) returns (s: State)
    requires d.permsTtl > 0
    ensures Reachable(d, s) && PermsHit(s, "t", "u") && s.perms[("t", "u")].codes == {"x"}
    ensures forall sn | sn in s.seen :: Effective(sn.db, "t", "u", sn.time) == {}
  {
    s := BothOperated(d);
    s := LastRead(d, s);
    s := StoreTorn(d, s);
    forall sn | sn in s.seen ensures Effective(sn.db, "t", "u", sn.time) == {} { NeverHeld(sn.db, sn.time); }
  }
}
