# Verified model of the IAM service

A Dafny model of a multi-tenant identity and access service: the decision "may this user do this,
here?", the caches that answer it quickly, the events that keep those caches honest, and the
operations that change the tables underneath.

The reference decision (`Tables.Decide`) is a plain function of the tables: unexpired role
assignments give permissions, GRANT overrides add, DENY overrides remove, a dotted wildcard matcher
is applied to the resulting codes, and an exact ACL row is consulted when RBAC denies a request
that names a full resource. Everything faster or later is proved against it.

- `PermissionMatcher`, `Tables`: the matcher loop against a positional meaning, the tables, the decision.
- `Mutations`, `RowEdits`, `Effects`, `BatchUpdates`, `Outcomes`, `Tenancy`: each administrative operation
  as a function on tables, the row changes its handler makes and the event it emits, when it goes through
  and what it achieves in terms of the rows, what all keep.
- `RbacServices`, `Transactions`: the service classes over mutable tables, the per-request transaction
  around them, and whole requests with failing driver calls.
- `Protocol`: the running system as a state machine. Every `await` of a check is its own step, the three
  table reads behind a permission set included, and so are both halves of every key scan. Events are
  duplicated, reordered, early or lost. A transaction's rows are decided when its handler runs and land
  on whatever tables are committed when it ends.
- `Faithfulness`, `Coherence`, `Staleness`, `TornReads`, `Agreement`: when cached values agree with the
  tables, how old they can be, and exactly which deployments keep them right.
- `WholeChecks`, `SteadyRuns`: a check that runs through as a run of single awaits, and runs in which
  nothing concerns one user.
- `CacheKeys`, `CacheStore`, `Authorization`, `StoreRuns`, `Sdk`: string keys, the Redis store, the service's
  check as a method refining the protocol's check, every run on the string-keyed store, the SDK's
  three-tier read, the two guards.
- `RefreshTokens`, `OverlappingRefresh`: token rotation over runs, with each refresh as one step and with
  every await of its own.
- `Seeds`, `Hierarchy`: the seed scripts, the reporting chain.

## What turned out

- **Coherence has an exact condition, in five parts.** In every settled state of every run each cached
  value is what the tables give (up to role expiry) if and only if: no event is lost; no event is handled
  before its transaction is over; no role deletion takes an assignment with it; the source deletion of an
  event does not start while a check it covers has read the tables before the change and not yet stored
  what it read; nor the derived deletion while such a check has not yet stored its decision
  (`Agreement.CoherentExactlyWhenDisciplined`, with a concrete run for each of the five failures). Checks
  of other questions, and checks that read after the change, hold nothing back. The service enforces none
  of the five. The comment at `packages/iam-sdk/src/iam-authz.service.ts:51-53`, that a cached set is
  always fresh when present, is stronger than the code.
- **Overlapping transactions are harmless but for one.** On whatever tables a handler's rows land, they
  stay within the event it emitted, unless they delete a role that somebody was assigned meanwhile: the
  foreign key then removes the assignment without an event (`RowEdits.LandingIsCovered`,
  `Agreement.CascadeBreaksCoherence`).
- **Staleness needs no condition.** Whatever is lost, early or overlapping, an answer rests on three reads
  of committed tables, each no older than the permission TTL + 300000 ms + twice the longest check, and on
  an ACL row no older than 600000 ms + twice the longest check (`Staleness.AnswersAreRecent`).
- **The three reads need not be of one state.** A check can store a set that was the user's at no moment
  (`TornReads.TornSetIsStored`). The reads amount to the last state exactly when the roles read agree with
  it on every permission the overrides leave open (`TornReads.OneStateExactly`).
- **Errors under expiry are one-sided.** While no event concerns the user a denial is never wrong, and a
  wrong allow names an assignment that ran out inside that window (`Agreement.WrongAllowHasExpired`).
- **A DENY removes one row, not a wildcard** (`PermissionMatcher.DenyIsExact`).
- **A decision key belongs to one clean question alone exactly when both resource fields are given and
  neither is "*"**; otherwise absent and "*" share it (`CacheKeys.AuthzKeyInjectiveExactly`).
- **Wildcard expansion in the seeds** uses a bare prefix, so `user.*` would also take `users.read`; the
  meaning is kept if and only if no declared prefix reaches a code the list does not grant.
- **Batches remove one row per mention.** The role and the role-permission batch are their set or map
  formula exactly when nothing removed is stored more often than it is mentioned; deleting an ACL row
  leaves its question allowed exactly when a second row answered it.
- **The reporting-chain query ends** if and only if the root is not its own manager's subordinate in
  the tenant. `updateUser` can create such a cycle; exactly when is `Hierarchy.ManagerEditExactly`.
- **A refresh token is redeemed at most once if and only if refreshes of it do not overlap** between the
  comparison and the deletion; the service holds no lock, and a deletion that finds no row is no error
  (`OverlappingRefresh.OnceExactlyWhenExclusive`, `OnceExactlyWithoutOverlap`).
- **Clearing `is_active` through `updateUser` does not revoke refresh tokens**; they work again after
  reactivation (`RefreshTokens.EditingSuspendsOnly`).
- **Only a tenant's own users hold its roles**, in every state of every run, although the schema does not
  say so: the two checks in the assignment service are enough (`Tenancy.RolesGiveAtHomeOnly`). Overrides
  have no such check.
- **A cached value that is wrapped but no list makes the SDK's first tier throw** and so fall through; any
  other value that is no list reads as no permissions (`Sdk.LaterTiersExactly`, `OtherValuesGrantNothing`).
- **A query runner that fails to connect or start, or to set its role, is never released.**

## Model

| member | source | states |
|---|---|---|
| `PermissionMatcher.HasPermission` | packages/iam-sdk/src/utils/permission-matcher.util.ts:14-45 | the splitting loop grants a required code exactly when a held code is global, equal, or ends in `.*` at one of the code's dots, for every code (leading dots included) |
| `PermissionMatcher.GrantsExactly` | packages/iam-sdk/src/utils/permission-matcher.util.ts:14-45 | by prefixes: a set grants a code exactly when it holds `*`, `*.*`, the code, or `p.*` for some `p.` the code starts with once leading dots are dropped |
| `PermissionMatcher.SplitJoin` | packages/iam-sdk/src/utils/permission-matcher.util.ts:26-38 | joining separator-free parts and splitting again gives the parts back |
| `PermissionMatcher.CoversTransitive` | packages/iam-sdk/src/utils/permission-matcher.util.ts:26-42 | what a held wildcard covers, covers no more than the wildcard does |
| `PermissionMatcher.GrantsMonotone` | packages/iam-sdk/src/utils/permission-matcher.util.ts:14-45 | holding more codes never loses a grant |
| `PermissionMatcher.ComputeEffectivePermissions` | packages/iam-sdk/src/utils/permission-matcher.util.ts:1-12 | the two in-place passes give (roles ∪ grants) − denies |
| `PermissionMatcher.DenyIsExact` | src/modules/rbac/override.service.ts:161-178 | a denied code is never held, and is granted exactly when some other surviving code covers it |
| `PermissionMatcher.DenyDoesNotBeatWildcard` | packages/iam-sdk/src/utils/permission-matcher.util.ts:26-38 | a concrete denied code still granted by a held wildcard |
| `Tables.EffectiveIsSetFormula` | src/modules/rbac/override.service.ts:136-181 | denying by permission id equals the code-level set formula when ids and codes are unique |
| `Tables.HeldByRows` | src/modules/rbac/override.service.ts:136-181 | row by row: an unexpired assignment of a role mapped to the permission, or a grant, and no deny, all of this tenant and user |
| `Tables.EffectiveOverTime` | src/modules/rbac/assignment.service.ts:178-193 | as time passes an effective set only shrinks, and only by an expiry |
| `Tables.FrameEffective` | src/modules/rbac/override.service.ts:136-181 | the effective set depends only on the user's own rows and their roles' permissions |
| `Tables.EffectiveInThreeReads` | src/modules/rbac/override.service.ts:141-161 | roles, mappings and overrides read from the same tables at the same time give the effective set |
| `RbacServices.OverrideService.Combine` | src/modules/rbac/override.service.ts:166-180 | the Map loop yields each undenied permission exactly once, for any order and any repeats |
| `RbacServices.OverrideService.LoadPermissions` | src/modules/rbac/override.service.ts:155-165 | the override rows of a kind load exactly the permissions they name |
| `RbacServices.OverrideService.GetEffectivePermissions` | src/modules/rbac/override.service.ts:136-181 | returns exactly the permissions the reference decision says the user holds, without duplicates |
| `RbacServices.OverrideService.AddOverride` | src/modules/rbac/override.service.ts:45-91 | moves the tables to the operation's result and emits its event, or refuses and changes nothing |
| `RbacServices.OverrideService.RemoveOverride` | src/modules/rbac/override.service.ts:93-124 | removes the user's override and emits, or does nothing |
| `RbacServices.RoleService.FindOneForTenant` | src/modules/rbac/role.service.ts:93-102 | finds exactly the tenant's own roles and the system roles |
| `RbacServices.RoleService.CreateCustomRole` | src/modules/rbac/role.service.ts:45-72 | adds a custom role of the tenant, without an event |
| `RbacServices.RoleService.DeleteCustomRole` | src/modules/rbac/role.service.ts:143-177 | refuses unknown, system and assigned roles; otherwise removes the role and its permission rows |
| `RbacServices.AssignmentService.AssignToUser` | src/modules/rbac/assignment.service.ts:47-97 | upserts one assignment of a user of the tenant and emits, or refuses and changes nothing |
| `RbacServices.AssignmentService.PutAll` | src/modules/rbac/assignment.service.ts:112-142 | the first loop stops at the first invisible role, with exactly the roles before it put |
| `RbacServices.AssignmentService.DropAll` | src/modules/rbac/assignment.service.ts:144-160 | the second loop removes one row of each listed role |
| `RbacServices.AssignmentService.UpdateUserRoles` | src/modules/rbac/assignment.service.ts:99-176 | the batch result and its event, or a refusal with the half-done rows stated exactly |
| `RbacServices.AssignmentService.GetUserRoles` | src/modules/rbac/assignment.service.ts:178-193 | exactly the user's assignments without an expiry or with a later one |
| `RbacServices.PermissionService.UpdateRolePermissions` | src/modules/rbac/permission.service.ts:41-127 | refuses invisible and system roles; otherwise the mapping loops' result and a tenant-wide event |
| `RbacServices.AclRows.CreateAcl` | src/modules/acl/acl.service.ts:45-110 | creates a missing row and emits, does nothing for an existing one, refuses otherwise |
| `RbacServices.AclRows.DeleteAcl` | src/modules/acl/acl.service.ts:140-170 | removes the tenant's row and emits for its question, or refuses |
| `RbacServices.UserRows.CreateUser` | src/modules/user/user.service.ts:36-91 | adds the user and, through the assignment service, a role |
| `RbacServices.RbacScheduler.PurgeExpiredRoles` | src/modules/rbac/rbac.scheduler.ts:16-28 | exactly the rows with an expiry before now go |
| `Mutations.Resolve` | src/modules/rbac/permission.service.ts:58-81 | identifiers resolve to exactly the rows they name, by id in any case when they look like a UUID and by code otherwise |
| `RowEdits.EditsLand` | src/modules/rbac/assignment.service.ts:99-176 | the row changes of every handler, landing with nothing in between, are exactly the operation's result, and the schema admits them |
| `RowEdits.EditsAnnounced` | src/modules/rbac/permission.service.ts:121-126 | the event a handler emits announces every row it changes |
| `RowEdits.LandingIsCovered` | src/common/interceptors/tenant-transaction.interceptor.ts:55-58 | landing on any tables the schema admits, they change nobody's rows and no ACL answer outside that event, unless they delete a role that is assigned by now |
| `RowEdits.EveryMutationIsCovered` | src/modules/rbac/role.service.ts:151-167 | every operation leaves untouched every user's rows and every ACL answer its event does not cover, and assignments keep referencing visible roles only |
| `RowEdits.OnlyCoveredDecisionsChange` | src/modules/rbac/permission.service.ts:121-126 | a decision that an operation changes is covered by the event it emits |
| `RowEdits.FoundingTouchesOnlyTheAdmin` | src/modules/tenant/tenant.service.ts:50-82 | creating a tenant with its first user and a system role, without an event, touches no other user and no ACL answer |
| `RowEdits.RolesNeedNoEvent` | src/modules/rbac/role.service.ts:45-72 | creating a role, or deleting one that nobody is assigned, changes no user's permissions, so it needs no event |
| `Effects.AssignIsBatchOfOne` | src/modules/rbac/assignment.service.ts:47-97 | a single assignment is the batch update with one addition |
| `Effects.PutOverrideExactly` | src/modules/rbac/override.service.ts:60-84 | after an override is put it alone speaks on its permission, and every other override is as before |
| `Effects.OverrideDecidesItsPermission` | src/modules/rbac/override.service.ts:45-91 | a grant gives exactly that permission and a deny takes exactly that permission away, whatever the roles |
| `Effects.RemoveUndoesAdd` | src/modules/rbac/override.service.ts:93-124 | removing a newly added override restores the tables |
| `Effects.AllowAclExactly` | src/modules/acl/acl.service.ts:55-90 | creating a row turns exactly its question to yes and never adds a second row for it |
| `Effects.RevokeAclExactly` | src/modules/acl/acl.service.ts:140-170 | after deleting a row its question is still allowed exactly when at least two rows answered it; every other question is as before |
| `Effects.DeleteUndoesCreate` | src/modules/rbac/role.service.ts:143-177 | deleting a newly created role restores the tables |
| `Outcomes.AssignOutcome` | src/modules/rbac/assignment.service.ts:47-97 | an assignment goes through exactly for a user of the tenant and a role the tenant may use, and announces that user |
| `Outcomes.AssignedRow` | src/modules/rbac/assignment.service.ts:62-81 | afterwards the row is there with the expiry asked for, and no other row has moved |
| `Outcomes.UpdateRolesOutcome` | src/modules/rbac/assignment.service.ts:99-176 | a batch goes through exactly for a user of the tenant when every added role is one the tenant may use |
| `Outcomes.UpdatedRow` | src/modules/rbac/assignment.service.ts:112-160 | which rows a batch leaves: removed roles gone, added ones with the last expiry asked for, the rest as it was |
| `Outcomes.UuidExactly` | src/modules/rbac/permission.service.ts:62-66 | what is taken for a UUID: five dashed groups of hex digits with version 1 to 5 and variant 8, 9, a or b |
| `Outcomes.UuidNamesAnyCase` | src/modules/rbac/permission.service.ts:60-67 | a UUID in any case names exactly the row with those digits in lower case |
| `Outcomes.DottedNamesItsCode` | src/modules/rbac/permission.service.ts:60-67 | an identifier with a dot names exactly the row with that code |
| `Outcomes.UpdatePermissionsOutcome` | src/modules/rbac/permission.service.ts:41-127 | a role's permissions change exactly for the tenant's own custom roles, and the whole tenant is announced |
| `Outcomes.PutOverrideOutcome` | src/modules/rbac/override.service.ts:45-91 | when an override is refused, and that it announces the user exactly when it changes something |
| `Outcomes.PutOverrideRow` | src/modules/rbac/override.service.ts:60-84 | on its permission one row of the kind asked for, with the id it had or the new one; every other row as before |
| `Outcomes.DropOverrideOutcome` | src/modules/rbac/override.service.ts:93-124 | exactly the row with that id goes, if it is that user's in that tenant, and is announced; else nothing happens |
| `Outcomes.DroppedOverrideIsSilent` | src/modules/rbac/override.service.ts:102-107 | after removing any stored override nothing speaks on its permission, and every other override is as before |
| `Outcomes.AllowAclOutcome` | src/modules/acl/acl.service.ts:45-110 | when a row is refused, what a new one holds, and that a repeated request changes and announces nothing |
| `Outcomes.RevokeAclOutcome` | src/modules/acl/acl.service.ts:140-170 | exactly the row with that id in that tenant goes, and the question it answered is announced |
| `Outcomes.NewRoleOutcome` | src/modules/rbac/role.service.ts:45-72 | one custom role of the tenant is added, nothing else changes, nothing is announced |
| `Outcomes.DropRoleOutcome` | src/modules/rbac/role.service.ts:143-177 | exactly an own custom role that nobody is assigned can go, with its mappings; system, assigned and foreign roles are refused, each in its way |
| `Outcomes.NewUserOutcome` | src/modules/user/user.service.ts:36-91 | when a user is refused, and that the user lands in the tenant with an event exactly when a role came along |
| `Outcomes.NewUsersRow` | src/modules/user/user.service.ts:59-79 | the role row of a new user is the only one that is new |
| `Outcomes.PurgeOutcome` | src/modules/rbac/rbac.scheduler.ts:17-24 | the purge takes exactly the assignments that ran out before now; one that runs out now stays |
| `Outcomes.FoundedOutcome` | src/modules/tenant/tenant.service.ts:50-82 | founding adds the tenant, its user and, if there is a role, one unexpiring assignment, and nothing else |
| `Tenancy.AssigningNeedsATenantsUser` | src/modules/rbac/assignment.service.ts:53-56 | a successful assignment or batch names a user of the tenant |
| `Tenancy.LandingKeepsHome` | src/common/interceptors/tenant-transaction.interceptor.ts:55-58 | on whatever tables the rows of a handler land, every assignment stays one of a user of its tenant |
| `Tenancy.EveryMutationKeepsHome` | src/modules/rbac/assignment.service.ts:108-111 | every operation keeps that, and loses or moves no user |
| `Tenancy.FoundingKeepsHome` | src/modules/tenant/tenant.service.ts:50-82 | so does founding a tenant |
| `Tenancy.StepKeepsHome` | src/modules/rbac/assignment.service.ts:53-56 | every step of the system keeps it, with whatever transactions are open |
| `Tenancy.RolesGiveAtHomeOnly` | src/modules/rbac/assignment.service.ts:53-56 | so in every state of every run whoever holds a permission through a role of a tenant is that tenant's user |
| `Effects.EveryMutationKeepsIntact` | src/modules/rbac/assignment.service.ts:118-142 | every operation keeps: assignments of visible roles to the tenant's own users only, one row per assignment, override and ACL question, and unique permissions |
| `BatchUpdates.UpdateRolesCount` | src/modules/rbac/assignment.service.ts:99-176 | the exact number of rows of every (tenant, user, role) after the batch, other users untouched |
| `BatchUpdates.UpdateRolesIsMapExpression` | src/modules/rbac/assignment.service.ts:99-176 | at every key the batch is (old updated by adds, last expiry wins) minus removes if and only if no removed role was stored more often than it is mentioned |
| `BatchUpdates.UpdateRolesKeepsUnique` | src/modules/rbac/assignment.service.ts:118-142 | on a table with one row per key it is that expression everywhere and keeps one row per key |
| `BatchUpdates.UpdateMappingsCount` | src/modules/rbac/permission.service.ts:58-119 | the exact number of rows of every (role, permission) pair after the batch, other roles unchanged |
| `BatchUpdates.UpdateMappingsIsSetFormula` | src/modules/rbac/permission.service.ts:58-119 | the batch is (old ∪ add) − remove on the role's set if and only if a removed pair was stored at most once |
| `BatchUpdates.UpdateMappingsKeepsSingleRows` | src/modules/rbac/permission.service.ts:83-119 | a table without repeated pairs stays without them, so the formula keeps holding |
| `Transactions.RunInTransaction` | src/common/utils/transaction.util.ts:17-41 | joins an active transaction and leaves its end to the owner; otherwise all of the operation or nothing, with the answer for every failing driver call, released whenever it started |
| `Transactions.TenantTransactionInterceptor.Open` | src/common/interceptors/tenant-transaction.interceptor.ts:32-53 | the handler runs in an active transaction, a super admin under the super-admin role, a tenant under the tenant role with its setting, anybody else under none; or the request fails |
| `Transactions.TenantTransactionInterceptor.Close` | src/common/interceptors/tenant-transaction.interceptor.ts:55-82 | commits exactly on success, ends the transaction unless the rollback fails, resets the role, releases |
| `Transactions.Dispatch` | src/modules/rbac/assignment.service.ts:47-176 | every operation of the protocol is what some service method does |
| `Transactions.Serve` | src/common/interceptors/tenant-transaction.interceptor.ts:17-88 | from interceptor to interceptor the committed tables move to the operation's result or stay, and the event is out even when the commit fails; a batch naming an invisible role changes and announces nothing |
| `Transactions.HalfDoneCanDiffer` | src/modules/rbac/assignment.service.ts:112-142 | without the rollback such a batch does leave a changed table |
| `Transactions.RequestsKeepTablesAndTell` | src/common/interceptors/tenant-transaction.interceptor.ts:55-66 | over any series of requests with any failures the tables stay intact and a changed decision was announced |
| `Protocol.NextOfRbac` | src/modules/rbac/override.service.ts:136-181 | one await of the permission set: the cache read, each of the three table reads, the store; each brings the check closer to its end |
| `Protocol.AdvanceCheck` | src/modules/authorization/authorization.service.ts:24-100 | one await of a check: only caches, the write count and the check itself move on |
| `Protocol.ScansTakeExactly` | src/cache/cache.service.ts:93-155 | a scan takes, of the entries its event covers, all written by its start and any later one it saw |
| `Protocol.TablesAndClockExactly` | src/common/interceptors/tenant-transaction.interceptor.ts:55-58 | only commits, the purge and foundings change the tables, only ticks move the clock |
| `Protocol.EventsOutliveAborts` | src/event/event.producer.ts:47-64 | an operation's event is out as soon as its handler has run; a rollback takes the rows back and not the event |
| `Protocol.AclChecksReadTheCacheFirst` | src/modules/acl/acl.service.ts:172-204 | an ACL check that stands alone answers from the cache where it can, and else counts the rows |
| `Coherence.StepKeepsCoherence` | src/event/event.consumer.ts:39-119 | every step keeps: each cached value is right or an event with its stage still to come covers it |
| `Coherence.FoundingKeeps` | src/modules/tenant/tenant.service.ts:37-87 | so it keeps the caches coherent, since nobody can have asked about ids just generated |
| `Coherence.RunKeepsCoherence` | src/cache/cache.service.ts:76-130 | so does every run, in any order and with any duplicates |
| `Coherence.ReachableIsCoherent` | src/cache/cache.service.ts:76-130 | the invariant holds of every reachable state |
| `Faithfulness.RolesGive` | src/modules/rbac/override.service.ts:141-155 | mappings read later of roles read earlier are as right as the roles were, up to expiry |
| `Faithfulness.GivenLeaves` | src/modules/rbac/override.service.ts:159-180 | so is the set the overrides leave of them |
| `Faithfulness.PurgeInvisible` | src/modules/rbac/rbac.scheduler.ts:17-24 | deleting expired rows changes no effective set and no decision at any later time |
| `Faithfulness.PurgeKeepsHistory` | src/modules/rbac/rbac.scheduler.ts:17-24 | nor does it hide an expiry that cached values depend on |
| `Faithfulness.PurgeOnlyExpiries` | src/modules/rbac/rbac.scheduler.ts:17-24 | so the purge keeps every faithful cached value faithful and needs no event |
| `Agreement.SettledAgrees` | src/modules/authorization/authorization.service.ts:24-100 | with no event pending every visible entry of all three caches is right |
| `Agreement.AnswersAreRight` | src/modules/authorization/authorization.service.ts:24-100 | while no event concerns the user a check never wrongly denies, and with no expiry since the roles were read it answers the reference decision |
| `Agreement.AclAnswersAreRight` | src/modules/acl/acl.service.ts:172-210 | likewise an ACL check that stands alone is answered from the rows as they are |
| `Agreement.WrongAllowHasExpired` | src/modules/rbac/assignment.service.ts:185-190 | a wrong answer is an allow, and an assignment of that user ran out inside the window |
| `Agreement.LossBreaksCoherence` | src/event/event.producer.ts:47-64 | a run with one lost event ends settled and wrong |
| `Agreement.EarlyDeliveryBreaksCoherence` | src/common/interceptors/tenant-transaction.interceptor.ts:55-58 | a run whose event is handled before the commit ends settled and wrong |
| `Agreement.CascadeBreaksCoherence` | src/modules/rbac/role.service.ts:157-167 | a run in which a role is deleted while it is being assigned ends settled with a wrong allow |
| `Agreement.LateSetBreaksCoherence` | src/modules/authorization/authorization.service.ts:54-65 | a run whose check read before the change and stores its set after the source deletion ends settled and wrong |
| `Agreement.LateDecisionBreaksCoherence` | src/modules/authorization/authorization.service.ts:97 | a run whose check stored its set before the change and its decision after the derived deletion ends settled and wrong |
| `Agreement.CoherentExactlyWhenDisciplined` | src/modules/authorization/authorization.service.ts:24-100 | the caches agree in every settled state of every run if and only if all five conditions hold |
| `Staleness.StepKeepsFresh` | src/cache/cache.service.ts:44-72 | every step keeps each entry explained by three reads of tables no older than its expiry allows; hits never extend an entry |
| `Staleness.RunKeepsFresh` | src/modules/authorization/authorization.service.ts:31-97 | so does every run, with no assumption on events |
| `Staleness.AnswersAreRecent` | src/modules/authorization/authorization.service.ts:31-97 | every answer is RBAC on three reads of tables no older than permission TTL + 300000 ms, in order and within one check, and ACL on tables no older than 600000 ms, each plus twice the longest check |
| `Staleness.PermsAreRecent` | src/cache/cache.service.ts:52-72 | every visible permission set is what three reads gave of tables no older than its TTL plus the longest check |
| `Staleness.AclAnswersAreRecent` | src/modules/acl/acl.service.ts:172-210 | every answer of an ACL check that stands alone is the ACL of tables no older than 300000 ms plus the longest check |
| `Staleness.DecisionRunsOut` | src/modules/authorization/authorization.service.ts:97 | left alone, a decision is there for exactly 300000 ms after it is written |
| `Staleness.AclAnswerRunsOut` | src/modules/acl/acl.service.ts:207 | so is an ACL answer |
| `Staleness.PermsRunOut` | src/cache/cache.service.ts:62-72 | a permission set is, for its configured lifetime |
| `Staleness.SeenIsHistory` | src/cache/cache.service.ts:44-72 | the table states those bounds speak of really held at those times in the run |
| `TornReads.OneStateExactly` | src/modules/rbac/override.service.ts:141-180 | three reads give the effective set of the last state if and only if the roles read agree with it on every permission the overrides leave open |
| `TornReads.AnyStateExactly` | src/modules/rbac/override.service.ts:141-180 | and that of any given state, one of the three or another, if and only if they say of every permission what that state says |
| `TornReads.TornExactly` | src/modules/rbac/override.service.ts:141-180 | so a set is that of none of its three states exactly when it differs from each at some permission |
| `TornReads.UndisturbedReadIsOneState` | src/modules/rbac/override.service.ts:141-180 | they do when the user's roles and their mappings did not change between the reads, whatever overrides did |
| `TornReads.TornReadIsNoState` | src/modules/rbac/override.service.ts:141-180 | two concrete operations between the reads give a set that is effective before, between and after neither |
| `TornReads.TornSetIsStored` | src/modules/authorization/authorization.service.ts:44-62 | a run of the protocol stores that set although the user never held it |
| `CacheKeys.PermsKeyInjective` | packages/iam-sdk/src/iam-authz.service.ts:30-32 | the permission-set key determines tenant and user |
| `CacheKeys.AclKeyInjective` | src/modules/acl/acl.service.ts:35-43 | the ACL key determines the question |
| `CacheKeys.AuthzKeyExactly` | src/modules/authorization/authorization.service.ts:20-22 | two questions share a decision key exactly when they differ at most in absent versus "*" resource fields |
| `CacheKeys.AuthzKeyInjectiveExactly` | src/modules/authorization/authorization.service.ts:20-22 | among all clean questions the key determines this one if and only if both resource fields are given and neither is "*" |
| `CacheKeys.ColonsCollide` | src/modules/authorization/authorization.service.ts:20-22 | with colons inside fields two different questions share a key |
| `CacheKeys.PermsBuildersAgree` | src/cache/cache.service.ts:56-100 | the templates of the permission key in the SDK, the store and the invalidator are the same key |
| `CacheKeys.BuildersAgree` | packages/iam-sdk/src/iam-authz.service.ts:34-42 | the SDK's decision template and the invalidator's ACL template are the service's keys; the invalidator's decision template is, exactly when both resource fields are given |
| `CacheKeys.KeySpacesDisjoint` | src/cache/cache.service.ts:76-130 | keys and patterns of one cache never touch another |
| `CacheKeys.UserPatternExact` | src/cache/cache.service.ts:93-102 | the user pattern matches exactly that user's decisions |
| `CacheKeys.TenantPatternsExact` | src/cache/cache.service.ts:108-114 | the tenant patterns match exactly that tenant's entries |
| `CacheKeys.KeysSpelledOut` | src/cache/cache.service.ts:76-130 | every key and pattern, field by field |
| `CacheStore.CacheService.Get` | src/cache/cache.service.ts:36-42 | a read sees an entry until it expires |
| `CacheStore.CacheService.Set` | src/cache/cache.service.ts:44-48 | a write replaces one entry, in seconds or the default lifetime |
| `CacheStore.CacheService.GetPermissions` | src/cache/cache.service.ts:52-60 | returns the stored set of that user, if there is one |
| `CacheStore.CacheService.SetPermissions` | src/cache/cache.service.ts:62-72 | stores the set under that user's key with the default lifetime |
| `CacheStore.CacheService.ScanAndDelete` | src/cache/cache.service.ts:134-155 | whatever the batches and repeats of the scan, exactly the keys under the pattern go |
| `CacheStore.CacheService.InvalidateUser` | src/cache/cache.service.ts:93-102 | the store without what a user event covers |
| `CacheStore.CacheService.InvalidateTenant` | src/cache/cache.service.ts:108-114 | the store without what a tenant event covers |
| `CacheStore.CacheService.InvalidateAcl` | src/cache/cache.service.ts:76-86 | the store without that ACL answer |
| `CacheStore.CacheService.InvalidateAuthzDecision` | src/cache/cache.service.ts:120-130 | the store without that decision |
| `CacheStore.EventConsumer.Handle` | src/event/event.consumer.ts:38-119 | a message with its required fields is exactly its invalidation, any other message does nothing |
| `CacheStore.UserMessageExactly` | src/event/event.consumer.ts:38-54 | a user change, or a permission change naming a user in either place, removes exactly that user's set and decisions |
| `CacheStore.TenantMessageExactly` | src/event/event.consumer.ts:94-119 | a permission change without a user removes exactly the sets and decisions of the tenant |
| `CacheStore.AclMessageExactly` | src/event/event.consumer.ts:56-92 | an ACL change removes exactly that answer and the decision of its question |
| `CacheStore.IncompleteMessageDoesNothing` | src/event/event.consumer.ts:42-47 | a message without a field it needs removes nothing |
| `CacheStore.EmittedIsUnderstood` | src/event/event.consumer.ts:56-119 | every event an operation emits is read back by the consumer as the same invalidation |
| `CacheStore.DeletedExactly` | src/cache/cache.service.ts:93-155 | each of the two deletions removes exactly its keys and leaves the other entries as they were |
| `CacheStore.RemovesPerms` | src/cache/cache.service.ts:93-114 | the first deletion takes a user's permission set exactly when the event covers the user, the second never does |
| `CacheStore.RemovesAcl` | src/cache/cache.service.ts:76-86 | the first deletion takes an ACL answer exactly when the event covers the question, the second never does |
| `CacheStore.RemovesAuthz` | src/cache/cache.service.ts:93-130 | the second deletion takes a decision exactly when the event covers the user or the question, the first never does |
| `CacheStore.SourceRepresents` | src/event/event.consumer.ts:39-119 | on the string-keyed store the first deletion is the protocol's source deletion |
| `CacheStore.DerivedRepresents` | src/event/event.consumer.ts:39-119 | and the second its derived deletion, whatever was stored in between |
| `CacheStore.InvalidationRepresents` | src/event/event.consumer.ts:39-119 | so a whole handler on the strings is both deletions on the entries |
| `Authorization.AclService.Check` | src/modules/acl/acl.service.ts:172-210 | the cached answer, or the row count, then readable for exactly 300000 ms |
| `Authorization.AuthorizationService.Check` | src/modules/authorization/authorization.service.ts:24-100 | the method over store and tables is the layered decision with its two cache writes; a decision that was not cached is then readable for exactly 300000 ms |
| `Authorization.AnswerExactly` | src/modules/authorization/authorization.service.ts:31-99 | a cached decision as it is; otherwise allowed exactly by the codes, or for a full resource by the ACL, and the source says which |
| `Authorization.ColdCheckDecides` | src/modules/authorization/authorization.service.ts:24-100 | with nothing cached, the reference decision |
| `Authorization.DecisionLifetime` | src/modules/authorization/authorization.service.ts:97 | a decision that was not cached is readable for exactly 300000 ms; one that was is answered and nothing is written |
| `Authorization.PermsLifetime` | src/cache/cache.service.ts:62-72 | a permission set that was not cached is stored as the tables give it, readable for exactly the default lifetime |
| `Authorization.AclLifetime` | src/modules/acl/acl.service.ts:200-207 | an ACL answer that was needed and not cached is stored as the rows give it, readable for exactly 300000 ms |
| `WholeChecks.AfterCheckIsRun` | src/modules/authorization/authorization.service.ts:24-100 | from any state, beginning a check and advancing it await by await is a run of the protocol that ends in the stated state |
| `Authorization.CheckRefinesProtocol` | src/modules/authorization/authorization.service.ts:24-100 | the string-keyed check gives the protocol's answer and leaves a store that represents its next state |
| `Authorization.ServiceAnswersReference` | src/modules/authorization/authorization.service.ts:24-100 | while no event concerns the user and with no expiry since caching, a check that runs through answers the reference decision |
| `Authorization.StoreCheckAnswersReference` | src/modules/authorization/authorization.service.ts:24-100 | the same from the Redis keys up |
| `Authorization.StarReadsThePlainAnswer` | src/modules/authorization/authorization.service.ts:20-22 | a question about the literal resource "*" reads the answer cached for the plain one |
| `StoreRuns.SourceKeysMatch` | src/cache/cache.service.ts:76-114 | the strings a source deletion takes are matched by the event's key or pattern, and include every such string written by the scan's start |
| `StoreRuns.DerivedKeysMatch` | src/cache/cache.service.ts:93-155 | likewise for a derived deletion |
| `StoreRuns.RunRepresents` | src/cache/cache.service.ts:36-155 | along every run with clean keys, checks split into their awaits included, the string-keyed store represents the protocol's caches in each state |
| `StoreRuns.EveryRunHasItsStore` | src/cache/cache.service.ts:36-155 | so does every run from an empty store |
| `SteadyRuns.StepKeepsSteady` | src/modules/authorization/authorization.service.ts:24-100 | a step while nothing in flight concerns the user leaves what the user is entitled to, and what is held for them, as it was |
| `SteadyRuns.AnswersAreSteady` | src/modules/authorization/authorization.service.ts:24-100 | along any run in which nothing concerns the user, every answer for them is the reference decision at its start |
| `Sdk.SdkAgreesWithReference` | packages/iam-sdk/src/iam-authz.service.ts:44-128 | with each read at its own moment of such a run, and under every mix of read errors, misses and HTTP failure, the SDK answers the reference decision, or false when it needed the service and the body carried no answer; what the service sends for an answer is stated apart from what the client makes of it |
| `Sdk.ReadableCodesDecide` | packages/iam-sdk/src/iam-authz.service.ts:54-77 | a list of codes in either shape settles every question it grants and every one without a full resource |
| `Sdk.OtherValuesGrantNothing` | packages/iam-sdk/src/iam-authz.service.ts:62-66 | a cached value that is no list grants nothing |
| `Sdk.LaterTiersExactly` | packages/iam-sdk/src/iam-authz.service.ts:81-127 | otherwise the answer is yes exactly for a cached `true`, bare or wrapped, or where nothing is cached for a `true` in the envelope or, without one there, in the body |
| `Sdk.LoopIsForAll` | packages/iam-sdk/src/guards/permission.guard.ts:56-74 | the short-circuiting loop, each call reading the caches as they are by then, goes through exactly when every required permission is the user's |
| `Sdk.BatchIsForAll` | src/modules/authorization/authorization.service.ts:102-108 | a batch whose checks interleave with each other and with anything else all allow exactly when every required permission is the user's |
| `Sdk.GuardsAgree` | src/common/guards/iam-permission.guard.ts:42-97 | on a non-public route both guards admit the same requests, exactly the ones they should, though their checks change the caches as they go |
| `Sdk.OthersNeedEveryPermission` | src/common/guards/iam-permission.guard.ts:61-91 | who is neither super admin nor the target gets through either guard exactly when each required permission was allowed |
| `Sdk.LoopAllowsAll` | packages/iam-sdk/src/guards/permission.guard.ts:60-74 | the loop goes through exactly when each of its calls allows |
| `Sdk.AnsweredWithoutChecks` | packages/iam-sdk/src/guards/permission.guard.ts:24-41 | no requirement admits, no user is refused, and only the batch guard knows public routes |
| `RefreshTokens.TokenRoundTrip` | src/modules/auth/auth.service.ts:205-211 | the issued `id.secret` string parses back to its parts |
| `RefreshTokens.ParseExactly` | src/modules/auth/auth.service.ts:109-112 | a string parses exactly when it is two non-empty dot-free parts, alone or followed by a dot and anything |
| `RefreshTokens.AuthService.GenerateTokens` | src/modules/auth/auth.service.ts:175-211 | stores one row with the hash and the lifetime, returns the string |
| `RefreshTokens.AuthService.RefreshToken` | src/modules/auth/auth.service.ts:108-160 | the rotation with all its refusals, in the source's order, and the new string |
| `RefreshTokens.AuthService.Logout` | src/modules/auth/auth.service.ts:162-173 | all rows of the user go |
| `RefreshTokens.AuthService.Activate` | src/modules/user/user.service.ts:118-154 | sets the flag, and drops the user's rows on deactivation |
| `RefreshTokens.StepKeeps` | src/modules/auth/auth.service.ts:108-211 | every step keeps the stored rows equal to the live issues |
| `RefreshTokens.IssuedNames` | src/modules/auth/auth.service.ts:205-211 | an issued string names its own issue |
| `RefreshTokens.NamesOne` | src/modules/auth/auth.service.ts:119-128 | any presented string names at most one issue |
| `RefreshTokens.AcceptedExactly` | src/modules/auth/auth.service.ts:108-140 | any presented string is accepted if and only if it names an issue that is live and unexpired and whose user exists and is active |
| `RefreshTokens.NamesExactly` | src/modules/auth/auth.service.ts:109-128 | a string names an issue exactly when it has the user's id and, of the secret, the first 72 characters |
| `RefreshTokens.RefreshAnswers` | src/modules/auth/auth.service.ts:130-160 | what is answered to a string that names an issue, case by case |
| `RefreshTokens.UnnamedIsRefused` | src/modules/auth/auth.service.ts:109-132 | a string that names none is refused, and nothing changes |
| `RefreshTokens.RefusalExactly` | src/modules/auth/auth.service.ts:134-141 | a refusal changes nothing but the row of an expired token |
| `RefreshTokens.RefreshReturnsTheNewToken` | src/modules/auth/auth.service.ts:146-159 | a refresh hands back the string of the issue it adds |
| `RefreshTokens.NewTokenIsGood` | src/modules/auth/auth.service.ts:188-208 | and that string is accepted for exactly the configured lifetime |
| `RefreshTokens.LoginTokenIsGood` | src/modules/auth/auth.service.ts:96-98 | so is a login's |
| `RefreshTokens.OthersAreSpared` | src/modules/auth/auth.service.ts:162-173 | every step leaves every token it does not aim at as acceptable as it was, other users' and the user's own other ones |
| `RefreshTokens.FlagsExactly` | src/modules/user/user.service.ts:118-134 | activation and edit set one known user's flag and no other |
| `RefreshTokens.RedeemConsumes` | src/modules/auth/auth.service.ts:142-148 | acceptance consumes exactly that issue and adds one live issue of the same user |
| `RefreshTokens.DeadStaysDead` | src/modules/auth/auth.service.ts:108-173 | no string naming an issue that is not live is accepted in any later state |
| `RefreshTokens.RedeemedAtMostOnce` | src/modules/auth/auth.service.ts:143-148 | after one acceptance no string naming the same issue is ever accepted again |
| `RefreshTokens.RevokedForever` | src/modules/user/user.service.ts:118-133 | no string naming an issue made before a logout or deactivation is accepted after it |
| `RefreshTokens.EditingSuspendsOnly` | src/modules/user/user.service.ts:93-116 | clearing `is_active` by an edit only suspends a token until reactivation |
| `RefreshTokens.Conservation` | src/modules/auth/auth.service.ts:108-211 | issued = stored + redeemed + removed as expired + revoked |
| `OverlappingRefresh.MoveKeeps` | src/modules/auth/auth.service.ts:108-148 | with every await of a refresh its own step, whoever compared with a row did so before any deletion of it; with exclusion one row has one refresh at a time |
| `OverlappingRefresh.OnceExactlyWithoutOverlap` | src/modules/auth/auth.service.ts:118-148 | in every run a token is redeemed at most once if and only if no two refreshes that redeem it overlap from comparison to deletion |
| `OverlappingRefresh.TwiceRedeemed` | src/modules/auth/auth.service.ts:118-148 | a concrete run in which two refreshes of one token both go through |
| `OverlappingRefresh.OnceExactlyWhenExclusive` | src/modules/auth/auth.service.ts:118-148 | every run redeems every token at most once if and only if refreshes exclude each other on a row |
| `OverlappingRefresh.UninterruptedIsRefresh` | src/modules/auth/auth.service.ts:108-160 | a refresh with nothing in between leaves the rows of the one-step refresh, and redeems its row exactly when that one issues a token |
| `Seeds.ExtractPermissions` | src/database/seeds/system-permissions.seed.ts:5-15 | the recursion's list, in order |
| `Seeds.CodesAreTheLeaves` | src/database/seeds/system-permissions.seed.ts:5-15 | it contains exactly the codes some path through the constant object leads to |
| `Seeds.CodesInOrder` | src/database/seeds/system-permissions.seed.ts:5-15 | in the order of the object, nested or not |
| `Seeds.SeedTables.SeedPermissions` | src/database/seeds/system-permissions.seed.ts:17-45 | the insertion loop over the extracted codes |
| `Seeds.InsertAllExactly` | src/database/seeds/system-permissions.seed.ts:34-41 | seeding keeps every row, adds exactly the missing codes, keeps ids and codes unique |
| `Seeds.SecondPermissionSeedIsIdentity` | src/database/seeds/system-permissions.seed.ts:34-41 | a second permission seed adds no row |
| `Seeds.SeedTables.PermissionsToAssign` | src/database/seeds/system-roles.seed.ts:91-101 | the expansion loop over a declared list |
| `Seeds.SeedTables.AssignAll` | src/database/seeds/system-roles.seed.ts:103-115 | the insertion loop over the expanded rows |
| `Seeds.SeedTables.SeedSystemRoles` | src/database/seeds/system-roles.seed.ts:75-117 | the loop over the role definitions |
| `Seeds.ExpansionExactly` | src/database/seeds/system-roles.seed.ts:91-101 | the expansion is exactly the catalog rows a declared prefix or exact code pulls in |
| `Seeds.ExpansionInOrder` | src/database/seeds/system-roles.seed.ts:90-101 | in the order of the list, once per declaration that pulls a row in |
| `Seeds.PullsExactly` | src/database/seeds/system-roles.seed.ts:92-97 | `stem.*` pulls in exactly the codes that start with the stem, anything else exactly itself |
| `Seeds.FirstStarIsCut` | src/database/seeds/system-roles.seed.ts:93 | of several `.*` the first is cut out |
| `Seeds.ExpansionPreservesExactly` | src/database/seeds/system-roles.seed.ts:91-101 | expanded and declared lists grant the same catalog codes if and only if no prefix reaches a code the list does not grant |
| `Seeds.OneWildcardExactly` | src/database/seeds/system-roles.seed.ts:92-95 | for one wildcard that condition is: every code under its prefix goes on with a dot |
| `Seeds.DottedCatalogPreserves` | src/database/seeds/system-roles.seed.ts:91-101 | it follows for any list whose prefixes are followed by dots |
| `Seeds.PrefixCanOverreach` | src/database/seeds/system-roles.seed.ts:93-94 | a concrete catalog in which the expansion hands out more than was declared |
| `Seeds.SeededRolesHold` | src/database/seeds/system-roles.seed.ts:75-117 | a system role ends with what it held plus the expansion of every definition of its name |
| `Seeds.SeedingAddsOnly` | src/database/seeds/system-roles.seed.ts:77-115 | every role and mapping stays; a new role is a system role of a defined name, a new mapping belongs to one |
| `Seeds.SeedingPreservesMeaning` | src/database/seeds/system-roles.seed.ts:75-117 | on an empty database both seeds give each role its declared meaning, exactly under the same condition |
| `Seeds.SecondRoleSeedIsIdentity` | src/database/seeds/system-roles.seed.ts:77-115 | a second role seed, from any tables, adds no row |
| `Hierarchy.WorkingExactly` | src/modules/user/user.service.ts:159-169 | each round of the recursion lists, once, the users whose chain of that length leads to the root |
| `Hierarchy.EndsExactlyWithoutCycle` | src/modules/user/user.service.ts:156-173 | the recursion ends if and only if the root is not among its own managers within the tenant |
| `Hierarchy.EndsInTime` | src/modules/user/user.service.ts:156-173 | and then within as many rounds as there are users |
| `Hierarchy.ListsEachOnce` | src/modules/user/user.service.ts:156-173 | root and every transitive same-tenant subordinate exactly once despite UNION ALL, level = chain length + 1, in level order |
| `Hierarchy.OtherTenantsCutTheChain` | src/modules/user/user.service.ts:163-167 | a concrete chart: a user of another tenant is not listed, nor is whoever reports to them |
| `Hierarchy.CreationKeepsAcyclic` | src/modules/user/user.service.ts:48-57 | a new user with a fresh id keeps the chart acyclic |
| `Hierarchy.ManagerEditExactly` | src/modules/user/user.service.ts:93-105 | a changed manager keeps it acyclic if and only if the new manager is not the user or a subordinate |
| `Hierarchy.UserDirectory.CreateUser` | src/modules/user/user.service.ts:36-57 | the row, or a refusal for a taken email or an unknown manager, keys kept |
| `Hierarchy.UserDirectory.UpdateUser` | src/modules/user/user.service.ts:93-105 | the patched row, or a refusal with nothing changed, and exactly when the chart stays acyclic |
| `Hierarchy.UpdatedExactly` | src/modules/user/user.service.ts:93-105 | when an update is refused, and that otherwise exactly the named columns of that row change |

## Assumptions

- Redis is a map whose entries expire; a scan returns, in any batches and with repeats, exactly the
  keys under its pattern at the time of the call, and in the protocol all keys written before it began
  plus any later ones it happens to see. Kafka delivers, repeats, reorders or loses. Postgres tables are
  sequences of rows with the keys and foreign keys the schema declares.
- Generated ids and secrets are parameters. A generated role id is never generated again, and no question
  names the ids of a new tenant and its first user before they exist. Secrets are
  fresh on the 72 bytes bcrypt reads.
- When rows land, the schema's primary, unique and foreign keys hold (`RowEdits.Admits`); nothing else of
  what a handler found is checked again.
- Ids contain no colon and no dot.
- `setActivation`'s user event is a spontaneous event of the protocol (`Replay`).

## Left out

- Transactions.RunInTransaction: does not model a release that itself throws, nor isolation levels; concurrent transactions are the protocol's subject, not this method's.
- Transactions.TenantTransactionInterceptor.Open: health routes, which bypass the interceptor.
- RbacServices.UserRows.CreateUser: the lookup of the default role by name, and the email check, which is in `Hierarchy.UserDirectory.CreateUser`; the resolved role is a parameter.
- Transactions.Serve: one request at a time; transactions that overlap are the protocol's.
- RowEdits.EditsOf: a handler reads and decides in one step; its own reads are not interleaved with other commits.
- RefreshTokens.AuthService.RefreshToken: one step per refresh; the awaits in between are in `OverlappingRefresh`.
- Agreement.CoherentExactlyWhenDisciplined: its conditions are on the steps a deployment allows; that a single run could do with less, for instance with a check whose later reads already saw the change, is not stated.
- Hierarchy.ListsEachOnce: the order by first name inside one level, and the name and email columns.
- Authorization.AuthorizationService.Check: clock and tables do not move during the call; what happens between its awaits is in the protocol.
- RbacServices.OverrideService.GetEffectivePermissions: its three reads see one state of the tables; reads of different states are in the protocol.
- CacheStore.CacheService.Set: a lifetime of 0, which the cache library reads as "never expires".
- Seeds.SeedTables.SeedPermissions: the service and description columns.
- Sdk.OtherValuesGrantNothing: a cached string inside the wrapper, which would be read as a set of its characters; no writer stores one.
- Sdk.GuardsAgree: the self-access parameter is taken as one string, and a user without a tenant is not a case.
- JWT signing and checking, bcrypt, and random generation: abstract fresh values and a match on the significant bytes.
- The seed scripts as steps of the running system: they write system roles with no event, and are modelled on their own.
- Row-level security: enforced by Postgres, not by the code modelled here.
- The audit pipeline: a library buffer.
- Controllers, request validation beyond ACL fields, health, logging, configuration.
- The colon-format matcher in `src/common/utils/permission-matcher.util.ts`: not on the decision path.
- Login branching, super-admin tokens and impersonation, editing and deactivating tenants, pagination, role name and description edits: easy members.
