// Seeding the system permissions and roles: the recursion over the constant tree,
// the idempotent insertions, and the expansion of declared wildcards into rows.

module Seeds {
  import opened PermissionMatcher
  import opened Tables

  // ---- the constant tree ----

  /** A value of the constants object: a code, a nested object, or anything else. */
  datatype Value = Code(code: string) | Group(members: seq<Value>) | Other

  function Codes(members: seq<Value>): seq<string>
  {
    if members == [] then [] else CodesOf(members[0]) + Codes(members[1..])
  }

  function CodesOf(value: Value): seq<string>
  {
    match value
    case Code(code) => [code]
    case Group(inner) => Codes(inner)
    case Other => []
  }

  /** The code found by following member positions from the root, if there is one. */
  function At(members: seq<Value>, path: seq<nat>): Option<string>
    decreases |path|
  {
    if path == [] || path[0] >= |members| then None
    else
      match members[path[0]]
      case Code(code) => if |path| == 1 then Some(code) else None
      case Group(inner) => At(inner, path[1..])
      case Other => None
  }

  lemma {:induction false} LeafIsCollected(members: seq<Value>, path: seq<nat>, code: string)
    requires At(members, path) == Some(code)
    ensures code in Codes(members)
  {
    var rest := members[1..];
    if path[0] > 0 {
      var shorter := [path[0] - 1] + path[1..];
      assert shorter[1..] == path[1..] && rest[shorter[0]] == members[path[0]];
      LeafIsCollected(rest, shorter, code);
    } else if members[0].Group? {
      LeafIsCollected(members[0].members, path[1..], code);
    }
  }

  lemma {:induction false} CollectedIsLeaf(members: seq<Value>, code: string) returns (path: seq<nat>)
    requires code in Codes(members)
    ensures At(members, path) == Some(code)
  {
    if code in Codes(members[1..]) {
      var p := CollectedIsLeaf(members[1..], code);
      path := [p[0] + 1] + p[1..];
      assert path[1..] == p[1..] && members[path[0]] == members[1..][p[0]];
    } else if members[0].Group? {
      var p := CollectedIsLeaf(members[0].members, code);
      path := [0] + p;
      assert path[1..] == p;
    } else {
      path := [0];
    }
  }

  /** The recursion collects exactly the codes some path leads to. */
  lemma CodesAreTheLeaves(members: seq<Value>, code: string)
    ensures code in Codes(members) <==> exists path :: At(members, path) == Some(code)
  {
    if code in Codes(members) {
      var path := CollectedIsLeaf(members, code);
    }
    if path :| At(members, path) == Some(code) {
      LeafIsCollected(members, path, code);
    }
  }

  /** In the order of the object: what stands first is collected first, nested or not. */
  lemma {:induction false} CodesInOrder(a: seq<Value>, b: seq<Value>, inner: seq<Value>, code: string)
    ensures Codes(a + b) == Codes(a) + Codes(b)
    ensures Codes([Code(code)]) == [code] && Codes([Group(inner)]) == Codes(inner) && Codes([Other]) == []
  {
    if a == [] {
      assert a + b == b;
    } else {
      assert (a + b)[1..] == a[1..] + b;
      CodesInOrder(a[1..], b, inner, code);
    }
  }

  // ---- permission rows ----

  ghost predicate HasCode(rows: seq<Permission>, code: string)
  {
    exists p | p in rows :: p.code == code
  }

  /** One `findOne`, then an insertion when nothing was found. */
  function Insert(rows: seq<Permission>, code: string, id: Id): (r: seq<Permission>)
    ensures rows <= r && HasCode(r, code)
  {
    var i := IndexWhere(rows, (p: Permission) => p.code == code);
    if i < |rows| then
      assert rows[i] in rows;
      rows
    else
      assert (rows + [Permission(id, code)])[|rows|] == Permission(id, code);
      rows + [Permission(id, code)]
  }

  function InsertAll(rows: seq<Permission>, codes: seq<string>, ids: seq<Id>): seq<Permission>
    requires |codes| == |ids|
    decreases |codes|
  {
    if codes == [] then rows else InsertAll(Insert(rows, codes[0], ids[0]), codes[1..], ids[1..])
  }

  ghost predicate FreshIds(rows: seq<Permission>, ids: seq<Id>)
  {
    && (forall i, j | 0 <= i < j < |ids| :: ids[i] != ids[j])
    && forall p | p in rows :: p.id !in ids
  }

  /** Seeding keeps every row, adds exactly the missing codes, and keeps ids and codes unique. */
  lemma {:induction false} InsertAllExactly(rows: seq<Permission>, codes: seq<string>, ids: seq<Id>)
    requires |codes| == |ids| && FreshIds(rows, ids) && UniquePermissions(rows)
    ensures rows <= InsertAll(rows, codes, ids) && UniquePermissions(InsertAll(rows, codes, ids))
    ensures forall c :: HasCode(InsertAll(rows, codes, ids), c) <==> HasCode(rows, c) || c in codes
    decreases |codes|
  {
    if codes != [] {
      var next := Insert(rows, codes[0], ids[0]);
      assert FreshIds(next, ids[1..]) by {
        assert forall id | id in ids[1..] :: id != ids[0];
      }
      assert ids[0] in ids && UniquePermissions(next);
      InsertAllExactly(next, codes[1..], ids[1..]);
      forall c
        ensures HasCode(next, c) <==> HasCode(rows, c) || c == codes[0]
      {
        assert forall p | p in next :: p in rows || p.code == codes[0];
        assert forall p | p in rows :: p in next;
      }
    }
  }

  lemma {:induction false} InsertAllSettled(rows: seq<Permission>, codes: seq<string>, ids: seq<Id>)
    requires |codes| == |ids| && forall c | c in codes :: HasCode(rows, c)
    ensures InsertAll(rows, codes, ids) == rows
    decreases |codes|
  {
    if codes != [] {
      assert HasCode(rows, codes[0]);
      InsertAllSettled(rows, codes[1..], ids[1..]);
    }
  }

  /** Seeding the permissions a second time adds no row. */
  lemma SecondPermissionSeedIsIdentity(rows: seq<Permission>, codes: seq<string>, ids: seq<Id>, ids': seq<Id>)
    requires |codes| == |ids| == |ids'| && FreshIds(rows, ids) && UniquePermissions(rows)
    ensures InsertAll(InsertAll(rows, codes, ids), codes, ids') == InsertAll(rows, codes, ids)
  {
    InsertAllExactly(rows, codes, ids);
    InsertAllSettled(InsertAll(rows, codes, ids), codes, ids');
  }

  // ---- wildcard expansion ----

  predicate IsWildcard(p: string)
  {
    |p| >= 2 && p[|p| - 2..] == ".*"
  }

  /** `p.replace('.*', '')`: the first occurrence only. */
  function WithoutFirstStar(p: string): string
  {
    if |p| < 2 then p
    else if p[0] == '.' && p[1] == '*' then p[2..]
    else [p[0]] + WithoutFirstStar(p[1..])
  }

  /** The only ".*" is the trailing one. */
  ghost predicate PlainWildcard(p: string)
  {
    IsWildcard(p) && forall k | 0 <= k < |p| - 2 :: !(p[k] == '.' && p[k + 1] == '*')
  }

  lemma {:induction false} PrefixOfPlainWildcard(p: string)
    requires PlainWildcard(p)
    ensures WithoutFirstStar(p) == p[..|p| - 2]
  {
    if |p| > 2 {
      assert !(p[0] == '.' && p[1] == '*');
      assert p[1..][|p[1..]| - 2..] == p[|p| - 2..];
      PrefixOfPlainWildcard(p[1..]);
      assert p[..|p| - 2] == [p[0]] + p[1..][..|p[1..]| - 2];
    }
  }

  function Matching(p: string, catalog: seq<Permission>): seq<Permission>
  {
    if IsWildcard(p) then Keep(catalog, (ap: Permission) => WithoutFirstStar(p) <= ap.code)
    else
      var i := IndexWhere(catalog, (ap: Permission) => ap.code == p);
      if i < |catalog| then [catalog[i]] else []
  }

  function Expansion(declared: seq<string>, catalog: seq<Permission>): seq<Permission>
  {
    if declared == [] then [] else Matching(declared[0], catalog) + Expansion(declared[1..], catalog)
  }

  predicate Pulls(declared: string, code: string)
  {
    if IsWildcard(declared) then WithoutFirstStar(declared) <= code else declared == code
  }

  /** The catalog codes a declared list is turned into. */
  function Expanded(declared: seq<string>, catalog: seq<Permission>): set<string>
  {
    set p | p in catalog && exists d | d in declared :: Pulls(d, p.code) :: p.code
  }

  lemma {:induction false} ExpansionExactly(declared: seq<string>, catalog: seq<Permission>)
    requires UniquePermissions(catalog)
    ensures forall p :: p in Expansion(declared, catalog) <==> p in catalog && exists d | d in declared :: Pulls(d, p.code)
  {
    if declared != [] {
      ExpansionExactly(declared[1..], catalog);
      forall p
        ensures p in Matching(declared[0], catalog) <==> p in catalog && Pulls(declared[0], p.code)
      {
        MatchingExactly(declared[0], catalog, p);
      }
      assert forall d :: d in declared <==> d == declared[0] || d in declared[1..];
    }
  }

  /** In the order of the list, once per declaration that pulls a row in. */
  lemma {:induction false} ExpansionInOrder(a: seq<string>, b: seq<string>, catalog: seq<Permission>)
    ensures Expansion(a + b, catalog) == Expansion(a, catalog) + Expansion(b, catalog)
  {
    if a == [] {
      assert a + b == b;
    } else {
      assert (a + b)[1..] == a[1..] + b;
      ExpansionInOrder(a[1..], b, catalog);
    }
  }

  lemma MatchingExactly(d: string, catalog: seq<Permission>, p: Permission)
    requires UniquePermissions(catalog)
    ensures p in Matching(d, catalog) <==> p in catalog && Pulls(d, p.code)
  {
    if !IsWildcard(d) && p in catalog && p.code == d {
      var i := IndexWhere(catalog, (ap: Permission) => ap.code == d);
      assert i < |catalog| && catalog[i] in catalog && catalog[i].id == p.id;
    }
  }

  /** `stem.*` pulls in every code that starts with the stem, dot or no dot; anything else only itself. */
  lemma PullsExactly(stem: string, d: string, code: string)
    requires forall k | 0 <= k < |stem| :: !(stem[k] == '.' && (stem + ".*")[k + 1] == '*')
    ensures Pulls(stem + ".*", code) <==> stem <= code
    ensures (forall s: string :: d != s + ".*") ==> (Pulls(d, code) <==> d == code)
  {
    var w := stem + ".*";
    assert w[|w| - 2..] == ".*" && w[..|w| - 2] == stem;
    PrefixOfPlainWildcard(w);
    if IsWildcard(d) {
      assert d == d[..|d| - 2] + ".*";
    }
  }

  lemma StartsWithoutStar(p: string, rest: string)
    requires |p| >= 2 && p[1..] == rest && !(p[0] == '.' && p[1] == '*')
    ensures WithoutFirstStar(p) == [p[0]] + WithoutFirstStar(rest)
  {
  }

  /** Of several occurrences the first is cut out. */
  lemma {:induction false} FirstStarIsCut(a: string, b: string)
    requires forall k | 0 <= k < |a| :: !(a[k] == '.' && (a + ".*")[k + 1] == '*')
    ensures WithoutFirstStar(a + ".*" + b) == a + b
  {
    var whole := a + ".*" + b;
    if a == "" {
      assert whole[2..] == b && a + b == b;
    } else {
      var rest := a[1..];
      assert a + ".*" == [a[0]] + (rest + ".*") && whole == [a[0]] + (rest + ".*" + b);
      assert forall k | 0 <= k < |rest| :: rest[k] == a[k + 1] && (rest + ".*")[k + 1] == (a + ".*")[k + 2];
      FirstStarIsCut(rest, b);
      StartsWithoutStar(whole, rest + ".*" + b);
      assert [a[0]] + (rest + b) == a + b;
    }
  }

  function AsSet(codes: seq<string>): set<string> { set c | c in codes }

  /** What the seeds are meant for: every declared wildcard is itself a catalog code. */
  ghost predicate Declarable(declared: seq<string>, catalog: seq<Permission>)
  {
    forall d | d in declared && (IsWildcard(d) || d == "*") ::
      HasCode(catalog, d) && (IsWildcard(d) ==> PlainWildcard(d))
  }

  /** Every catalog code that starts with a declared prefix is one the declared list grants. */
  ghost predicate NoOverreach(declared: seq<string>, catalog: seq<Permission>)
  {
    forall d, p | d in declared && IsWildcard(d) && p in catalog && WithoutFirstStar(d) <= p.code ::
      Grants(AsSet(declared), p.code)
  }

  ghost predicate SameGrants(held: set<string>, declared: seq<string>, catalog: seq<Permission>)
  {
    forall p | p in catalog :: Grants(held, p.code) <==> Grants(AsSet(declared), p.code)
  }

  lemma ExpansionLosesNothing(declared: seq<string>, catalog: seq<Permission>, code: string)
    requires Declarable(declared, catalog) && HasCode(catalog, code) && Grants(AsSet(declared), code)
    ensures Grants(Expanded(declared, catalog), code)
  {
    var h :| h in AsSet(declared) && Covers(h, code);
    if IsWildcard(h) {
      PrefixOfPlainWildcard(h);
    }
    assert Pulls(h, h);
    if h != "*" && h != code && h != "*.*" {
      var i :| IsWildcardAt(h, StripDots(code), i);
      assert h[|h| - 2..] == ".*";
    }
    assert IsWildcard("*.*");
    assert HasCode(catalog, h);
    assert h in Expanded(declared, catalog);
  }

  /** The expanded role means what its declaration meant exactly when no prefix overreaches. */
  lemma ExpansionPreservesExactly(declared: seq<string>, catalog: seq<Permission>)
    requires Declarable(declared, catalog)
    ensures SameGrants(Expanded(declared, catalog), declared, catalog) <==> NoOverreach(declared, catalog)
  {
    var expanded := Expanded(declared, catalog);
    if SameGrants(expanded, declared, catalog) {
      forall d, p | d in declared && IsWildcard(d) && p in catalog && WithoutFirstStar(d) <= p.code
        ensures Grants(AsSet(declared), p.code)
      {
        assert Pulls(d, p.code) && p.code in expanded && Covers(p.code, p.code);
      }
    }
    if NoOverreach(declared, catalog) {
      forall p | p in catalog
        ensures Grants(expanded, p.code) <==> Grants(AsSet(declared), p.code)
      {
        if Grants(expanded, p.code) {
          ExpansionAddsNothing(declared, catalog, p.code);
        }
        if Grants(AsSet(declared), p.code) {
          ExpansionLosesNothing(declared, catalog, p.code);
        }
      }
    }
  }

  lemma ExpansionAddsNothing(declared: seq<string>, catalog: seq<Permission>, code: string)
    requires NoOverreach(declared, catalog) && Grants(Expanded(declared, catalog), code)
    ensures Grants(AsSet(declared), code)
  {
    var h :| h in Expanded(declared, catalog) && Covers(h, code);
    var p, d :| p in catalog && p.code == h && d in declared && Pulls(d, h);
    if !IsWildcard(d) {
      assert d in AsSet(declared) && Covers(d, h);
    }
    assert Grants(AsSet(declared), h);
    var w :| w in AsSet(declared) && Covers(w, h);
    CoversTransitive(w, h, code);
  }

  /** The code goes on with a dot after the prefix. */
  predicate ContinuesWithDot(prefix: string, code: string)
  {
    prefix <= code && |prefix| < |code| && code[|prefix|] == '.'
  }

  /** A single declared wildcard keeps its meaning exactly when each code under its prefix goes on with a dot. */
  lemma OneWildcardExactly(d: string, catalog: seq<Permission>)
    requires PlainWildcard(d) && HasCode(catalog, d) && d != "*.*" && |d| > 2 && d[0] != '.'
    ensures SameGrants(Expanded([d], catalog), [d], catalog) <==>
            forall p | p in catalog && WithoutFirstStar(d) <= p.code :: ContinuesWithDot(WithoutFirstStar(d), p.code)
  {
    ExpansionPreservesExactly([d], catalog);
    PrefixOfPlainWildcard(d);
    forall p | p in catalog && WithoutFirstStar(d) <= p.code
      ensures Grants(AsSet([d]), p.code) <==> ContinuesWithDot(WithoutFirstStar(d), p.code)
    {
      assert d in AsSet([d]);
      WildcardCoversExactly(d, p.code);
    }
  }

  lemma WildcardCoversExactly(d: string, code: string)
    requires PlainWildcard(d) && d != "*.*" && |d| > 2 && d[0] != '.' && d[..|d| - 2] <= code
    ensures Covers(d, code) <==> ContinuesWithDot(d[..|d| - 2], code)
  {
    var prefix := d[..|d| - 2];
    assert d == prefix + ".*";
    assert code[0] == d[0];
    if ContinuesWithDot(prefix, code) {
      assert code[..|prefix|] == prefix;
      assert IsWildcardAt(d, StripDots(code), |prefix|);
    }
    if i :| IsWildcardAt(d, StripDots(code), i) {
      assert |d| == i + 2;
    }
  }

  /** For any list: if every prefix is non-empty, undotted, and only matches codes that go on with a dot. */
  lemma DottedCatalogPreserves(declared: seq<string>, catalog: seq<Permission>)
    requires Declarable(declared, catalog)
    requires forall d | d in declared && IsWildcard(d) :: |d| > 2 && d[0] != '.'
    requires forall d, p | d in declared && IsWildcard(d) && p in catalog && WithoutFirstStar(d) <= p.code ::
               ContinuesWithDot(WithoutFirstStar(d), p.code)
    ensures SameGrants(Expanded(declared, catalog), declared, catalog)
  {
    forall d, p | d in declared && IsWildcard(d) && p in catalog && WithoutFirstStar(d) <= p.code
      ensures Grants(AsSet(declared), p.code)
    {
      assert HasCode(catalog, d) && d in AsSet(declared);
      PrefixOfPlainWildcard(d);
      if d != "*.*" {
        WildcardCoversExactly(d, p.code);
      }
      assert Covers(d, p.code);
    }
    ExpansionPreservesExactly(declared, catalog);
  }

  lemma PrefixAlone(d: string, code: string, catalog: seq<Permission>)
    requires PlainWildcard(d) && d != "*.*" && |d| > 2 && d[0] != '.'
    requires HasCode(catalog, d) && HasCode(catalog, code)
    requires d[..|d| - 2] <= code && !ContinuesWithDot(d[..|d| - 2], code)
    ensures Declarable([d], catalog) && Grants(Expanded([d], catalog), code) && !Grants(AsSet([d]), code)
  {
    PrefixOfPlainWildcard(d);
    WildcardCoversExactly(d, code);
    assert Pulls(d, code) && d in [d];
    assert code in Expanded([d], catalog) && Covers(code, code);
  }

  /** A code that merely starts with the same letters is handed out although the wildcard does not grant it. */
  lemma PrefixCanOverreach()
    ensures var catalog := [Permission("1", "user.*"), Permission("2", "users.read")];
            && Declarable(["user.*"], catalog)
            && Grants(Expanded(["user.*"], catalog), "users.read") && !Grants(AsSet(["user.*"]), "users.read")
  {
    var d, code := "user.*", "users.read";
    var catalog := [Permission("1", d), Permission("2", code)];
    assert catalog[0] in catalog && catalog[1] in catalog;
    assert d[..4] == "user" && code[..4] == "user" && code[4] == 's';
    PrefixAlone(d, code, catalog);
  }

  // ---- role rows ----

  datatype RoleRow = RoleRow(id: Id, role: Role)
  datatype RoleDef = RoleDef(name: string, permissions: seq<string>)
  datatype RoleTables = RoleTables(roles: seq<RoleRow>, rolePermissions: seq<RolePermission>)

  predicate IsSystemRole(row: RoleRow, name: string)
  {
    row.role.name == name && row.role.isSystem && row.role.tenant == None
  }

  function FindSystemRole(roles: seq<RoleRow>, name: string): (i: nat)
    ensures i <= |roles|
    ensures i < |roles| ==> IsSystemRole(roles[i], name)
    ensures forall j | 0 <= j < i :: !IsSystemRole(roles[j], name)
  {
    IndexWhere(roles, (r: RoleRow) => IsSystemRole(r, name))
  }

  function LinkOne(rows: seq<RolePermission>, row: RolePermission): seq<RolePermission>
  {
    if row in rows then rows else rows + [row]
  }

  function Link(rows: seq<RolePermission>, roleId: Id, perms: seq<Permission>): (r: seq<RolePermission>)
    ensures forall rp :: rp in r <==> rp in rows || exists p | p in perms :: rp == RolePermission(roleId, p.id)
    decreases |perms|
  {
    if perms == [] then rows
    else
      assert forall p :: p in perms <==> p == perms[0] || p in perms[1..];
      Link(LinkOne(rows, RolePermission(roleId, perms[0].id)), roleId, perms[1..])
  }

  function WithRole(roles: seq<RoleRow>, name: string, id: Id): (r: seq<RoleRow>)
    ensures FindSystemRole(roles, name) < |r| && IsSystemRole(r[FindSystemRole(roles, name)], name)
    ensures roles <= r
  {
    if FindSystemRole(roles, name) < |roles| then roles else roles + [RoleRow(id, Role(None, true, name))]
  }

  function SeedRole(t: RoleTables, catalog: seq<Permission>, def: RoleDef, id: Id): RoleTables
  {
    var roles := WithRole(t.roles, def.name, id);
    var roleId := roles[FindSystemRole(t.roles, def.name)].id;
    RoleTables(roles, Link(t.rolePermissions, roleId, Expansion(def.permissions, catalog)))
  }

  function SeedRoles(t: RoleTables, catalog: seq<Permission>, defs: seq<RoleDef>, ids: seq<Id>): RoleTables
    requires |ids| == |defs|
    decreases |defs|
  {
    if defs == [] then t else SeedRoles(SeedRole(t, catalog, defs[0], ids[0]), catalog, defs[1..], ids[1..])
  }

  // ---- what a seeded role holds ----

  /** The id of the system role of that name: neither a tenant's nor a custom role. */
  function RoleId(t: RoleTables, name: string): Option<Id>
  {
    var i := IndexWhere(t.roles, (r: RoleRow) => r.role.name == name && r.role.isSystem && r.role.tenant == None);
    if i < |t.roles| then Some(t.roles[i].id) else None
  }

  function HeldCodes(t: RoleTables, catalog: seq<Permission>, name: string): set<string>
  {
    match RoleId(t, name)
    case None => {}
    case Some(id) => set p | p in catalog && RolePermission(id, p.id) in t.rolePermissions :: p.code
  }

  lemma RoleIdIsFound(t: RoleTables, name: string)
    ensures RoleId(t, name) == (var i := FindSystemRole(t.roles, name); if i < |t.roles| then Some(t.roles[i].id) else None)
  {
    var i := IndexWhere(t.roles, (r: RoleRow) => r.role.name == name && r.role.isSystem && r.role.tenant == None);
    assert forall j | 0 <= j < i :: !IsSystemRole(t.roles[j], name);
  }

  ghost predicate Tidy(t: RoleTables, ids: seq<Id>)
  {
    && (forall i, j | 0 <= i < j < |t.roles| :: t.roles[i].id != t.roles[j].id)
    && (forall i, j | 0 <= i < j < |ids| :: ids[i] != ids[j])
    && (forall i | 0 <= i < |t.roles| :: t.roles[i].id !in ids)
    && (forall rp | rp in t.rolePermissions :: rp.roleId !in ids)
  }

  lemma SeedRoleTidy(t: RoleTables, catalog: seq<Permission>, def: RoleDef, ids: seq<Id>)
    requires |ids| > 0 && Tidy(t, ids)
    ensures Tidy(SeedRole(t, catalog, def, ids[0]), ids[1..])
  {
    assert ids[0] in ids && forall id | id in ids[1..] :: id in ids && id != ids[0];
  }

  /** The new role id is the found one or the fresh one; no other system role changes its id. */
  lemma SeedRoleIds(t: RoleTables, catalog: seq<Permission>, def: RoleDef, id: Id, name: string)
    ensures var t' := SeedRole(t, catalog, def, id);
            RoleId(t', name) == if name == def.name && RoleId(t, name) == None then Some(id) else RoleId(t, name)
  {
    var t' := SeedRole(t, catalog, def, id);
    RoleIdIsFound(t, name);
    RoleIdIsFound(t', name);
    var i, i' := FindSystemRole(t.roles, name), FindSystemRole(t'.roles, name);
    assert forall j | 0 <= j < |t.roles| :: t'.roles[j] == t.roles[j];
    if i < |t.roles| {
      assert i' == i;
    }
  }

  lemma SeedRoleHolds(t: RoleTables, catalog: seq<Permission>, def: RoleDef, ids: seq<Id>, name: string)
    requires |ids| > 0 && Tidy(t, ids) && UniquePermissions(catalog)
    ensures HeldCodes(SeedRole(t, catalog, def, ids[0]), catalog, name) ==
            HeldCodes(t, catalog, name) + (if name == def.name then Expanded(def.permissions, catalog) else {})
  {
    var t' := SeedRole(t, catalog, def, ids[0]);
    var target := t'.roles[FindSystemRole(t.roles, def.name)].id;
    SeedRoleIds(t, catalog, def, ids[0], name);
    RoleIdIsFound(t', name);
    RoleIdIsFound(t', def.name);
    ExpansionExactly(def.permissions, catalog);
    assert ids[0] in ids;
    if RoleId(t', name).Some? {
      var id := RoleId(t', name).value;
      assert id == target <==> name == def.name;
      forall p | p in catalog
        ensures RolePermission(id, p.id) in t'.rolePermissions <==>
                RolePermission(id, p.id) in t.rolePermissions || (name == def.name && p.code in Expanded(def.permissions, catalog))
      {
        LinkedExactly(catalog, def, p);
      }
    }
  }

  lemma LinkedExactly(catalog: seq<Permission>, def: RoleDef, p: Permission)
    requires UniquePermissions(catalog) && p in catalog
    ensures (exists q | q in Expansion(def.permissions, catalog) :: q.id == p.id) <==> p.code in Expanded(def.permissions, catalog)
  {
    ExpansionExactly(def.permissions, catalog);
  }

  /**
   * Nothing else changes: every role and mapping stays, a new role is a system role of a
   * defined name, and a new mapping belongs to the system role of one.
   */
  lemma {:induction false} SeedingAddsOnly(t: RoleTables, catalog: seq<Permission>, defs: seq<RoleDef>, ids: seq<Id>, row: RoleRow, rp: RolePermission)
    requires |ids| == |defs|
    ensures var t' := SeedRoles(t, catalog, defs, ids);
            && t.roles <= t'.roles
            && (rp in t.rolePermissions ==> rp in t'.rolePermissions)
            && (row in t'.roles && row !in t.roles ==>
                  row.id in ids && exists d | d in defs :: row.role == Role(None, true, d.name))
            && (rp in t'.rolePermissions && rp !in t.rolePermissions ==>
                  exists d | d in defs :: RoleId(t', d.name) == Some(rp.roleId))
            && (forall name :: RoleId(t, name).Some? ==> RoleId(t', name) == RoleId(t, name))
            && (forall d | d in defs :: RoleId(t', d.name).Some?)
    decreases |defs|
  {
    if defs != [] {
      var t1 := SeedRole(t, catalog, defs[0], ids[0]);
      SeedingAddsOnly(t1, catalog, defs[1..], ids[1..], row, rp);
      forall name ensures RoleId(t, name).Some? ==> RoleId(t1, name) == RoleId(t, name) { SeedRoleIds(t, catalog, defs[0], ids[0], name); }
      SeedRoleIds(t, catalog, defs[0], ids[0], defs[0].name);
      RoleIdIsFound(t, defs[0].name);
      assert forall d :: d in defs <==> d == defs[0] || d in defs[1..];
    }
  }

  /** After seeding, a system role holds what it held before plus the expansion of every definition of that name. */
  lemma {:induction false} SeededRolesHold(
      t: RoleTables, catalog: seq<Permission>, defs: seq<RoleDef>, ids: seq<Id>, name: string, code: string)
    requires |ids| == |defs| && Tidy(t, ids) && UniquePermissions(catalog)
    ensures code in HeldCodes(SeedRoles(t, catalog, defs, ids), catalog, name) <==>
            code in HeldCodes(t, catalog, name) ||
            exists d | d in defs :: d.name == name && code in Expanded(d.permissions, catalog)
    decreases |defs|
  {
    if defs != [] {
      SeedRoleTidy(t, catalog, defs[0], ids);
      SeedRoleHolds(t, catalog, defs[0], ids, name);
      SeededRolesHold(SeedRole(t, catalog, defs[0], ids[0]), catalog, defs[1..], ids[1..], name, code);
      assert forall d :: d in defs <==> d == defs[0] || d in defs[1..];
    }
  }

  /**
   * On an empty database both seeds together give each system role the meaning of its
   * declared list, exactly when no declared prefix overreaches in the seeded catalog.
   */
  lemma SeedingPreservesMeaning(
      codes: seq<string>, permissionIds: seq<Id>, defs: seq<RoleDef>, ids: seq<Id>, def: RoleDef)
    requires |codes| == |permissionIds| && FreshIds([], permissionIds)
    requires |ids| == |defs| && Tidy(RoleTables([], []), ids)
    requires def in defs && forall d | d in defs && d.name == def.name :: d == def
    requires Declarable(def.permissions, InsertAll([], codes, permissionIds))
    ensures var catalog := InsertAll([], codes, permissionIds);
            SameGrants(HeldCodes(SeedRoles(RoleTables([], []), catalog, defs, ids), catalog, def.name), def.permissions, catalog)
            <==> NoOverreach(def.permissions, catalog)
  {
    var catalog := InsertAll([], codes, permissionIds);
    InsertAllExactly([], codes, permissionIds);
    var held := HeldCodes(SeedRoles(RoleTables([], []), catalog, defs, ids), catalog, def.name);
    forall code
      ensures code in held <==> code in Expanded(def.permissions, catalog)
    {
      SeededRolesHold(RoleTables([], []), catalog, defs, ids, def.name, code);
    }
    assert held == Expanded(def.permissions, catalog);
    ExpansionPreservesExactly(def.permissions, catalog);
  }

  // ---- seeding the roles twice ----

  ghost predicate Settled(t: RoleTables, catalog: seq<Permission>, def: RoleDef)
  {
    var i := FindSystemRole(t.roles, def.name);
    i < |t.roles| && forall p | p in Expansion(def.permissions, catalog) :: RolePermission(t.roles[i].id, p.id) in t.rolePermissions
  }

  lemma SeedRoleSettles(t: RoleTables, catalog: seq<Permission>, def: RoleDef, id: Id)
    ensures Settled(SeedRole(t, catalog, def, id), catalog, def)
  {
    SeedRoleIds(t, catalog, def, id, def.name);
  }

  lemma SettledPersists(t: RoleTables, catalog: seq<Permission>, def: RoleDef, id: Id, d: RoleDef)
    requires Settled(t, catalog, d)
    ensures Settled(SeedRole(t, catalog, def, id), catalog, d)
  {
    var t' := SeedRole(t, catalog, def, id);
    var i := FindSystemRole(t.roles, d.name);
    assert forall j | 0 <= j < |t.roles| :: t'.roles[j] == t.roles[j];
    assert FindSystemRole(t'.roles, d.name) == i;
  }

  lemma {:induction false} LinkSettled(rows: seq<RolePermission>, roleId: Id, perms: seq<Permission>)
    requires forall p | p in perms :: RolePermission(roleId, p.id) in rows
    ensures Link(rows, roleId, perms) == rows
    decreases |perms|
  {
    if perms != [] {
      LinkSettled(rows, roleId, perms[1..]);
    }
  }

  lemma {:induction false} SeedRolesSettles(t: RoleTables, catalog: seq<Permission>, defs: seq<RoleDef>, ids: seq<Id>, d: RoleDef)
    requires |ids| == |defs| && (d in defs || Settled(t, catalog, d))
    ensures Settled(SeedRoles(t, catalog, defs, ids), catalog, d)
    decreases |defs|
  {
    if defs != [] {
      if d == defs[0] {
        SeedRoleSettles(t, catalog, d, ids[0]);
      } else if d !in defs {
        SettledPersists(t, catalog, defs[0], ids[0], d);
      }
      SeedRolesSettles(SeedRole(t, catalog, defs[0], ids[0]), catalog, defs[1..], ids[1..], d);
    }
  }

  lemma {:induction false} SeedRolesIdentity(t: RoleTables, catalog: seq<Permission>, defs: seq<RoleDef>, ids: seq<Id>)
    requires |ids| == |defs| && forall d | d in defs :: Settled(t, catalog, d)
    ensures SeedRoles(t, catalog, defs, ids) == t
    decreases |defs|
  {
    if defs != [] {
      assert Settled(t, catalog, defs[0]);
      LinkSettled(t.rolePermissions, t.roles[FindSystemRole(t.roles, defs[0].name)].id, Expansion(defs[0].permissions, catalog));
      SeedRolesIdentity(t, catalog, defs[1..], ids[1..]);
    }
  }

  /** Running the role seed again, from any tables, adds no role and no role-permission row. */
  lemma SecondRoleSeedIsIdentity(t: RoleTables, catalog: seq<Permission>, defs: seq<RoleDef>, ids: seq<Id>, ids': seq<Id>)
    requires |ids| == |defs| == |ids'|
    ensures SeedRoles(SeedRoles(t, catalog, defs, ids), catalog, defs, ids') == SeedRoles(t, catalog, defs, ids)
  {
    forall d | d in defs
      ensures Settled(SeedRoles(t, catalog, defs, ids), catalog, d)
    {
      SeedRolesSettles(t, catalog, defs, ids, d);
    }
    SeedRolesIdentity(SeedRoles(t, catalog, defs, ids), catalog, defs, ids');
  }

  // ---- the seed scripts ----

  method ExtractPermissions(obj: seq<Value>) returns (perms: seq<string>)
    ensures perms == Codes(obj)
    decreases obj
  {
    perms := [];
    for i := 0 to |obj|
      invariant perms + Codes(obj[i..]) == Codes(obj)
    {
      assert obj[i..][1..] == obj[i + 1..];
      ghost var before := perms;
      match obj[i] {
        case Code(code) => perms := perms + [code];
        case Group(members) =>
          var inner := ExtractPermissions(members);
          perms := perms + inner;
        case Other =>
      }
      assert perms == before + CodesOf(obj[i]);
      Assoc(before, CodesOf(obj[i]), Codes(obj[i + 1..]));
    }
  }

  /** The three tables the seed scripts write. */
  class SeedTables {
    var permissions: seq<Permission>
    var roles: seq<RoleRow>
    var rolePermissions: seq<RolePermission>

    function Roles(): RoleTables reads this { RoleTables(roles, rolePermissions) }

    /** `ids` are the ids the database generates for inserted rows. */
    method SeedPermissions(constants: seq<Value>, ids: seq<Id>)
      requires |ids| == |Codes(constants)|
      modifies this`permissions
      ensures permissions == InsertAll(old(permissions), Codes(constants), ids)
    {
      var codes := ExtractPermissions(constants);
      for i := 0 to |codes|
        invariant InsertAll(permissions, codes[i..], ids[i..]) == InsertAll(old(permissions), codes, ids)
      {
        assert codes[i..][1..] == codes[i + 1..] && ids[i..][1..] == ids[i + 1..];
        var code := codes[i];
        var existing := IndexWhere(permissions, (p: Permission) => p.code == code);
        if existing == |permissions| {
          permissions := permissions + [Permission(ids[i], code)];
        }
      }
    }

    method PermissionsToAssign(def: RoleDef) returns (toAssign: seq<Permission>)
      ensures toAssign == Expansion(def.permissions, permissions)
    {
      toAssign := [];
      for i := 0 to |def.permissions|
        invariant toAssign + Expansion(def.permissions[i..], permissions) == Expansion(def.permissions, permissions)
      {
        assert def.permissions[i..][1..] == def.permissions[i + 1..];
        Assoc(toAssign, Matching(def.permissions[i], permissions), Expansion(def.permissions[i + 1..], permissions));
        ghost var before := toAssign;
        var p := def.permissions[i];
        if IsWildcard(p) {
          var prefix := WithoutFirstStar(p);
          toAssign := toAssign + Keep(permissions, (ap: Permission) => prefix <= ap.code);
        } else {
          var exact := IndexWhere(permissions, (ap: Permission) => ap.code == p);
          if exact < |permissions| {
            toAssign := toAssign + [permissions[exact]];
          }
        }
        assert toAssign == before + Matching(p, permissions);
      }
    }

    method AssignAll(roleId: Id, perms: seq<Permission>)
      modifies this`rolePermissions
      ensures rolePermissions == Link(old(rolePermissions), roleId, perms)
    {
      for i := 0 to |perms|
        invariant Link(rolePermissions, roleId, perms[i..]) == Link(old(rolePermissions), roleId, perms)
      {
        assert perms[i..][1..] == perms[i + 1..];
        if RolePermission(roleId, perms[i].id) !in rolePermissions {
          rolePermissions := rolePermissions + [RolePermission(roleId, perms[i].id)];
        }
      }
    }

    method SeedSystemRoles(defs: seq<RoleDef>, ids: seq<Id>)
      requires |ids| == |defs|
      modifies this`roles, this`rolePermissions
      ensures Roles() == SeedRoles(old(Roles()), permissions, defs, ids)
    {
      for i := 0 to |defs|
        invariant SeedRoles(Roles(), permissions, defs[i..], ids[i..]) == SeedRoles(old(Roles()), permissions, defs, ids)
      {
        assert defs[i..][1..] == defs[i + 1..] && ids[i..][1..] == ids[i + 1..];
        ghost var before := Roles();
        var existing := FindSystemRole(roles, defs[i].name);
        if existing == |roles| {
          roles := roles + [RoleRow(ids[i], Role(None, true, defs[i].name))];
        }
        var toAssign := PermissionsToAssign(defs[i]);
        AssignAll(roles[existing].id, toAssign);
        assert Roles() == SeedRole(before, permissions, defs[i], ids[i]);
      }
    }
  }
}
