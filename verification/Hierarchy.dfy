// The reporting chain: the recursive query over the users' managers, when it
// ends and what it lists, and which user edits keep it ending.

module Hierarchy {
  import opened Tables
  import opened Mutations

  datatype Person = Person(id: Id, tenant: Id, email: string, manager: Option<Id>)
  datatype Row = Row(id: Id, level: nat)

  ghost predicate UniqueIds(users: seq<Person>)
  {
    forall i, j | 0 <= i < j < |users| :: users[i].id != users[j].id
  }

  predicate Exists(users: seq<Person>, id: Id)
  {
    exists p | p in users :: p.id == id
  }

  /** The foreign key on `manager_id`; it does not look at the tenant. */
  ghost predicate ManagersExist(users: seq<Person>)
  {
    forall p | p in users && p.manager.Some? :: Exists(users, p.manager.value)
  }

  // ---- the query ----

  /** The join of one user row with the working table. */
  function JoinOne(p: Person, working: seq<Row>): seq<Row>
  {
    if working == [] then []
    else (if p.manager == Some(working[0].id) then [Row(p.id, working[0].level + 1)] else []) + JoinOne(p, working[1..])
  }

  function Join(users: seq<Person>, tenant: Id, working: seq<Row>): seq<Row>
  {
    if users == [] then []
    else (if users[0].tenant == tenant then JoinOne(users[0], working) else []) + Join(users[1..], tenant, working)
  }

  function Anchor(users: seq<Person>, tenant: Id, root: Id): seq<Row>
  {
    if users == [] then []
    else (if users[0].id == root && users[0].tenant == tenant then [Row(root, 1)] else []) + Anchor(users[1..], tenant, root)
  }

  /** The working table of round `k` of the recursive query. */
  function Working(users: seq<Person>, tenant: Id, root: Id, k: nat): seq<Row>
  {
    if k == 0 then Anchor(users, tenant, root) else Join(users, tenant, Working(users, tenant, root, k - 1))
  }

  /** UNION ALL of the first `n` rounds, in level order. */
  function Result(users: seq<Person>, tenant: Id, root: Id, n: nat): seq<Row>
  {
    if n == 0 then [] else Result(users, tenant, root, n - 1) + Working(users, tenant, root, n - 1)
  }

  /** The recursion stops at the first empty working table. */
  ghost predicate Ends(users: seq<Person>, tenant: Id, root: Id, n: nat)
  {
    Working(users, tenant, root, n) == []
  }

  // ---- chains of managers ----

  /** Following `k` managers from `id`, all of them in the tenant, leads to `boss`. */
  ghost predicate Reports(users: seq<Person>, tenant: Id, boss: Id, id: Id, k: nat)
    decreases k
  {
    exists p | p in users :: p.id == id && p.tenant == tenant &&
      if k == 0 then id == boss else p.manager.Some? && Reports(users, tenant, boss, p.manager.value, k - 1)
  }

  ghost predicate OwnBoss(users: seq<Person>, tenant: Id, id: Id)
  {
    exists k: nat :: k > 0 && Reports(users, tenant, id, id, k)
  }

  ghost predicate Acyclic(users: seq<Person>)
  {
    forall tenant, id :: !OwnBoss(users, tenant, id)
  }

  lemma {:induction false} Compose(users: seq<Person>, tenant: Id, a: Id, b: Id, c: Id, j: nat, k: nat)
    requires Reports(users, tenant, a, b, j) && Reports(users, tenant, b, c, k)
    ensures Reports(users, tenant, a, c, j + k)
    decreases k
  {
    if k > 0 {
      var p :| p in users && p.id == c && p.tenant == tenant && p.manager.Some? && Reports(users, tenant, b, p.manager.value, k - 1);
      Compose(users, tenant, a, b, p.manager.value, j, k - 1);
    }
  }

  /** A person has one manager, so the longer of two chains runs through the end of the shorter. */
  lemma {:induction false} Beyond(users: seq<Person>, tenant: Id, a: Id, b: Id, c: Id, j: nat, k: nat)
    requires UniqueIds(users)
    requires Reports(users, tenant, b, c, k) && Reports(users, tenant, a, c, j + k)
    ensures Reports(users, tenant, a, b, j)
    decreases k
  {
    if k > 0 {
      var p :| p in users && p.id == c && p.tenant == tenant && p.manager.Some? && Reports(users, tenant, b, p.manager.value, k - 1);
      var q :| q in users && q.id == c && q.tenant == tenant && q.manager.Some? && Reports(users, tenant, a, q.manager.value, j + k - 1);
      assert p == q;
      Beyond(users, tenant, a, b, p.manager.value, j, k - 1);
    }
  }

  // ---- one round of the query ----

  ghost predicate Distinct(rows: seq<Row>)
  {
    forall i, j | 0 <= i < j < |rows| :: rows[i].id != rows[j].id
  }

  lemma {:induction false} JoinOneExactly(p: Person, working: seq<Row>, level: nat)
    requires Distinct(working) && forall r | r in working :: r.level == level
    ensures JoinOne(p, working) ==
            if p.manager.Some? && Row(p.manager.value, level) in working then [Row(p.id, level + 1)] else []
  {
    if working != [] {
      JoinOneExactly(p, working[1..], level);
      assert forall r | r in working[1..] :: r.id != working[0].id;
    }
  }

  /** The rows one user contributes to a round: at most one. */
  lemma ContributionExactly(p: Person, tenant: Id, working: seq<Row>, level: nat)
    requires Distinct(working) && forall r | r in working :: r.level == level
    ensures (if p.tenant == tenant then JoinOne(p, working) else []) ==
            if p.tenant == tenant && p.manager.Some? && Row(p.manager.value, level) in working then [Row(p.id, level + 1)] else []
  {
    JoinOneExactly(p, working, level);
  }

  lemma {:induction false} JoinRows(users: seq<Person>, tenant: Id, working: seq<Row>, level: nat)
    requires Distinct(working) && forall r | r in working :: r.level == level
    ensures forall r :: r in Join(users, tenant, working) <==>
              r.level == level + 1 && exists p | p in users ::
                p.id == r.id && p.tenant == tenant && p.manager.Some? && Row(p.manager.value, level) in working
  {
    if users != [] {
      JoinRows(users[1..], tenant, working, level);
      ContributionExactly(users[0], tenant, working, level);
      assert forall p :: p in users <==> p == users[0] || p in users[1..];
    }
  }

  lemma {:induction false} JoinDistinct(users: seq<Person>, tenant: Id, working: seq<Row>, level: nat)
    requires UniqueIds(users) && Distinct(working) && forall r | r in working :: r.level == level
    ensures Distinct(Join(users, tenant, working))
  {
    if users != [] {
      JoinDistinct(users[1..], tenant, working, level);
      JoinRows(users[1..], tenant, working, level);
      ContributionExactly(users[0], tenant, working, level);
      var tail := Join(users[1..], tenant, working);
      assert forall p | p in users[1..] :: p.id != users[0].id;
      assert forall i | 0 <= i < |tail| :: tail[i] in tail;
    }
  }

  lemma JoinExactly(users: seq<Person>, tenant: Id, working: seq<Row>, level: nat)
    requires UniqueIds(users) && Distinct(working) && forall r | r in working :: r.level == level
    ensures Distinct(Join(users, tenant, working))
    ensures forall r :: r in Join(users, tenant, working) <==>
              r.level == level + 1 && exists p | p in users ::
                p.id == r.id && p.tenant == tenant && p.manager.Some? && Row(p.manager.value, level) in working
  {
    JoinDistinct(users, tenant, working, level);
    JoinRows(users, tenant, working, level);
  }

  lemma {:induction false} AnchorExactly(users: seq<Person>, tenant: Id, root: Id)
    requires UniqueIds(users)
    ensures Distinct(Anchor(users, tenant, root))
    ensures forall r :: r in Anchor(users, tenant, root) <==>
              r == Row(root, 1) && exists p | p in users :: p.id == root && p.tenant == tenant
  {
    if users != [] {
      AnchorExactly(users[1..], tenant, root);
      assert forall p :: p in users <==> p == users[0] || p in users[1..];
      assert forall p | p in users[1..] :: p.id != users[0].id;
      var tail := Anchor(users[1..], tenant, root);
      assert forall i | 0 <= i < |tail| :: tail[i] in tail;
    }
  }

  /** Round `k` lists each user whose chain of length `k` leads to the root, once, at level `k + 1`. */
  lemma {:induction false} WorkingExactly(users: seq<Person>, tenant: Id, root: Id, k: nat)
    requires UniqueIds(users)
    ensures Distinct(Working(users, tenant, root, k))
    ensures forall r :: r in Working(users, tenant, root, k) <==>
              r.level == k + 1 && Reports(users, tenant, root, r.id, k)
  {
    if k == 0 {
      AnchorExactly(users, tenant, root);
    } else {
      WorkingExactly(users, tenant, root, k - 1);
      JoinExactly(users, tenant, Working(users, tenant, root, k - 1), k);
    }
  }

  lemma {:induction false} StaysEmpty(users: seq<Person>, tenant: Id, root: Id, n: nat, k: nat)
    requires Ends(users, tenant, root, n) && n <= k
    ensures Ends(users, tenant, root, k)
  {
    if n < k {
      StaysEmpty(users, tenant, root, n, k - 1);
      JoinEmpty(users, tenant);
    }
  }

  lemma {:induction false} JoinEmpty(users: seq<Person>, tenant: Id)
    ensures Join(users, tenant, []) == []
  {
    if users != [] {
      JoinEmpty(users[1..], tenant);
    }
  }

  // ---- when the recursion ends ----

  /** A boss of one's own gives chains of unbounded length. */
  lemma {:induction false} Laps(users: seq<Person>, tenant: Id, root: Id, p: nat, n: nat) returns (k: nat)
    requires p > 0 && Reports(users, tenant, root, root, p)
    ensures k >= n && Reports(users, tenant, root, root, k)
  {
    if n == 0 {
      k := p;
    } else {
      var k0 := Laps(users, tenant, root, p, n - 1);
      Compose(users, tenant, root, root, root, k0, p);
      k := k0 + p;
    }
  }

  function Ids(rows: seq<Row>): set<Id> { set r | r in rows :: r.id }

  lemma {:induction false} ResultRows(users: seq<Person>, tenant: Id, root: Id, n: nat)
    requires UniqueIds(users)
    ensures forall r :: r in Result(users, tenant, root, n) <==>
              1 <= r.level <= n && Reports(users, tenant, root, r.id, r.level - 1)
    ensures forall i, j | 0 <= i < j < |Result(users, tenant, root, n)| ::
              Result(users, tenant, root, n)[i].level <= Result(users, tenant, root, n)[j].level
  {
    if n > 0 {
      ResultRows(users, tenant, root, n - 1);
      WorkingExactly(users, tenant, root, n - 1);
      var earlier, last := Result(users, tenant, root, n - 1), Working(users, tenant, root, n - 1);
      assert forall i | 0 <= i < |earlier| :: earlier[i] in earlier;
      assert forall i | 0 <= i < |last| :: last[i] in last;
    }
  }

  lemma {:induction false} ResultDistinct(users: seq<Person>, tenant: Id, root: Id, n: nat)
    requires UniqueIds(users) && !OwnBoss(users, tenant, root)
    ensures Distinct(Result(users, tenant, root, n))
  {
    if n > 0 {
      ResultDistinct(users, tenant, root, n - 1);
      ResultRows(users, tenant, root, n - 1);
      WorkingExactly(users, tenant, root, n - 1);
      var earlier, last := Result(users, tenant, root, n - 1), Working(users, tenant, root, n - 1);
      forall i, j | 0 <= i < |earlier| && 0 <= j < |last|
        ensures earlier[i].id != last[j].id
      {
        assert earlier[i] in earlier && last[j] in last;
        if earlier[i].id == last[j].id {
          Beyond(users, tenant, root, root, last[j].id, n - earlier[i].level, earlier[i].level - 1);
          assert false;
        }
      }
    }
  }

  lemma {:induction false} DistinctCount(rows: seq<Row>)
    requires Distinct(rows)
    ensures |Ids(rows)| == |rows|
  {
    if rows != [] {
      DistinctCount(rows[1..]);
      assert Ids(rows) == Ids(rows[1..]) + {rows[0].id};
    }
  }

  function UserIds(users: seq<Person>): set<Id> { set p | p in users :: p.id }

  lemma {:induction false} UserIdsCount(users: seq<Person>)
    ensures |UserIds(users)| <= |users|
  {
    if users != [] {
      UserIdsCount(users[1..]);
      assert UserIds(users) == UserIds(users[1..]) + {users[0].id};
    }
  }

  lemma {:induction false} ResultGrows(users: seq<Person>, tenant: Id, root: Id, n: nat)
    ensures Ends(users, tenant, root, n) || |Result(users, tenant, root, n + 1)| >= n + 1
  {
    if n > 0 {
      ResultGrows(users, tenant, root, n - 1);
      if Ends(users, tenant, root, n - 1) {
        StaysEmpty(users, tenant, root, n - 1, n);
      }
    }
  }

  lemma SubsetCount(a: set<Id>, b: set<Id>)
    requires a <= b
    ensures |a| <= |b|
  {
    assert b == a + (b - a);
  }

  /** Without a cycle through the root, no more rounds than there are users. */
  lemma EndsInTime(users: seq<Person>, tenant: Id, root: Id)
    requires UniqueIds(users) && !OwnBoss(users, tenant, root)
    ensures Ends(users, tenant, root, |users|)
  {
    var n := |users|;
    var rows := Result(users, tenant, root, n + 1);
    ResultDistinct(users, tenant, root, n + 1);
    DistinctCount(rows);
    ResultRows(users, tenant, root, n + 1);
    assert Ids(rows) <= UserIds(users);
    SubsetCount(Ids(rows), UserIds(users));
    UserIdsCount(users);
    ResultGrows(users, tenant, root, n);
  }

  /** The recursive query ends exactly when the root is not among its own managers within the tenant. */
  lemma EndsExactlyWithoutCycle(users: seq<Person>, tenant: Id, root: Id)
    requires UniqueIds(users)
    ensures (exists n :: Ends(users, tenant, root, n)) <==> !OwnBoss(users, tenant, root)
  {
    if OwnBoss(users, tenant, root) {
      forall n | Ends(users, tenant, root, n)
        ensures false
      {
        var p: nat :| p > 0 && Reports(users, tenant, root, root, p);
        var k := Laps(users, tenant, root, p, n);
        WorkingExactly(users, tenant, root, k);
        assert Row(root, k + 1) in Working(users, tenant, root, k);
        StaysEmpty(users, tenant, root, n, k);
      }
    } else {
      EndsInTime(users, tenant, root);
    }
  }

  /**
   * When it ends, it lists the root and every transitive subordinate of the tenant
   * exactly once, at the length of the chain plus one, in level order.
   */
  lemma ListsEachOnce(users: seq<Person>, tenant: Id, root: Id, n: nat)
    requires UniqueIds(users) && Ends(users, tenant, root, n)
    ensures var rows := Result(users, tenant, root, n);
            && (forall id, k: nat :: Row(id, k + 1) in rows <==> Reports(users, tenant, root, id, k))
            && (forall r | r in rows :: r.level > 0)
            && Distinct(rows)
            && (forall i, j | 0 <= i < j < |rows| :: rows[i].level <= rows[j].level)
  {
    EndsExactlyWithoutCycle(users, tenant, root);
    ResultRows(users, tenant, root, n);
    ResultDistinct(users, tenant, root, n);
    forall id, k: nat | Reports(users, tenant, root, id, k)
      ensures k < n
    {
      WorkingExactly(users, tenant, root, k);
      assert Row(id, k + 1) in Working(users, tenant, root, k);
      if k >= n {
        StaysEmpty(users, tenant, root, n, k);
      }
    }
  }

  lemma JoinCons(p: Person, rest: seq<Person>, tenant: Id, r: Row)
    ensures Join([p] + rest, tenant, [r]) ==
            (if p.tenant == tenant && p.manager == Some(r.id) then [Row(p.id, r.level + 1)] else []) + Join(rest, tenant, [r])
  {
    assert ([p] + rest)[1..] == rest && [r][1..] == [];
    assert JoinOne(p, [r]) == if p.manager == Some(r.id) then [Row(p.id, r.level + 1)] else [];
  }

  lemma AnchorCons(p: Person, rest: seq<Person>, tenant: Id, root: Id)
    ensures Anchor([p] + rest, tenant, root) ==
            (if p.id == root && p.tenant == tenant then [Row(root, 1)] else []) + Anchor(rest, tenant, root)
  {
    assert ([p] + rest)[1..] == rest;
  }

  /** b and c report to a, d to c; c is of another tenant. */
  function MixedChart(e: string): seq<Person>
  {
    [Person("a", "t", e, None)]
    + ([Person("b", "t", e, Some("a"))] + ([Person("c", "o", e, Some("a"))] + ([Person("d", "t", e, Some("c"))] + [])))
  }

  /** Somebody of another tenant is not listed, nor is whoever reports to them, of whatever tenant. */
  lemma OtherTenantsCutTheChain(e: string)
    ensures Result(MixedChart(e), "t", "a", 2) == [Row("a", 1), Row("b", 2)] && Ends(MixedChart(e), "t", "a", 2)
  {
    var a, b, c, d := Person("a", "t", e, None), Person("b", "t", e, Some("a")), Person("c", "o", e, Some("a")), Person("d", "t", e, Some("c"));
    var users3: seq<Person> := [d] + [];
    var users2 := [c] + users3;
    var users1 := [b] + users2;
    var users := MixedChart(e);
    assert users == [a] + users1;
    AnchorCons(a, users1, "t", "a");
    AnchorCons(b, users2, "t", "a");
    AnchorCons(c, users3, "t", "a");
    AnchorCons(d, [], "t", "a");
    assert Working(users, "t", "a", 0) == [Row("a", 1)];
    var r1, r2 := Row("a", 1), Row("b", 2);
    JoinCons(a, users1, "t", r1);
    JoinCons(b, users2, "t", r1);
    JoinCons(c, users3, "t", r1);
    JoinCons(d, [], "t", r1);
    assert Working(users, "t", "a", 1) == [r2];
    JoinCons(a, users1, "t", r2);
    JoinCons(b, users2, "t", r2);
    JoinCons(c, users3, "t", r2);
    JoinCons(d, [], "t", r2);
    assert Working(users, "t", "a", 2) == [];
    assert Result(users, "t", "a", 1) == [r1];
  }

  // ---- user edits ----

  /** A new row whose generated id nobody refers to yet keeps every chain and adds no cycle. */
  lemma CreationKeepsAcyclic(users: seq<Person>, person: Person)
    requires ManagersExist(users) && Acyclic(users)
    requires !Exists(users, person.id) && person.manager != Some(person.id)
    ensures Acyclic(users + [person])
  {
    var users' := users + [person];
    forall tenant, id, k: nat | k > 0 && Reports(users', tenant, id, id, k)
      ensures false
    {
      if id != person.id {
        OldChain(users, person, tenant, id, id, k);
        assert OwnBoss(users, tenant, id);
      } else {
        var p :| p in users' && p.id == id && p.tenant == tenant && p.manager.Some? && Reports(users', tenant, id, p.manager.value, k - 1);
        assert p == person;
        OldChain(users, person, tenant, id, p.manager.value, k - 1);
      }
    }
  }

  lemma {:induction false} OldChain(users: seq<Person>, person: Person, tenant: Id, boss: Id, id: Id, k: nat)
    requires ManagersExist(users) && !Exists(users, person.id)
    requires id != person.id && Reports(users + [person], tenant, boss, id, k)
    ensures boss != person.id && Reports(users, tenant, boss, id, k)
    decreases k
  {
    var p :| p in users + [person] && p.id == id && p.tenant == tenant &&
      if k == 0 then id == boss else p.manager.Some? && Reports(users + [person], tenant, boss, p.manager.value, k - 1);
    assert p in users;
    if k > 0 {
      assert Exists(users, p.manager.value);
      OldChain(users, person, tenant, boss, p.manager.value, k - 1);
    }
  }

  /** Person `i` edited, in any column but the id and the tenant. */
  predicate IsEdit(users: seq<Person>, i: nat, edited: Person)
  {
    i < |users| && edited.id == users[i].id && edited.tenant == users[i].tenant
  }

  /** Away from person `i` the managers are the same. */
  lemma SameElsewhere(users: seq<Person>, i: nat, edited: Person)
    requires IsEdit(users, i, edited) && UniqueIds(users)
    ensures UniqueIds(users[i := edited])
    ensures forall p: Person | p.id != users[i].id :: p in users <==> p in users[i := edited]
    ensures forall p: Person | p.id == users[i].id :: p in users <==> p == users[i]
    ensures forall p: Person | p.id == users[i].id :: p in users[i := edited] <==> p == edited
  {
    var users' := users[i := edited];
    assert users'[i] == edited;
    assert forall k | 0 <= k < |users| && k != i :: users'[k] == users[k];
  }

  /** A changed chain either was there before, or starts with an old chain to the edited person. */
  lemma {:induction false} FirstVisit(
      users: seq<Person>, i: nat, edited: Person, tenant: Id, boss: Id, id: Id, k: nat)
    returns (j: nat)
    requires IsEdit(users, i, edited) && UniqueIds(users) && Reports(users[i := edited], tenant, boss, id, k)
    ensures j <= k
    ensures j == k ==> Reports(users, tenant, boss, id, k)
    ensures j < k ==> Reports(users, tenant, users[i].id, id, j) && Reports(users[i := edited], tenant, users[i].id, id, j)
    decreases k
  {
    SameElsewhere(users, i, edited);
    var users' := users[i := edited];
    var p :| p in users' && p.id == id && p.tenant == tenant &&
      if k == 0 then id == boss else p.manager.Some? && Reports(users', tenant, boss, p.manager.value, k - 1);
    if k == 0 || id == users[i].id {
      j := 0;
      assert users[i] in users;
      if id == users[i].id {
        assert Reports(users, tenant, id, id, 0);
      } else {
        assert p in users;
      }
    } else {
      var j0 := FirstVisit(users, i, edited, tenant, boss, p.manager.value, k - 1);
      j := j0 + 1;
      assert p in users;
    }
  }

  /** An old chain to the edited person survives the edit. */
  lemma {:induction false} ChainSurvives(users: seq<Person>, i: nat, edited: Person, tenant: Id, id: Id, k: nat)
    requires IsEdit(users, i, edited) && UniqueIds(users) && Acyclic(users) && Reports(users, tenant, users[i].id, id, k)
    ensures Reports(users[i := edited], tenant, users[i].id, id, k)
    decreases k
  {
    SameElsewhere(users, i, edited);
    var p :| p in users && p.id == id && p.tenant == tenant &&
      if k == 0 then id == users[i].id else p.manager.Some? && Reports(users, tenant, users[i].id, p.manager.value, k - 1);
    if k == 0 {
      assert edited in users[i := edited];
    } else {
      assert id != users[i].id by {
        assert !OwnBoss(users, tenant, users[i].id);
      }
      ChainSurvives(users, i, edited, tenant, p.manager.value, k - 1);
      assert p in users[i := edited];
    }
  }

  /** The new manager is the person or reports to the person. */
  ghost predicate Subordinate(users: seq<Person>, boss: Person, id: Id)
  {
    exists k: nat :: Reports(users, boss.tenant, boss.id, id, k)
  }

  /** Changing a manager keeps the chart acyclic exactly when the new manager is not the person or a subordinate. */
  lemma ManagerEditExactly(users: seq<Person>, i: nat, edited: Person)
    requires IsEdit(users, i, edited) && UniqueIds(users) && Acyclic(users)
    ensures Acyclic(users[i := edited]) <==> (edited.manager.Some? ==> !Subordinate(users, users[i], edited.manager.value))
  {
    var users', x := users[i := edited], users[i].id;
    SameElsewhere(users, i, edited);
    if edited.manager.Some? && Subordinate(users, users[i], edited.manager.value) {
      var k: nat :| Reports(users, users[i].tenant, x, edited.manager.value, k);
      ChainSurvives(users, i, edited, users[i].tenant, edited.manager.value, k);
      assert edited in users';
      assert Reports(users', users[i].tenant, x, x, k + 1);
      assert OwnBoss(users', users[i].tenant, x);
    }
    forall tenant, id, k: nat | k > 0 && Reports(users', tenant, id, id, k)
      ensures edited.manager.Some? && Subordinate(users, users[i], edited.manager.value)
    {
      NewCycle(users, i, edited, tenant, id, k);
    }
  }

  lemma NewCycle(users: seq<Person>, i: nat, edited: Person, tenant: Id, id: Id, k: nat)
    requires IsEdit(users, i, edited) && UniqueIds(users) && Acyclic(users)
    requires k > 0 && Reports(users[i := edited], tenant, id, id, k)
    ensures edited.manager.Some? && Subordinate(users, users[i], edited.manager.value)
  {
    var users', x := users[i := edited], users[i].id;
    SameElsewhere(users, i, edited);
    var j := FirstVisit(users, i, edited, tenant, id, id, k);
    assert !OwnBoss(users, tenant, id);
    Beyond(users', tenant, id, x, id, k - j, j);
    var p :| p in users' && p.id == x && p.tenant == tenant && p.manager.Some? && Reports(users', tenant, id, p.manager.value, k - j - 1);
    Compose(users', tenant, x, id, p.manager.value, j, k - j - 1);
    var j' := FirstVisit(users, i, edited, tenant, x, p.manager.value, k - 1);
    assert Reports(users, users[i].tenant, x, edited.manager.value, j');
  }

  // ---- the service ----

  /** The columns an update names; `manager` may be set to null. */
  datatype UserPatch = UserPatch(email: Option<string>, manager: Option<Option<Id>>)

  predicate ManagerOk(users: seq<Person>, self: Id, manager: Option<Id>)
  {
    manager.None? || manager.value == self || Exists(users, manager.value)
  }

  predicate EmailTaken(users: seq<Person>, tenant: Id, email: string, except: Option<Id>)
  {
    exists p | p in users :: p.tenant == tenant && p.email == email && Some(p.id) != except
  }

  function Find(users: seq<Person>, id: Id): (i: nat)
    ensures i <= |users| && (i < |users| <==> Exists(users, id))
    ensures i < |users| ==> users[i].id == id
  {
    var i := IndexWhere(users, (p: Person) => p.id == id);
    assert i < |users| ==> users[i] in users;
    i
  }

  function Patched(p: Person, patch: UserPatch): Person
  {
    p.(email := if patch.email.Some? then patch.email.value else p.email,
       manager := if patch.manager.Some? then patch.manager.value else p.manager)
  }

  /** The answer to an update, and the rows after it. */
  function Updated(users: seq<Person>, id: Id, tenant: Id, patch: UserPatch): (Option<Refusal>, seq<Person>)
  {
    var i := Find(users, id);
    if i == |users| then (Some(NotFound), users)
    else if users[i].tenant != tenant then (Some(BadRequest), users)
    else
      var p := Patched(users[i], patch);
      if EmailTaken(users, tenant, p.email, Some(id)) || !ManagerOk(users, id, p.manager) then (Some(Fault), users)
      else (None, users[i := p])
  }

  /** Only the user's own row changes, only in the columns named, and only within the tenant and its keys. */
  lemma UpdatedExactly(users: seq<Person>, i: nat, tenant: Id, patch: UserPatch)
    requires UniqueIds(users) && i < |users|
    ensures var Person(id, home, oldEmail, oldManager) := users[i];
            var (refusal, users') := Updated(users, id, tenant, patch);
            var email := if patch.email.Some? then patch.email.value else oldEmail;
            var manager := if patch.manager.Some? then patch.manager.value else oldManager;
            var taken := exists p | p in users :: p.tenant == tenant && p.email == email && p.id != id;
            var nobody := manager.Some? && manager.value != id && forall p | p in users :: p.id != manager.value;
            && refusal == (if home != tenant then Some(BadRequest) else if taken || nobody then Some(Fault) else None)
            && users' == if refusal.None? then users[i := Person(id, tenant, email, manager)] else users
  {
    assert users[i] in users;
    assert Find(users, users[i].id) == i;
  }

  /** An unknown id is not found. */
  lemma UnknownIsNotUpdated(users: seq<Person>, id: Id, tenant: Id, patch: UserPatch)
    requires forall p | p in users :: p.id != id
    ensures Updated(users, id, tenant, patch) == (Some(NotFound), users)
  {
  }

  class UserDirectory {
    var users: seq<Person>

    ghost predicate Valid()
      reads this
    {
      UniqueIds(users) && ManagersExist(users)
    }

    /** `newId` is the generated id. */
    method CreateUser(newId: Id, tenant: Id, email: string, manager: Option<Id>) returns (refusal: Option<Refusal>)
      requires Valid()
      modifies this
      ensures Valid()
      ensures var taken := exists p | p in old(users) :: p.tenant == tenant && p.email == email;
              var idTaken := exists p | p in old(users) :: p.id == newId;
              var nobody := manager.Some? && manager.value != newId && forall p | p in old(users) :: p.id != manager.value;
              refusal == if taken then Some(BadRequest) else if idTaken || nobody then Some(Fault) else None
      ensures users == if refusal.None? then old(users) + [Person(newId, tenant, email, manager)] else old(users)
      ensures old(Acyclic(users)) && manager != Some(newId) ==> Acyclic(users)
    {
      if exists p | p in users :: p.tenant == tenant && p.email == email { return Some(BadRequest); }
      if Exists(users, newId) || !ManagerOk(users, newId, manager) { return Some(Fault); }
      ghost var before := users;
      users := users + [Person(newId, tenant, email, manager)];
      assert users[|before|].id == newId;
      assert forall p | p in before :: p in users;
      if Acyclic(before) && manager != Some(newId) {
        CreationKeepsAcyclic(before, Person(newId, tenant, email, manager));
      }
      return None;
    }

    method UpdateUser(id: Id, tenant: Id, patch: UserPatch) returns (refusal: Option<Refusal>)
      requires Valid()
      modifies this
      ensures Valid()
      ensures (refusal, users) == Updated(old(users), id, tenant, patch)
      ensures old(Acyclic(users)) && refusal.None? ==>
                var i := Find(old(users), id);
                var manager := Patched(old(users)[i], patch).manager;
                Acyclic(users) <==> (manager.Some? ==> !Subordinate(old(users), old(users)[i], manager.value))
    {
      var i := Find(users, id);
      if i == |users| { return Some(NotFound); }
      if users[i].tenant != tenant { return Some(BadRequest); }
      var p := Patched(users[i], patch);
      if EmailTaken(users, tenant, p.email, Some(id)) || !ManagerOk(users, id, p.manager) { return Some(Fault); }
      ghost var before := users;
      users := users[i := p];
      assert forall k | 0 <= k < |users| :: users[k].id == before[k].id && users[k] in users;
      assert forall m :: Exists(before, m) ==> Exists(users, m);
      if Acyclic(before) {
        ManagerEditExactly(before, i, p);
      }
      return None;
    }
  }
}
