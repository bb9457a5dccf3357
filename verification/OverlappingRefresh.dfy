// Refreshing with every await of its own: the comparison, the user's row, the
// deletion and the insertion are separate steps, and refreshes, logins and logouts
// interleave. Exactly when a stored token can be redeemed more than once.

module OverlappingRefresh {
  import opened Tables
  import opened RefreshTokens

  /**
   * Where a refresh is. It has found its row (`Matched`, or `Stale` if the row had run
   * out), it has found the user active (`Approved`), it has deleted the row (`Taken`).
   */
  datatype Stage = Matched | Stale | Approved | Taken
  datatype Attempt = Attempt(row: nat, user: Id, stage: Stage, compared: nat, deleted: nat)

  /** A finished refresh: which row it redeemed, and when it compared and deleted. */
  datatype Redemption = Redemption(row: nat, compared: nat, deleted: nat)

  datatype World = World(
    table: Auth,
    now: Time,
    ttl: Time,
    steps: nat,                 // steps so far
    attempts: map<nat, Attempt>,
    nextAttempt: nat,
    redemptions: map<nat, Redemption>) // by the number of their attempt

  datatype Move =
    | SignIn(user: Id, secret: string)
    | Compare(raw: string)
    | Proceed(attempt: nat, secret: string)
    | SignOut(user: Id)
    | Activate(user: Id, isActive: bool)
    | Edit(user: Id, isActive: bool)
    | Wait(dt: nat)

  function NewWorld(active: map<Id, bool>, now: Time, ttl: Time): World
  {
    World(Auth([], active, 0), now, ttl, 0, map[], 0, map[])
  }

  /** The row the comparison finds. */
  function Found(w: World, raw: string): Option<Token>
  {
    match Parse(raw)
    case None => None
    case Some((user, plain)) =>
      var i := Matching(w.table.tokens, user, plain);
      if i < |w.table.tokens| then Some(w.table.tokens[i]) else None
  }

  /** A refresh holds the row: it has compared, and has yet to delete. */
  predicate HoldsRow(a: Attempt, row: nat)
  {
    a.row == row && (a.stage.Matched? || a.stage.Approved?)
  }

  /** If refreshes exclude each other, none compares with a row another one holds. */
  ghost predicate Can(exclusive: bool, w: World, m: Move)
  {
    match m
    case Compare(raw) =>
      exclusive && Found(w, raw).Some? ==> forall a | a in w.attempts :: !HoldsRow(w.attempts[a], Found(w, raw).value.id)
    case Proceed(a, _) => a in w.attempts
    case _ => true
  }

  function Compared(w: World, raw: string): World
  {
    match Found(w, raw)
    case None => w
    case Some(t) =>
      var a := Attempt(t.id, t.user, if t.expires < w.now then Stale else Matched, w.steps, 0);
      w.(attempts := w.attempts[w.nextAttempt := a], nextAttempt := w.nextAttempt + 1)
  }

  /** `delete(id)`: no error when the row is gone. */
  function WithoutRow(table: Auth, row: nat): Auth
  {
    table.(tokens := Keep(table.tokens, (t: Token) => t.id != row))
  }

  function Proceeded(w: World, n: nat, secret: string): World
    requires n in w.attempts
  {
    var a := w.attempts[n];
    match a.stage
    case Stale => w.(table := WithoutRow(w.table, a.row), attempts := w.attempts - {n})
    case Matched =>
      if a.user in w.table.active && w.table.active[a.user] then w.(attempts := w.attempts[n := a.(stage := Approved)])
      else w.(attempts := w.attempts - {n})
    case Approved =>
      w.(table := WithoutRow(w.table, a.row), attempts := w.attempts[n := a.(stage := Taken, deleted := w.steps)])
    case Taken =>
      w.(table := Generate(w.table, a.user, secret, w.now + w.ttl), attempts := w.attempts - {n},
         redemptions := w.redemptions[n := Redemption(a.row, a.compared, a.deleted)])
  }

  function Moved(w: World, m: Move): World
    requires m.Proceed? ==> m.attempt in w.attempts
  {
    match m
    case SignIn(user, secret) => w.(table := Generate(w.table, user, secret, w.now + w.ttl))
    case Compare(raw) => Compared(w, raw)
    case Proceed(a, secret) => Proceeded(w, a, secret)
    case SignOut(user) => w.(table := Revoke(w.table, user))
    case Activate(user, isActive) => w.(table := SetActivation(w.table, user, isActive))
    case Edit(user, isActive) =>
      if user in w.table.active then w.(table := w.table.(active := w.table.active[user := isActive])) else w
    case Wait(dt) => w.(now := w.now + dt)
  }

  function After(w: World, m: Move): World
    requires m.Proceed? ==> m.attempt in w.attempts
  {
    Moved(w, m).(steps := w.steps + 1)
  }

  ghost predicate CanGo(exclusive: bool, w: World, moves: seq<Move>)
    decreases |moves|
  {
    moves == [] || (Can(exclusive, w, moves[0]) && CanGo(exclusive, After(w, moves[0]), moves[1..]))
  }

  ghost function Went(exclusive: bool, w: World, moves: seq<Move>): World
    requires CanGo(exclusive, w, moves)
    decreases |moves|
  {
    if moves == [] then w else Went(exclusive, After(w, moves[0]), moves[1..])
  }

  ghost predicate Possible(exclusive: bool, w: World)
  {
    exists active, now, ttl, moves ::
      CanGo(exclusive, NewWorld(active, now, ttl), moves) && Went(exclusive, NewWorld(active, now, ttl), moves) == w
  }

  // ---- what every run keeps ----

  ghost predicate RowGone(w: World, row: nat)
  {
    forall t | t in w.table.tokens :: t.id != row
  }

  /** Numbers in use are below the next ones, and times are in the past. */
  ghost predicate Bounded(w: World)
  {
    && (forall t | t in w.table.tokens :: t.id < w.table.nextId)
    && (forall a | a in w.attempts :: a < w.nextAttempt && w.attempts[a].row < w.table.nextId && w.attempts[a].compared < w.steps)
    && (forall a | a in w.redemptions :: a < w.nextAttempt && a !in w.attempts)
    && (forall a | a in w.redemptions :: w.redemptions[a].row < w.table.nextId && w.redemptions[a].compared < w.steps)
  }

  /** A deleted row never comes back, so whoever compared with it did so before any deletion of it. */
  ghost predicate Ordered(w: World)
  {
    && (forall a | a in w.attempts && w.attempts[a].stage.Taken? ::
          && RowGone(w, w.attempts[a].row)
          && (forall b | b in w.attempts && w.attempts[b].row == w.attempts[a].row :: w.attempts[b].compared < w.attempts[a].deleted)
          && (forall b | b in w.redemptions && w.redemptions[b].row == w.attempts[a].row :: w.redemptions[b].compared < w.attempts[a].deleted))
    && (forall a | a in w.redemptions ::
          && RowGone(w, w.redemptions[a].row)
          && (forall b | b in w.attempts && w.attempts[b].row == w.redemptions[a].row :: w.attempts[b].compared < w.redemptions[a].deleted)
          && (forall b | b in w.redemptions && w.redemptions[b].row == w.redemptions[a].row :: w.redemptions[b].compared < w.redemptions[a].deleted))
  }

  /** With exclusion, one row has one refresh at a time, and none after one that redeemed it. */
  ghost predicate Alone(w: World)
  {
    && (forall a, b | a in w.attempts && b in w.attempts && Redeeming(w.attempts[a]) && Redeeming(w.attempts[b])
          && w.attempts[a].row == w.attempts[b].row :: a == b)
    && (forall a, b | a in w.attempts && b in w.redemptions && Redeeming(w.attempts[a]) :: w.attempts[a].row != w.redemptions[b].row)
    && (forall a, b | a in w.redemptions && b in w.redemptions && w.redemptions[a].row == w.redemptions[b].row :: a == b)
  }

  predicate Redeeming(a: Attempt)
  {
    !a.stage.Stale?
  }

  ghost predicate Inv(exclusive: bool, w: World)
  {
    Bounded(w) && Ordered(w) && (exclusive ==> Alone(w))
  }

  /** No refresh begins, deletes or ends; rows go, or one comes with a new number. */
  ghost predicate Quiet(w: World, w': World)
  {
    && w'.redemptions == w.redemptions && w'.nextAttempt == w.nextAttempt
    && w.steps <= w'.steps && w.table.nextId <= w'.table.nextId
    && (forall t | t in w'.table.tokens :: t in w.table.tokens || (t.id == w.table.nextId && w.table.nextId < w'.table.nextId))
    && (forall a | a in w'.attempts ::
          && a in w.attempts && w'.attempts[a].row == w.attempts[a].row
          && w'.attempts[a].compared == w.attempts[a].compared && w'.attempts[a].deleted == w.attempts[a].deleted
          && (w'.attempts[a].stage.Taken? <==> w.attempts[a].stage.Taken?)
          && (Redeeming(w'.attempts[a]) <==> Redeeming(w.attempts[a])))
  }

  lemma GoneStaysGone(w: World, w': World, row: nat)
    requires Quiet(w, w') && row < w.table.nextId && RowGone(w, row)
    ensures RowGone(w', row)
  {
  }

  lemma QuietKeepsOrdered(w: World, w': World)
    requires Bounded(w) && Ordered(w) && Quiet(w, w')
    ensures Ordered(w')
  {
    forall row: nat | row < w.table.nextId && RowGone(w, row) ensures RowGone(w', row) { GoneStaysGone(w, w', row); }
  }

  lemma QuietKeeps(exclusive: bool, w: World, w': World)
    requires Inv(exclusive, w) && Quiet(w, w')
    ensures Inv(exclusive, w')
  {
    QuietKeepsOrdered(w, w');
  }

  lemma EarlyProceedKeeps(exclusive: bool, w: World, n: nat, secret: string)
    requires Inv(exclusive, w) && n in w.attempts && (w.attempts[n].stage.Matched? || w.attempts[n].stage.Stale?)
    ensures Inv(exclusive, After(w, Proceed(n, secret)))
  {
    QuietKeeps(exclusive, w, After(w, Proceed(n, secret)));
  }

  /** A refresh begins. */
  function Begun(w: World, a: Attempt): World
  {
    w.(attempts := w.attempts[w.nextAttempt := a], nextAttempt := w.nextAttempt + 1, steps := w.steps + 1)
  }

  lemma BegunAttempts(w: World, a: Attempt)
    requires Bounded(w)
    ensures forall b | b in Begun(w, a).attempts :: b == w.nextAttempt || (b in w.attempts && Begun(w, a).attempts[b] == w.attempts[b])
    ensures forall b | b in w.attempts :: b != w.nextAttempt
    ensures forall row :: RowGone(Begun(w, a), row) <==> RowGone(w, row)
  {
  }

  lemma BegunOrdered(w: World, t: Token, a: Attempt)
    requires Bounded(w) && Ordered(w) && t in w.table.tokens && a.row == t.id && !a.stage.Taken?
    ensures Ordered(Begun(w, a))
  {
    BegunAttempts(w, a);
    assert !RowGone(w, t.id);
  }

  lemma BegunAlone(w: World, t: Token, a: Attempt)
    requires Bounded(w) && Ordered(w) && Alone(w) && t in w.table.tokens && a.row == t.id
    requires forall b | b in w.attempts :: !HoldsRow(w.attempts[b], t.id)
    ensures Alone(Begun(w, a))
  {
    BegunAttempts(w, a);
    assert !RowGone(w, t.id);
    assert forall b | b in w.attempts && Redeeming(w.attempts[b]) :: w.attempts[b].row != t.id;
  }

  /** On a stored row: nothing has deleted it, and with exclusion nothing holds it. */
  lemma BegunKeeps(exclusive: bool, w: World, t: Token, a: Attempt)
    requires Inv(exclusive, w) && t in w.table.tokens
    requires a.row == t.id && a.compared == w.steps && (a.stage.Matched? || a.stage.Stale?)
    requires exclusive ==> forall b | b in w.attempts :: !HoldsRow(w.attempts[b], t.id)
    ensures Inv(exclusive, Begun(w, a))
  {
    BegunOrdered(w, t, a);
    if exclusive {
      BegunAlone(w, t, a);
    }
  }

  lemma CompareKeeps(exclusive: bool, w: World, raw: string)
    requires Inv(exclusive, w) && Can(exclusive, w, Compare(raw))
    ensures Inv(exclusive, After(w, Compare(raw)))
  {
    match Found(w, raw)
    case None => QuietKeeps(exclusive, w, After(w, Compare(raw)));
    case Some(t) =>
      assert t in w.table.tokens;
      BegunKeeps(exclusive, w, t, Attempt(t.id, t.user, if t.expires < w.now then Stale else Matched, w.steps, 0));
  }

  lemma DeletionKeeps(exclusive: bool, w: World, n: nat, secret: string)
    requires Inv(exclusive, w) && n in w.attempts && w.attempts[n].stage.Approved?
    ensures Inv(exclusive, After(w, Proceed(n, secret)))
  {
    var w', row := After(w, Proceed(n, secret)), w.attempts[n].row;
    assert RowGone(w', row);
    assert forall a | a in w'.attempts :: a in w.attempts && w'.attempts[a].row == w.attempts[a].row && w'.attempts[a].compared == w.attempts[a].compared;
    assert forall r | RowGone(w, r) :: RowGone(w', r);
  }

  lemma InsertionParts(w: World, n: nat, secret: string)
    requires Bounded(w) && n in w.attempts && w.attempts[n].stage.Taken?
    ensures var w' := After(w, Proceed(n, secret));
            && (forall r: nat | r < w.table.nextId && RowGone(w, r) :: RowGone(w', r))
            && (forall a | a in w'.attempts :: a in w.attempts && w'.attempts[a] == w.attempts[a])
            && (forall a | a in w'.redemptions :: a == n || (a in w.redemptions && w'.redemptions[a] == w.redemptions[a]))
            && w'.redemptions[n] == Redemption(w.attempts[n].row, w.attempts[n].compared, w.attempts[n].deleted)
  {
  }

  lemma InsertionOrdered(w: World, n: nat, secret: string)
    requires Bounded(w) && Ordered(w) && n in w.attempts && w.attempts[n].stage.Taken?
    ensures Ordered(After(w, Proceed(n, secret)))
  {
    InsertionParts(w, n, secret);
  }

  lemma InsertionBounded(w: World, n: nat, secret: string)
    requires Bounded(w) && n in w.attempts && w.attempts[n].stage.Taken?
    ensures Bounded(After(w, Proceed(n, secret)))
  {
    InsertionParts(w, n, secret);
  }

  lemma InsertionAlone(w: World, n: nat, secret: string)
    requires Bounded(w) && Alone(w) && n in w.attempts && w.attempts[n].stage.Taken?
    ensures Alone(After(w, Proceed(n, secret)))
  {
    InsertionParts(w, n, secret);
  }

  lemma InsertionKeeps(exclusive: bool, w: World, n: nat, secret: string)
    requires Inv(exclusive, w) && n in w.attempts && w.attempts[n].stage.Taken?
    ensures Inv(exclusive, After(w, Proceed(n, secret)))
  {
    InsertionBounded(w, n, secret);
    InsertionOrdered(w, n, secret);
    if exclusive {
      InsertionAlone(w, n, secret);
    }
  }

  lemma MoveKeeps(exclusive: bool, w: World, m: Move)
    requires Inv(exclusive, w) && Can(exclusive, w, m)
    ensures Inv(exclusive, After(w, m))
  {
    match m
    case Compare(raw) => CompareKeeps(exclusive, w, raw);
    case Proceed(n, secret) =>
      if w.attempts[n].stage.Approved? {
        DeletionKeeps(exclusive, w, n, secret);
      } else if w.attempts[n].stage.Taken? {
        InsertionKeeps(exclusive, w, n, secret);
      } else {
        EarlyProceedKeeps(exclusive, w, n, secret);
      }
    case _ => QuietKeeps(exclusive, w, After(w, m));
  }

  lemma {:induction false} GoingKeeps(exclusive: bool, w: World, moves: seq<Move>)
    requires Inv(exclusive, w) && CanGo(exclusive, w, moves)
    ensures Inv(exclusive, Went(exclusive, w, moves))
    decreases |moves|
  {
    if moves != [] {
      MoveKeeps(exclusive, w, moves[0]);
      GoingKeeps(exclusive, After(w, moves[0]), moves[1..]);
    }
  }

  lemma PossibleInv(exclusive: bool, w: World)
    requires Possible(exclusive, w)
    ensures Inv(exclusive, w)
  {
    var active, now, ttl, moves :|
      CanGo(exclusive, NewWorld(active, now, ttl), moves) && Went(exclusive, NewWorld(active, now, ttl), moves) == w;
    GoingKeeps(exclusive, NewWorld(active, now, ttl), moves);
  }

  // ---- redeemed at most once ----

  /** No stored token has been redeemed by two refreshes. */
  ghost predicate OnceEach(w: World)
  {
    forall a, b | a in w.redemptions && b in w.redemptions && w.redemptions[a].row == w.redemptions[b].row :: a == b
  }

  /** Each of the two compared before the other deleted. */
  predicate Overlap(a: Redemption, b: Redemption)
  {
    a.compared < b.deleted && b.compared < a.deleted
  }

  /**
   * In every run a token is redeemed at most once exactly when no two refreshes that
   * redeem the same token overlap between comparison and deletion.
   */
  lemma OnceExactlyWithoutOverlap(w: World)
    requires Possible(false, w)
    ensures OnceEach(w) <==>
            forall a, b | a in w.redemptions && b in w.redemptions && a != b && w.redemptions[a].row == w.redemptions[b].row ::
              !Overlap(w.redemptions[a], w.redemptions[b])
  {
    PossibleInv(false, w);
  }

  lemma {:induction false} Onward(exclusive: bool, w: World, moves: seq<Move>, m: Move)
    requires CanGo(exclusive, w, moves) && Can(exclusive, Went(exclusive, w, moves), m)
    ensures CanGo(exclusive, w, moves + [m]) && Went(exclusive, w, moves + [m]) == After(Went(exclusive, w, moves), m)
    decreases |moves|
  {
    if moves == [] {
      assert (moves + [m])[1..] == [];
    } else {
      Onward(exclusive, After(w, moves[0]), moves[1..], m);
      assert (moves + [m])[1..] == moves[1..] + [m];
    }
  }

  lemma Make(exclusive: bool, w: World, m: Move) returns (w': World)
    requires Possible(exclusive, w) && Can(exclusive, w, m)
    ensures w' == After(w, m) && Possible(exclusive, w')
  {
    var active, now, ttl, moves :|
      CanGo(exclusive, NewWorld(active, now, ttl), moves) && Went(exclusive, NewWorld(active, now, ttl), moves) == w;
    Onward(exclusive, NewWorld(active, now, ttl), moves, m);
    w' := After(w, m);
  }

  // ---- a refresh on its own ----

  /** Deleting by id deletes the row at its position. */
  lemma {:induction false} DeletesItsRow(tokens: seq<Token>, k: nat)
    requires DistinctRows(tokens) && k < |tokens|
    ensures Keep(tokens, (t: Token) => t.id != tokens[k].id) == RemoveAt(tokens, k)
  {
    if k == 0 {
      KeepAll(tokens[1..], (t: Token) => t.id != tokens[0].id);
    } else {
      DeletesItsRow(tokens[1..], k - 1);
      assert tokens[1..][k - 1] == tokens[k];
    }
  }

  /** The refresh compares and then takes its remaining steps with nothing in between. */
  function Uninterrupted(w: World, raw: string, secret: string): World
  {
    var w1 := After(w, Compare(raw));
    var n := w.nextAttempt;
    var w2 := if n in w1.attempts then After(w1, Proceed(n, secret)) else w1;
    var w3 := if n in w2.attempts then After(w2, Proceed(n, secret)) else w2;
    if n in w3.attempts then After(w3, Proceed(n, secret)) else w3
  }

  /** What the uninterrupted refresh must leave. */
  ghost predicate IsRefresh(w: World, raw: string, secret: string)
  {
    var w' := Uninterrupted(w, raw, secret);
    var (table', result) := Refresh(w.table, raw, w.now, secret, w.ttl);
    && w'.table == table' && w'.attempts == w.attempts
    && (w.nextAttempt in w'.redemptions <==> result.Issued?)
    && (result.Issued? ==> Found(w, raw).Some? && w'.redemptions[w.nextAttempt].row == Found(w, raw).value.id)
  }

  lemma StaleIsRefresh(w: World, raw: string, secret: string)
    requires DistinctRows(w.table.tokens) && w.nextAttempt !in w.attempts && w.nextAttempt !in w.redemptions
    requires Found(w, raw).Some? && Found(w, raw).value.expires < w.now
    ensures IsRefresh(w, raw, secret)
  {
    var (user, plain) := Parse(raw).value;
    DeletesItsRow(w.table.tokens, Matching(w.table.tokens, user, plain));
    assert After(After(w, Compare(raw)), Proceed(w.nextAttempt, secret)).attempts == w.attempts;
  }

  lemma InactiveIsRefresh(w: World, raw: string, secret: string, t: Token)
    requires w.nextAttempt !in w.attempts && w.nextAttempt !in w.redemptions
    requires Found(w, raw) == Some(t) && t.expires >= w.now && !(t.user in w.table.active && w.table.active[t.user])
    ensures IsRefresh(w, raw, secret)
  {
    assert After(After(w, Compare(raw)), Proceed(w.nextAttempt, secret)).attempts == w.attempts;
  }

  /** The last two steps of a refresh that has been approved. */
  lemma ApprovedGoesThrough(w: World, n: nat, a: Attempt, secret: string)
    requires n in w.attempts && w.attempts[n] == a && a.stage.Approved?
    ensures var w1 := After(w, Proceed(n, secret));
            && n in w1.attempts
            && var w' := After(w1, Proceed(n, secret));
               && w'.table == Generate(WithoutRow(w.table, a.row), a.user, secret, w.now + w.ttl)
               && w'.attempts == w.attempts - {n}
               && n in w'.redemptions && w'.redemptions[n].row == a.row
  {
    assert After(w, Proceed(n, secret)).attempts - {n} == w.attempts - {n};
  }

  /** The first two steps of a refresh that matches the row of an active user. */
  lemma Approving(w: World, raw: string, secret: string, t: Token) returns (w2: World)
    requires Found(w, raw) == Some(t) && t.expires >= w.now && t.user in w.table.active && w.table.active[t.user]
    ensures var w1 := After(w, Compare(raw));
            w.nextAttempt in w1.attempts && w2 == After(w1, Proceed(w.nextAttempt, secret))
    ensures w2.table == w.table && w2.now == w.now && w2.ttl == w.ttl
    ensures w2.attempts == w.attempts[w.nextAttempt := Attempt(t.id, t.user, Approved, w.steps, 0)]
  {
    w2 := After(After(w, Compare(raw)), Proceed(w.nextAttempt, secret));
  }

  lemma MatchedIsRefresh(w: World, raw: string, secret: string, t: Token)
    requires DistinctRows(w.table.tokens) && w.nextAttempt !in w.attempts && w.nextAttempt !in w.redemptions
    requires Found(w, raw) == Some(t) && t.expires >= w.now && t.user in w.table.active && w.table.active[t.user]
    ensures IsRefresh(w, raw, secret)
  {
    var (user, plain) := Parse(raw).value;
    DeletesItsRow(w.table.tokens, Matching(w.table.tokens, user, plain));
    var a := Attempt(t.id, t.user, Approved, w.steps, 0);
    var w2 := Approving(w, raw, secret, t);
    ApprovedGoesThrough(w2, w.nextAttempt, a, secret);
    assert w2.attempts - {w.nextAttempt} == w.attempts;
  }

  /**
   * On its own a refresh is the one of `RefreshTokens`: it leaves the same rows, and has
   * redeemed the row it matched exactly when that one hands out a new token.
   */
  lemma UninterruptedIsRefresh(w: World, raw: string, secret: string)
    requires DistinctRows(w.table.tokens) && w.nextAttempt !in w.attempts && w.nextAttempt !in w.redemptions
    ensures var w' := Uninterrupted(w, raw, secret);
            var (table', result) := Refresh(w.table, raw, w.now, secret, w.ttl);
            && w'.table == table' && w'.attempts == w.attempts
            && (w.nextAttempt in w'.redemptions <==> result.Issued?)
            && (result.Issued? ==> Found(w, raw).Some? && w'.redemptions[w.nextAttempt].row == Found(w, raw).value.id)
  {
    assert IsRefresh(w, raw, secret) by {
      if Found(w, raw).Some? {
        var t := Found(w, raw).value;
        if t.expires < w.now {
          StaleIsRefresh(w, raw, secret);
        } else if t.user in w.table.active && w.table.active[t.user] {
          MatchedIsRefresh(w, raw, secret, t);
        } else {
          InactiveIsRefresh(w, raw, secret, t);
        }
      }
    }
  }

  const NAME: Id := "u"
  const SECRET: string := "s"
  const ROW: Token := Token(0, NAME, HashOf(SECRET), 1)

  lemma SignedIn(exclusive: bool) returns (w: World)
    ensures Possible(exclusive, w)
    ensures w == World(Auth([ROW], map[NAME := true], 1), 0, 1, 1, map[], 0, map[])
  {
    w := NewWorld(map[NAME := true], 0, 1);
    assert CanGo(exclusive, w, []) && Went(exclusive, w, []) == w;
    w := Make(exclusive, w, SignIn(NAME, SECRET));
  }

  lemma PresentsRow(w: World)
    requires w.table.tokens == [ROW]
    ensures Found(w, TokenString(NAME, SECRET)) == Some(ROW)
  {
    TokenRoundTrip(NAME, SECRET);
  }

  /** Two refreshes present the same token and both compare before either deletes. */
  lemma BothMatched() returns (w: World)
    ensures Possible(false, w) && w.table.active == map[NAME := true] && w.redemptions == map[]
    ensures w.attempts == map[0 := Attempt(0, NAME, Matched, 1, 0), 1 := Attempt(0, NAME, Matched, 2, 0)]
  {
    w := SignedIn(false);
    PresentsRow(w);
    w := Make(false, w, Compare(TokenString(NAME, SECRET)));
    PresentsRow(w);
    w := Make(false, w, Compare(TokenString(NAME, SECRET)));
  }

  /** A matched refresh of an active user goes through, whatever has become of the row. */
  lemma GoesThrough(w: World, n: nat) returns (w': World)
    requires Possible(false, w) && n in w.attempts && w.attempts[n].stage.Matched?
    requires w.table.active == map[NAME := true] && w.attempts[n].user == NAME
    ensures Possible(false, w') && w'.table.active == w.table.active && w'.attempts == w.attempts - {n}
    ensures w'.redemptions.Keys == w.redemptions.Keys + {n} && w'.redemptions[n].row == w.attempts[n].row
    ensures forall a | a in w.redemptions && a != n :: w'.redemptions[a] == w.redemptions[a]
  {
    w' := Make(false, w, Proceed(n, SECRET));
    w' := Make(false, w', Proceed(n, SECRET));
    w' := Make(false, w', Proceed(n, SECRET));
    assert w'.attempts.Keys == w.attempts.Keys - {n};
  }

  lemma TwiceRedeemed() returns (w: World)
    ensures Possible(false, w) && !OnceEach(w)
  {
    w := BothMatched();
    w := GoesThrough(w, 0);
    w := GoesThrough(w, 1);
  }

  /**
   * A token is redeemed at most once in every run if and only if refreshes exclude each
   * other from comparison to deletion. The service does not make them: it holds no lock,
   * and a deletion that finds no row is no error.
   */
  lemma OnceExactlyWhenExclusive(exclusive: bool)
    ensures (forall w | Possible(exclusive, w) :: OnceEach(w)) <==> exclusive
  {
    if exclusive {
      forall w | Possible(exclusive, w) ensures OnceEach(w) { PossibleInv(exclusive, w); }
    } else {
      var w := TwiceRedeemed();
    }
  }
}
