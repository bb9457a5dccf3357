// Refresh-token rotation: the service methods, and safety over every run of
// logins, refreshes, logouts, (de)activations and the passing of time.

module RefreshTokens {
  import opened PermissionMatcher
  import opened Tables

  // ---- secrets and hashes ----

  const BCRYPT_BYTES := 72
  const SECRET_LENGTH := 80 // 40 random bytes in hex

  function Significant(secret: string): string
  {
    if |secret| <= BCRYPT_BYTES then secret else secret[..BCRYPT_BYTES]
  }

  /** A stored bcrypt hash; it depends on the first 72 bytes only. */
  datatype Hash = Bcrypt(significant: string)

  function HashOf(secret: string): Hash { Bcrypt(Significant(secret)) }

  predicate Compare(plain: string, hash: Hash) { HashOf(plain) == hash }

  /** A stored row; `id` is its issue number. */
  datatype Token = Token(id: nat, user: Id, hash: Hash, expires: Time)

  datatype Auth = Auth(tokens: seq<Token>, active: map<Id, bool>, nextId: nat)

  datatype Result = Issued(token: string) | BadFormat | NoMatch | Expired | Inactive

  function TokenString(user: Id, secret: string): string
  {
    user + "." + secret
  }

  /** `split('.')` and the first two parts, if both are non-empty. */
  function Parse(raw: string): Option<(string, string)>
  {
    var parts := Split(raw, '.');
    if |parts| < 2 || parts[0] == "" || parts[1] == "" then None else Some((parts[0], parts[1]))
  }

  /** Ids and secrets contain no dot, so the string parses back to its parts. */
  lemma TokenRoundTrip(user: Id, secret: string)
    requires user != "" && secret != "" && '.' !in user && '.' !in secret
    ensures Parse(TokenString(user, secret)) == Some((user, secret))
  {
    var parts := [user, secret];
    assert parts[1..] == [secret];
    assert Join(parts, '.') == TokenString(user, secret);
    SplitJoin(parts, '.');
  }

  /** What parses, exactly: two non-empty parts up to the first and second dot; whatever follows a second dot is ignored. */
  lemma ParseExactly(raw: string, user: string, secret: string)
    ensures Parse(raw) == Some((user, secret)) <==>
            && user != "" && secret != "" && '.' !in user && '.' !in secret
            && (raw == user + "." + secret || user + "." + secret + "." <= raw)
  {
    if Parse(raw) == Some((user, secret)) {
      ParsedParts(raw, user, secret);
    }
    if user != "" && secret != "" && '.' !in user && '.' !in secret {
      if raw == user + "." + secret {
        TokenRoundTrip(user, secret);
      } else if user + "." + secret + "." <= raw {
        LongerParses(raw, user, secret, raw[|user + "." + secret + "."|..]);
      }
    }
  }

  lemma ParsedParts(raw: string, user: string, secret: string)
    requires Parse(raw) == Some((user, secret))
    ensures raw == user + "." + secret || user + "." + secret + "." <= raw
  {
    var parts := Split(raw, '.');
    assert raw == parts[0] + "." + Join(parts[1..], '.');
    if |parts| > 2 {
      assert Join(parts[1..], '.') == parts[1] + "." + Join(parts[1..][1..], '.');
      assert raw == user + "." + secret + "." + Join(parts[1..][1..], '.');
    }
  }

  lemma LongerParses(raw: string, user: string, secret: string, rest: string)
    requires user != "" && secret != "" && '.' !in user && '.' !in secret && raw == user + "." + secret + "." + rest
    ensures Parse(raw) == Some((user, secret))
  {
    var whole := [user, secret] + Split(rest, '.');
    assert whole[1..][1..] == Split(rest, '.');
    assert Join(whole[1..], '.') == secret + "." + rest;
    assert Join(whole, '.') == user + "." + (secret + "." + rest);
    assert Join(whole, '.') == raw;
    SplitJoin(whole, '.');
  }

  /** A secret of 80 characters is compared on its first 72: those must be there, the rest may be anything. */
  lemma ComparesSeventyTwo(plain: string, secret: string)
    requires |secret| == 80
    ensures Compare(plain, HashOf(secret)) <==> |plain| >= 72 && plain[..72] == secret[..72]
  {
    if |plain| <= 72 && Compare(plain, HashOf(secret)) {
      assert plain == secret[..72];
    }
  }

  // ---- the operations on the table ----

  function Matching(tokens: seq<Token>, user: Id, plain: string): (i: nat)
    ensures i <= |tokens|
    ensures i < |tokens| ==> tokens[i].user == user && Compare(plain, tokens[i].hash)
    ensures forall j | 0 <= j < i :: !(tokens[j].user == user && Compare(plain, tokens[j].hash))
  {
    IndexWhere(tokens, (t: Token) => t.user == user && Compare(plain, t.hash))
  }

  function Generate(a: Auth, user: Id, secret: string, expires: Time): Auth
  {
    a.(tokens := a.tokens + [Token(a.nextId, user, HashOf(secret), expires)], nextId := a.nextId + 1)
  }

  function Refresh(a: Auth, raw: string, now: Time, secret: string, ttl: Time): (Auth, Result)
  {
    match Parse(raw)
    case None => (a, BadFormat)
    case Some((user, plain)) =>
      var i := Matching(a.tokens, user, plain);
      if i == |a.tokens| then (a, NoMatch)
      else if a.tokens[i].expires < now then (a.(tokens := RemoveAt(a.tokens, i)), Expired)
      else if user !in a.active || !a.active[user] then (a, Inactive)
      else (Generate(a.(tokens := RemoveAt(a.tokens, i)), user, secret, now + ttl), Issued(TokenString(user, secret)))
  }

  function Revoke(a: Auth, user: Id): Auth
  {
    a.(tokens := Keep(a.tokens, (t: Token) => t.user != user))
  }

  function SetActivation(a: Auth, user: Id, isActive: bool): Auth
  {
    if user !in a.active then a
    else
      var a' := a.(active := a.active[user := isActive]);
      if isActive then a' else Revoke(a', user)
  }

  /** The service over its mutable rows. */
  class AuthService {
    const refreshTtl: Time
    var tokens: seq<Token>
    var active: map<Id, bool>
    var nextId: nat

    constructor (refreshTtl: Time, active: map<Id, bool>)
      ensures this.refreshTtl == refreshTtl && Table() == Auth([], active, 0)
    {
      this.refreshTtl, this.active := refreshTtl, active;
      tokens, nextId := [], 0;
    }

    function Table(): Auth reads this { Auth(tokens, active, nextId) }

    method GenerateTokens(user: Id, now: Time, secret: string) returns (refreshToken: string)
      modifies this
      ensures Table() == Generate(old(Table()), user, secret, now + refreshTtl)
      ensures refreshToken == TokenString(user, secret)
    {
      tokens := tokens + [Token(nextId, user, HashOf(secret), now + refreshTtl)];
      nextId := nextId + 1;
      refreshToken := user + "." + secret;
    }

    method RefreshToken(raw: string, now: Time, secret: string) returns (result: Result)
      modifies this
      ensures (Table(), result) == Refresh(old(Table()), raw, now, secret, refreshTtl)
    {
      var parts := Split(raw, '.');
      if |parts| < 2 || parts[0] == "" || parts[1] == "" { return BadFormat; }
      var userIdPrefix, actualToken := parts[0], parts[1];
      var valid := |tokens|;
      for i := 0 to |tokens|
        invariant valid == |tokens|
        invariant Matching(tokens, userIdPrefix, actualToken) >= i
      {
        if tokens[i].user == userIdPrefix && Compare(actualToken, tokens[i].hash) {
          valid := i;
          break;
        }
      }
      assert valid == Matching(tokens, userIdPrefix, actualToken);
      if valid == |tokens| { return NoMatch; }
      var token := tokens[valid];
      if token.expires < now {
        tokens := RemoveAt(tokens, valid);
        return Expired;
      }
      if token.user !in active || !active[token.user] { return Inactive; }
      tokens := RemoveAt(tokens, valid);
      var refreshToken := GenerateTokens(token.user, now, secret);
      result := Issued(refreshToken);
    }

    method Logout(user: Id)
      modifies this`tokens
      ensures Table() == Revoke(old(Table()), user)
    {
      tokens := Keep(tokens, (t: Token) => t.user != user);
    }

    method Activate(user: Id, isActive: bool) returns (found: bool)
      modifies this
      ensures Table() == SetActivation(old(Table()), user, isActive) && (found <==> user in active)
    {
      if user !in active { return false; }
      active := active[user := isActive];
      if !isActive {
        tokens := Keep(tokens, (t: Token) => t.user != user);
      }
      found := true;
    }
  }

  // ---- runs ----

  datatype Status = Live | Redeemed | Lapsed | Revoked
  datatype Issue = Issue(user: Id, secret: string, expires: Time, status: Status)

  /** The table, the clock, and the history of every token issued. */
  datatype State = State(table: Auth, now: Time, ttl: Time, ledger: seq<Issue>)

  datatype Label =
    | Login(user: Id, secret: string)
    | Redeem(raw: string, secret: string)
    | Logout(user: Id)
    | Activation(user: Id, isActive: bool)
    | EditUser(user: Id, isActive: bool) // `updateUser` may set is_active; it revokes nothing
    | Tick(dt: nat)

  /** A new random secret: hex, and unlike every earlier one in its significant bytes. */
  predicate FreshSecret(s: State, secret: string)
  {
    && |secret| == SECRET_LENGTH && '.' !in secret
    && forall i | 0 <= i < |s.ledger| :: Significant(s.ledger[i].secret) != Significant(secret)
  }

  ghost predicate Enabled(s: State, l: Label)
  {
    match l
    case Login(user, secret) => user in s.table.active && s.table.active[user] && FreshSecret(s, secret)
    case Redeem(_, secret) => FreshSecret(s, secret)
    case _ => true
  }

  function Mark(ledger: seq<Issue>, i: nat, status: Status): seq<Issue>
  {
    if i < |ledger| then ledger[i := ledger[i].(status := status)] else ledger
  }

  /** Every live token of the user becomes revoked. */
  function MarkRevoked(ledger: seq<Issue>, user: Id): (r: seq<Issue>)
    ensures |r| == |ledger|
    ensures forall i | 0 <= i < |ledger| ::
              r[i] == if ledger[i].user == user && ledger[i].status.Live? then ledger[i].(status := Revoked) else ledger[i]
  {
    seq(|ledger|, i requires 0 <= i < |ledger| =>
      if ledger[i].user == user && ledger[i].status.Live? then ledger[i].(status := Revoked) else ledger[i])
  }

  function Step(s: State, l: Label): State
  {
    match l
    case Login(user, secret) =>
      s.(table := Generate(s.table, user, secret, s.now + s.ttl), ledger := s.ledger + [Issue(user, secret, s.now + s.ttl, Live)])
    case Redeem(raw, secret) =>
      var (table', result) := Refresh(s.table, raw, s.now, secret, s.ttl);
      var s1 := s.(table := table');
      (match result
       case Issued(_) =>
         var (user, plain) := Parse(raw).value;
         var redeemed := s.table.tokens[Matching(s.table.tokens, user, plain)].id;
         s1.(ledger := Mark(s.ledger, redeemed, Redeemed) + [Issue(user, secret, s.now + s.ttl, Live)])
       case Expired =>
         var (user, plain) := Parse(raw).value;
         s1.(ledger := Mark(s.ledger, s.table.tokens[Matching(s.table.tokens, user, plain)].id, Lapsed))
       case _ => s1)
    case Logout(user) => s.(table := Revoke(s.table, user), ledger := MarkRevoked(s.ledger, user))
    case Activation(user, isActive) =>
      s.(table := SetActivation(s.table, user, isActive),
         ledger := if user in s.table.active && !isActive then MarkRevoked(s.ledger, user) else s.ledger)
    case EditUser(user, isActive) =>
      if user in s.table.active then s.(table := s.table.(active := s.table.active[user := isActive])) else s
    case Tick(dt) => s.(now := s.now + dt)
  }

  ghost predicate CanRun(s: State, labels: seq<Label>)
    decreases |labels|
  {
    labels == [] || (Enabled(s, labels[0]) && CanRun(Step(s, labels[0]), labels[1..]))
  }

  function Run(s: State, labels: seq<Label>): State
    decreases |labels|
  {
    if labels == [] then s else Run(Step(s, labels[0]), labels[1..])
  }

  ghost predicate UserIds(active: map<Id, bool>)
  {
    forall u | u in active :: u != "" && '.' !in u
  }

  ghost predicate Reachable(s: State)
  {
    exists active, now, ttl, labels ::
      UserIds(active) && CanRun(State(Auth([], active, 0), now, ttl, []), labels) &&
      Run(State(Auth([], active, 0), now, ttl, []), labels) == s
  }

  // ---- the invariant: the rows are exactly the live issues ----

  ghost predicate RowMatches(t: Token, ledger: seq<Issue>)
  {
    t.id < |ledger| && ledger[t.id].status.Live?
    && t == Token(t.id, ledger[t.id].user, HashOf(ledger[t.id].secret), ledger[t.id].expires)
  }

  ghost predicate Stored(tokens: seq<Token>, id: nat)
  {
    exists k :: 0 <= k < |tokens| && tokens[k].id == id
  }

  ghost predicate DistinctRows(tokens: seq<Token>)
  {
    forall i, j | 0 <= i < j < |tokens| :: tokens[i].id != tokens[j].id
  }

  ghost predicate DistinctSecrets(ledger: seq<Issue>)
  {
    forall i, j | 0 <= i < j < |ledger| :: Significant(ledger[i].secret) != Significant(ledger[j].secret)
  }

  ghost predicate WellIssued(issue: Issue)
  {
    issue.user != "" && '.' !in issue.user && |issue.secret| == SECRET_LENGTH && '.' !in issue.secret
  }

  ghost predicate Inv(s: State)
  {
    && UserIds(s.table.active)
    && s.table.nextId == |s.ledger|
    && DistinctRows(s.table.tokens) && DistinctSecrets(s.ledger)
    && (forall i | 0 <= i < |s.ledger| :: WellIssued(s.ledger[i]))
    && (forall t | t in s.table.tokens :: RowMatches(t, s.ledger))
    && (forall i | 0 <= i < |s.ledger| && s.ledger[i].status.Live? :: Stored(s.table.tokens, i))
  }

  /** Issuing adds one row and one live entry. */
  lemma IssueKeeps(tokens: seq<Token>, ledger: seq<Issue>, user: Id, secret: string, expires: Time)
    requires DistinctRows(tokens) && forall t | t in tokens :: RowMatches(t, ledger)
    requires forall i | 0 <= i < |ledger| && ledger[i].status.Live? :: Stored(tokens, i)
    ensures var tokens' := tokens + [Token(|ledger|, user, HashOf(secret), expires)];
            var ledger' := ledger + [Issue(user, secret, expires, Live)];
            && DistinctRows(tokens') && (forall t | t in tokens' :: RowMatches(t, ledger'))
            && (forall i | 0 <= i < |ledger'| && ledger'[i].status.Live? :: Stored(tokens', i))
  {
    var tokens' := tokens + [Token(|ledger|, user, HashOf(secret), expires)];
    var ledger' := ledger + [Issue(user, secret, expires, Live)];
    assert forall k | 0 <= k < |tokens| :: tokens[k] in tokens;
    assert forall k | 0 <= k < |tokens| :: RowMatches(tokens[k], ledger);
    forall i | 0 <= i < |ledger'| && ledger'[i].status.Live?
      ensures Stored(tokens', i)
    {
      if i < |ledger| {
        assert Stored(tokens, i);
        var k :| 0 <= k < |tokens| && tokens[k].id == i;
        assert tokens'[k].id == i;
      } else {
        assert tokens'[|tokens|].id == i;
      }
    }
  }

  lemma RemoveAtRows(tokens: seq<Token>, k: nat)
    requires DistinctRows(tokens) && k < |tokens|
    ensures DistinctRows(RemoveAt(tokens, k))
    ensures forall t | t in RemoveAt(tokens, k) :: t in tokens && t.id != tokens[k].id
    ensures forall id: nat | id != tokens[k].id && Stored(tokens, id) :: Stored(RemoveAt(tokens, k), id)
    ensures forall t | t in tokens && t.id != tokens[k].id :: t in RemoveAt(tokens, k)
  {
    var rows := RemoveAt(tokens, k);
    assert forall j | 0 <= j < |rows| :: rows[j] == tokens[if j < k then j else j + 1];
    assert tokens == tokens[..k] + [tokens[k]] + tokens[k + 1..];
    forall id: nat | id != tokens[k].id && Stored(tokens, id)
      ensures Stored(rows, id)
    {
      var j :| 0 <= j < |tokens| && tokens[j].id == id;
      assert rows[if j < k then j else j - 1].id == id;
    }
  }

  /** Taking one row out and marking its issue keeps rows and live issues in step. */
  lemma TakeOutKeeps(tokens: seq<Token>, ledger: seq<Issue>, k: nat, status: Status)
    requires DistinctRows(tokens) && (forall t | t in tokens :: RowMatches(t, ledger))
    requires forall i | 0 <= i < |ledger| && ledger[i].status.Live? :: Stored(tokens, i)
    requires k < |tokens| && !status.Live?
    ensures var tokens', ledger' := RemoveAt(tokens, k), Mark(ledger, tokens[k].id, status);
            && DistinctRows(tokens') && (forall t | t in tokens' :: RowMatches(t, ledger'))
            && (forall i | 0 <= i < |ledger'| && ledger'[i].status.Live? :: Stored(tokens', i))
  {
    assert tokens[k] in tokens;
    RemoveAtRows(tokens, k);
  }

  lemma {:induction false} KeepDistinctRows(tokens: seq<Token>, f: Token -> bool)
    requires DistinctRows(tokens)
    ensures DistinctRows(Keep(tokens, f))
  {
    if tokens != [] {
      KeepDistinctRows(tokens[1..], f);
      assert forall t | t in Keep(tokens[1..], f) :: t.id != tokens[0].id;
    }
  }

  /** Revoking drops exactly the user's rows and marks exactly their live issues. */
  lemma RevokeKeeps(tokens: seq<Token>, ledger: seq<Issue>, user: Id)
    requires DistinctRows(tokens) && (forall t | t in tokens :: RowMatches(t, ledger))
    requires forall i | 0 <= i < |ledger| && ledger[i].status.Live? :: Stored(tokens, i)
    ensures var tokens', ledger' := Keep(tokens, (t: Token) => t.user != user), MarkRevoked(ledger, user);
            && DistinctRows(tokens') && (forall t | t in tokens' :: RowMatches(t, ledger'))
            && (forall i | 0 <= i < |ledger'| && ledger'[i].status.Live? :: Stored(tokens', i))
  {
    var tokens', ledger' := Keep(tokens, (t: Token) => t.user != user), MarkRevoked(ledger, user);
    KeepDistinctRows(tokens, (t: Token) => t.user != user);
    forall i | 0 <= i < |ledger'| && ledger'[i].status.Live?
      ensures Stored(tokens', i)
    {
      assert Stored(tokens, i);
      var k :| 0 <= k < |tokens| && tokens[k].id == i;
      assert tokens[k] in tokens && tokens[k] in tokens';
      var k' :| 0 <= k' < |tokens'| && tokens'[k'] == tokens[k];
    }
  }

  /** The state with row `k` taken out and its issue marked. */
  function Taken(s: State, k: nat, status: Status): State
    requires k < |s.table.tokens|
  {
    s.(table := s.table.(tokens := RemoveAt(s.table.tokens, k)), ledger := Mark(s.ledger, s.table.tokens[k].id, status))
  }

  lemma TakenKeeps(s: State, k: nat, status: Status)
    requires Inv(s) && k < |s.table.tokens| && !status.Live?
    ensures Inv(Taken(s, k, status))
  {
    TakeOutKeeps(s.table.tokens, s.ledger, k, status);
  }

  lemma LoginKeeps(s: State, user: Id, secret: string)
    requires Inv(s) && FreshSecret(s, secret) && user != "" && '.' !in user
    ensures Inv(Step(s, Login(user, secret)))
  {
    IssueKeeps(s.table.tokens, s.ledger, user, secret, s.now + s.ttl);
  }

  lemma RedeemKeeps(s: State, raw: string, secret: string)
    requires Inv(s) && Enabled(s, Redeem(raw, secret))
    ensures Inv(Step(s, Redeem(raw, secret)))
  {
    var result := Refresh(s.table, raw, s.now, secret, s.ttl).1;
    if result.Issued? || result.Expired? {
      var (user, plain) := Parse(raw).value;
      var k := Matching(s.table.tokens, user, plain);
      var s1 := Taken(s, k, if result.Issued? then Redeemed else Lapsed);
      TakenKeeps(s, k, if result.Issued? then Redeemed else Lapsed);
      if result.Issued? {
        LoginKeeps(s1, user, secret);
        assert Step(s, Redeem(raw, secret)) == Step(s1, Login(user, secret));
      } else {
        assert Step(s, Redeem(raw, secret)) == s1;
      }
    }
  }

  lemma StepKeeps(s: State, l: Label)
    requires Inv(s) && Enabled(s, l)
    ensures Inv(Step(s, l))
  {
    match l
    case Login(user, secret) => LoginKeeps(s, user, secret);
    case Redeem(raw, secret) => RedeemKeeps(s, raw, secret);
    case Logout(user) => RevokeKeeps(s.table.tokens, s.ledger, user);
    case Activation(user, isActive) => RevokeKeeps(s.table.tokens, s.ledger, user);
    case EditUser(_, _) =>
    case Tick(_) =>
  }

  lemma {:induction false} RunKeeps(s: State, labels: seq<Label>)
    requires Inv(s) && CanRun(s, labels)
    ensures Inv(Run(s, labels))
    decreases |labels|
  {
    if labels != [] {
      StepKeeps(s, labels[0]);
      RunKeeps(Step(s, labels[0]), labels[1..]);
    }
  }

  lemma ReachableInv(s: State)
    requires Reachable(s)
    ensures Inv(s)
  {
    var active, now, ttl, labels :| UserIds(active) && CanRun(State(Auth([], active, 0), now, ttl, []), labels)
      && Run(State(Auth([], active, 0), now, ttl, []), labels) == s;
    RunKeeps(State(Auth([], active, 0), now, ttl, []), labels);
  }

  // ---- what is accepted ----

  /** Presenting this string now would be answered with a new token. */
  ghost predicate Accepts(s: State, raw: string)
  {
    forall secret :: Refresh(s.table, raw, s.now, secret, s.ttl).1.Issued?
  }

  function IssuedString(s: State, i: nat): string
    requires i < |s.ledger|
  {
    TokenString(s.ledger[i].user, s.ledger[i].secret)
  }

  /** The string has the user's id and the secret's significant bytes in its first two parts. */
  predicate Names(raw: string, issue: Issue)
  {
    Parse(raw).Some? && Parse(raw).value.0 == issue.user && Compare(Parse(raw).value.1, HashOf(issue.secret))
  }

  /** The issue is live, unexpired and its user exists and is active. */
  predicate Usable(s: State, issue: Issue)
  {
    issue.status.Live? && s.now <= issue.expires && issue.user in s.table.active && s.table.active[issue.user]
  }

  /** An issued string names its own issue. */
  lemma IssuedNames(s: State, i: nat)
    requires Inv(s) && i < |s.ledger|
    ensures Names(IssuedString(s, i), s.ledger[i])
  {
    TokenRoundTrip(s.ledger[i].user, s.ledger[i].secret);
  }

  /** Any string names at most one issue: their significant bytes all differ. */
  lemma NamesOne(s: State, raw: string, i: nat, j: nat)
    requires Inv(s) && i < |s.ledger| && j < |s.ledger| && Names(raw, s.ledger[i]) && Names(raw, s.ledger[j])
    ensures i == j
  {
  }

  /** The stored row a string is matched with is the row of the live issue it names. */
  lemma MatchedRow(s: State, raw: string, i: nat)
    requires Inv(s) && i < |s.ledger| && Names(raw, s.ledger[i])
    ensures var (user, plain) := Parse(raw).value;
            var k := Matching(s.table.tokens, user, plain);
            && (k < |s.table.tokens| <==> s.ledger[i].status.Live?)
            && (k < |s.table.tokens| ==> RowMatches(s.table.tokens[k], s.ledger) && s.table.tokens[k].id == i)
  {
    var (user, plain) := Parse(raw).value;
    var k := Matching(s.table.tokens, user, plain);
    assert forall j | 0 <= j < |s.table.tokens| :: s.table.tokens[j] in s.table.tokens;
    assert s.ledger[i].status.Live? ==> Stored(s.table.tokens, i);
    if k < |s.table.tokens| {
      NamesOne(s, raw, i, s.table.tokens[k].id);
    }
  }

  /** Of the strings that name an issue, exactly those of a usable one are accepted. */
  lemma NamedAcceptedExactly(s: State, raw: string, i: nat)
    requires Inv(s) && i < |s.ledger| && Names(raw, s.ledger[i])
    ensures Accepts(s, raw) <==> Usable(s, s.ledger[i])
  {
    MatchedRow(s, raw, i);
    assert Refresh(s.table, raw, s.now, "", s.ttl).1.Issued? <==> Accepts(s, raw);
  }

  /** Whatever string is presented: it is accepted if and only if it names a usable issue. */
  lemma AcceptedExactly(s: State, raw: string)
    requires Reachable(s)
    ensures Accepts(s, raw) <==> exists i: nat :: i < |s.ledger| && Names(raw, s.ledger[i]) && Usable(s, s.ledger[i])
  {
    ReachableInv(s);
    if Accepts(s, raw) {
      assert Refresh(s.table, raw, s.now, "", s.ttl).1.Issued?;
      var (user, plain) := Parse(raw).value;
      var row := s.table.tokens[Matching(s.table.tokens, user, plain)];
      assert row in s.table.tokens;
      assert Names(raw, s.ledger[row.id]);
      NamedAcceptedExactly(s, raw, row.id);
    }
    if i: nat :| i < |s.ledger| && Names(raw, s.ledger[i]) && Usable(s, s.ledger[i]) {
      NamedAcceptedExactly(s, raw, i);
    }
  }

  /** Redeeming a string consumes exactly the issue it names and adds one live issue. */
  lemma RedeemConsumes(s: State, raw: string, secret: string, i: nat)
    requires Inv(s) && i < |s.ledger| && Names(raw, s.ledger[i]) && Usable(s, s.ledger[i])
    ensures Step(s, Redeem(raw, secret)).ledger ==
            s.ledger[i := s.ledger[i].(status := Redeemed)] + [Issue(s.ledger[i].user, secret, s.now + s.ttl, Live)]
  {
    MatchedRow(s, raw, i);
  }

  /** The issue a string names, in the string's own terms. */
  lemma NamesExactly(s: State, raw: string, i: nat)
    requires Inv(s) && i < |s.ledger|
    ensures var issue := s.ledger[i];
            Names(raw, issue) <==>
            exists plain: string ::
              && plain != "" && '.' !in plain && |plain| >= 72 && plain[..72] == issue.secret[..72]
              && (raw == issue.user + "." + plain || issue.user + "." + plain + "." <= raw)
  {
    var issue := s.ledger[i];
    if Names(raw, issue) {
      var plain := Parse(raw).value.1;
      ParseExactly(raw, issue.user, plain);
      ComparesSeventyTwo(plain, issue.secret);
    }
    if plain: string :| && plain != "" && '.' !in plain && |plain| >= 72 && plain[..72] == issue.secret[..72]
                        && (raw == issue.user + "." + plain || issue.user + "." + plain + "." <= raw)
    {
      ParseExactly(raw, issue.user, plain);
      ComparesSeventyTwo(plain, issue.secret);
    }
  }

  /**
   * What is answered, case by case, to a string that names an issue: refused as unknown
   * once the issue is not live, as expired after its expiry, as inactive while the user
   * is missing or off, and else the new token, whatever the caller's secret.
   */
  lemma RefreshAnswers(s: State, raw: string, secret: string, i: nat)
    requires Inv(s) && i < |s.ledger| && Names(raw, s.ledger[i])
    ensures var issue := s.ledger[i];
            Refresh(s.table, raw, s.now, secret, s.ttl).1 ==
            if issue.status != Live then NoMatch
            else if issue.expires < s.now then Expired
            else if !(issue.user in s.table.active && s.table.active[issue.user]) then Inactive
            else Issued(issue.user + "." + secret)
  {
    MatchedRow(s, raw, i);
  }

  /** A string that names no issue is refused, as malformed when it has no two parts; the rows stay as they are. */
  lemma UnnamedIsRefused(s: State, raw: string, secret: string)
    requires Inv(s) && forall i | 0 <= i < |s.ledger| :: !Names(raw, s.ledger[i])
    ensures Refresh(s.table, raw, s.now, secret, s.ttl) == (s.table, if Parse(raw).None? then BadFormat else NoMatch)
  {
    if Parse(raw).Some? {
      assert forall k | 0 <= k < |s.table.tokens| :: s.table.tokens[k] in s.table.tokens;
      assert forall k | 0 <= k < |s.table.tokens| :: !Names(raw, s.ledger[s.table.tokens[k].id]);
    }
  }

  /** Only a refused refresh of a live but expired issue, and no other refusal, changes the rows: its own row goes. */
  lemma RefusalExactly(s: State, raw: string, secret: string, i: nat)
    requires Inv(s) && i < |s.ledger| && Names(raw, s.ledger[i]) && !Usable(s, s.ledger[i])
    ensures var (table', result) := Refresh(s.table, raw, s.now, secret, s.ttl);
            && table' == s.table.(tokens := table'.tokens)
            && (forall t :: t in table'.tokens <==> t in s.table.tokens && (result == Expired ==> t.id != i))
  {
    MatchedRow(s, raw, i);
    var (user, plain) := Parse(raw).value;
    var k := Matching(s.table.tokens, user, plain);
    if k < |s.table.tokens| {
      RemoveAtRows(s.table.tokens, k);
    }
  }

  /** A refresh hands back the string of the issue it adds: the caller goes on with the new token. */
  lemma RefreshReturnsTheNewToken(s: State, raw: string, secret: string, i: nat)
    requires Reachable(s) && i < |s.ledger| && Names(raw, s.ledger[i]) && Usable(s, s.ledger[i])
    requires Enabled(s, Redeem(raw, secret))
    ensures var s' := Step(s, Redeem(raw, secret));
            && |s'.ledger| == |s.ledger| + 1 && s'.ledger[|s.ledger|] == Issue(s.ledger[i].user, secret, s.now + s.ttl, Live)
            && Refresh(s.table, raw, s.now, secret, s.ttl) == (s'.table, Issued(IssuedString(s', |s.ledger|)))
  {
    ReachableInv(s);
    MatchedRow(s, raw, i);
    RedeemConsumes(s, raw, secret, i);
  }

  /** And that string is good for exactly the configured lifetime, while nothing else happens to it. */
  lemma NewTokenIsGood(s: State, raw: string, secret: string, i: nat, dt: nat)
    requires Reachable(s) && i < |s.ledger| && Names(raw, s.ledger[i]) && Usable(s, s.ledger[i])
    requires Enabled(s, Redeem(raw, secret))
    ensures var s' := Step(s, Redeem(raw, secret));
            |s.ledger| < |s'.ledger| && (Accepts(Step(s', Tick(dt)), IssuedString(s', |s.ledger|)) <==> dt <= s.ttl)
  {
    ReachableInv(s);
    RefreshReturnsTheNewToken(s, raw, secret, i);
    ReachableNext(s, Redeem(raw, secret));
    LastIssueLives(Step(s, Redeem(raw, secret)), s.ledger[i].user, secret, s.now + s.ttl, dt);
  }

  /** A login's token likewise. */
  lemma LoginTokenIsGood(s: State, user: Id, secret: string, dt: nat)
    requires Reachable(s) && Enabled(s, Login(user, secret))
    ensures Accepts(Step(Step(s, Login(user, secret)), Tick(dt)), user + "." + secret) <==> dt <= s.ttl
  {
    ReachableNext(s, Login(user, secret));
    LastIssueLives(Step(s, Login(user, secret)), user, secret, s.now + s.ttl, dt);
  }

  lemma LastIssueLives(s: State, user: Id, secret: string, expires: Time, dt: nat)
    requires Reachable(s) && s.ledger != [] && s.ledger[|s.ledger| - 1] == Issue(user, secret, expires, Live)
    requires user in s.table.active && s.table.active[user]
    ensures IssuedString(s, |s.ledger| - 1) == user + "." + secret
    ensures Accepts(Step(s, Tick(dt)), user + "." + secret) <==> s.now + dt <= expires
  {
    ReachableInv(s);
    IssuedNames(s, |s.ledger| - 1);
    StepKeeps(s, Tick(dt));
    NamedAcceptedExactly(Step(s, Tick(dt)), user + "." + secret, |s.ledger| - 1);
  }

  /** What a step does not aim at, it leaves alone: every other token is accepted after it as before. */
  predicate Spares(s: State, l: Label, issue: Issue)
  {
    match l
    case Login(_, _) => true
    case Redeem(raw, _) => !Names(raw, issue)
    case Logout(user) => user != issue.user
    case Activation(user, _) => user != issue.user
    case EditUser(user, _) => user != issue.user
    case Tick(dt) => s.now + dt <= issue.expires || issue.expires < s.now
  }

  lemma SparedIssues(s: State, l: Label, i: nat)
    requires Inv(s) && Enabled(s, l) && i < |s.ledger| && Spares(s, l, s.ledger[i])
    ensures i < |Step(s, l).ledger| && Step(s, l).ledger[i] == s.ledger[i]
    ensures Usable(Step(s, l), s.ledger[i]) <==> Usable(s, s.ledger[i])
  {
    if l.Redeem? && Parse(l.raw).Some? {
      var (user, plain) := Parse(l.raw).value;
      var k := Matching(s.table.tokens, user, plain);
      if k < |s.table.tokens| {
        assert s.table.tokens[k] in s.table.tokens;
      }
    }
  }

  lemma OthersAreSpared(s: State, l: Label, i: nat, raw: string)
    requires Reachable(s) && Enabled(s, l) && i < |s.ledger| && Spares(s, l, s.ledger[i]) && Names(raw, s.ledger[i])
    ensures Accepts(Step(s, l), raw) <==> Accepts(s, raw)
  {
    ReachableInv(s);
    SparedIssues(s, l, i);
    StepKeeps(s, l);
    NamedAcceptedExactly(s, raw, i);
    NamedAcceptedExactly(Step(s, l), raw, i);
  }

  /** Activation and the plain edit set the flag of a known user, and nobody else's. */
  lemma FlagsExactly(s: State, user: Id, isActive: bool, other: Id)
    ensures var on, edited := Step(s, Activation(user, isActive)).table.active, Step(s, EditUser(user, isActive)).table.active;
            && on == edited && on.Keys == s.table.active.Keys
            && (other in on ==> on[other] == if other == user then isActive else s.table.active[other])
  {
  }

  // ---- tokens never come back ----

  /** Later ledgers extend earlier ones, and a token that is no longer live stays so. */
  ghost predicate Extends(ledger: seq<Issue>, ledger': seq<Issue>)
  {
    && |ledger| <= |ledger'|
    && forall i | 0 <= i < |ledger| ::
         && ledger'[i].(status := Live) == ledger[i].(status := Live)
         && (!ledger[i].status.Live? ==> ledger'[i] == ledger[i])
  }

  lemma StepExtends(s: State, l: Label)
    requires Inv(s) && Enabled(s, l)
    ensures Extends(s.ledger, Step(s, l).ledger)
  {
    if l.Redeem? && Parse(l.raw).Some? {
      var (user, plain) := Parse(l.raw).value;
      var k := Matching(s.table.tokens, user, plain);
      if k < |s.table.tokens| {
        assert s.table.tokens[k] in s.table.tokens;
      }
    }
  }

  lemma {:induction false} RunExtends(s: State, labels: seq<Label>)
    requires Inv(s) && CanRun(s, labels)
    ensures Extends(s.ledger, Run(s, labels).ledger)
    decreases |labels|
  {
    if labels != [] {
      var s' := Step(s, labels[0]);
      StepKeeps(s, labels[0]);
      StepExtends(s, labels[0]);
      RunExtends(s', labels[1..]);
    }
  }

  lemma {:induction false} Later(s: State, labels: seq<Label>, more: seq<Label>)
    requires CanRun(s, labels) && CanRun(Run(s, labels), more)
    ensures CanRun(s, labels + more) && Run(s, labels + more) == Run(Run(s, labels), more)
    decreases |labels|
  {
    if labels == [] {
      assert labels + more == more;
    } else {
      Later(Step(s, labels[0]), labels[1..], more);
      assert (labels + more)[1..] == labels[1..] + more;
    }
  }

  lemma ReachableNext(s: State, l: Label)
    requires Reachable(s) && Enabled(s, l)
    ensures Reachable(Step(s, l))
  {
    assert [l][1..] == [];
    assert CanRun(Step(s, l), []) && Run(Step(s, l), []) == Step(s, l);
    assert CanRun(s, [l]) && Run(s, [l]) == Step(s, l);
    ReachableLater(s, [l]);
  }

  lemma ReachableLater(s: State, labels: seq<Label>)
    requires Reachable(s) && CanRun(s, labels)
    ensures Reachable(Run(s, labels))
  {
    var active, now, ttl, before :| UserIds(active) && CanRun(State(Auth([], active, 0), now, ttl, []), before)
      && Run(State(Auth([], active, 0), now, ttl, []), before) == s;
    Later(State(Auth([], active, 0), now, ttl, []), before, labels);
  }

  /** Naming is by what never changes of an issue. */
  lemma StillNamed(s: State, i: nat, labels: seq<Label>, raw: string)
    requires Inv(s) && i < |s.ledger| && CanRun(s, labels) && Names(raw, s.ledger[i])
    ensures i < |Run(s, labels).ledger| && Names(raw, Run(s, labels).ledger[i])
  {
    RunExtends(s, labels);
  }

  /** No string that names an issue which is not live is accepted in any later state. */
  lemma DeadStaysDead(s: State, i: nat, labels: seq<Label>, raw: string)
    requires Reachable(s) && i < |s.ledger| && !s.ledger[i].status.Live? && CanRun(s, labels) && Names(raw, s.ledger[i])
    ensures !Accepts(Run(s, labels), raw)
  {
    ReachableInv(s);
    RunExtends(s, labels);
    StillNamed(s, i, labels, raw);
    ReachableLater(s, labels);
    ReachableInv(Run(s, labels));
    NamedAcceptedExactly(Run(s, labels), raw, i);
  }

  /** Redeemed at most once: after one acceptance, no string naming the same issue is ever accepted again. */
  lemma RedeemedAtMostOnce(s: State, i: nat, raw: string, secret: string, labels: seq<Label>, raw': string)
    requires Reachable(s) && i < |s.ledger| && Names(raw, s.ledger[i]) && Names(raw', s.ledger[i]) && Accepts(s, raw)
    requires Enabled(s, Redeem(raw, secret)) && CanRun(Step(s, Redeem(raw, secret)), labels)
    ensures !Accepts(Run(Step(s, Redeem(raw, secret)), labels), raw')
  {
    ReachableInv(s);
    NamedAcceptedExactly(s, raw, i);
    RedeemConsumes(s, raw, secret, i);
    ReachableNext(s, Redeem(raw, secret));
    DeadStaysDead(Step(s, Redeem(raw, secret)), i, labels, raw');
  }

  /** None issued before a logout or a deactivation of its user is accepted after it. */
  lemma RevokedForever(s: State, i: nat, l: Label, labels: seq<Label>, raw: string)
    requires Reachable(s) && i < |s.ledger| && Names(raw, s.ledger[i])
    requires l == Logout(s.ledger[i].user) || (l == Activation(s.ledger[i].user, false) && s.ledger[i].user in s.table.active)
    requires CanRun(Step(s, l), labels)
    ensures !Accepts(Run(Step(s, l), labels), raw)
  {
    ReachableNext(s, l);
    assert !Step(s, l).ledger[i].status.Live?;
    DeadStaysDead(Step(s, l), i, labels, raw);
  }

  /** An edit that only clears `is_active` suspends a token: it works again after reactivation. */
  lemma EditingSuspendsOnly(s: State, i: nat, raw: string)
    requires Reachable(s) && i < |s.ledger| && Names(raw, s.ledger[i]) && Accepts(s, raw)
    ensures var user := s.ledger[i].user;
            var off := Step(s, EditUser(user, false));
            !Accepts(off, raw) && Accepts(Step(off, Activation(user, true)), raw)
  {
    var user := s.ledger[i].user;
    var off := Step(s, EditUser(user, false));
    ReachableInv(s);
    NamedAcceptedExactly(s, raw, i);
    StepKeeps(s, EditUser(user, false));
    NamedAcceptedExactly(off, raw, i);
    StepKeeps(off, Activation(user, true));
    NamedAcceptedExactly(Step(off, Activation(user, true)), raw, i);
  }

  // ---- conservation ----

  function Count(ledger: seq<Issue>, status: Status): nat
  {
    if ledger == [] then 0
    else Count(ledger[..|ledger| - 1], status) + (if ledger[|ledger| - 1].status == status then 1 else 0)
  }

  lemma {:induction false} CountsPartition(ledger: seq<Issue>)
    ensures |ledger| == Count(ledger, Live) + Count(ledger, Redeemed) + Count(ledger, Lapsed) + Count(ledger, Revoked)
  {
    if ledger != [] {
      CountsPartition(ledger[..|ledger| - 1]);
    }
  }

  function LiveIds(ledger: seq<Issue>): set<nat>
  {
    set i | 0 <= i < |ledger| && ledger[i].status.Live?
  }

  lemma {:induction false} CountIsCardinality(ledger: seq<Issue>)
    ensures Count(ledger, Live) == |LiveIds(ledger)|
  {
    if ledger != [] {
      var init, n := ledger[..|ledger| - 1], |ledger| - 1;
      CountIsCardinality(init);
      assert LiveIds(ledger) == if ledger[n].status.Live? then LiveIds(init) + {n} else LiveIds(init);
    }
  }

  lemma {:induction false} DistinctRowsCount(tokens: seq<Token>)
    requires DistinctRows(tokens)
    ensures |set t | t in tokens :: t.id| == |tokens|
  {
    if tokens != [] {
      DistinctRowsCount(tokens[1..]);
      assert (set t | t in tokens :: t.id) == (set t | t in tokens[1..] :: t.id) + {tokens[0].id};
    }
  }

  /** Every token issued is stored, or was redeemed, removed as expired, or revoked: exactly one of these. */
  lemma Conservation(s: State)
    requires Reachable(s)
    ensures |s.ledger| == |s.table.tokens| + Count(s.ledger, Redeemed) + Count(s.ledger, Lapsed) + Count(s.ledger, Revoked)
  {
    ReachableInv(s);
    CountsPartition(s.ledger);
    CountIsCardinality(s.ledger);
    DistinctRowsCount(s.table.tokens);
    var ids := set t | t in s.table.tokens :: t.id;
    forall i | i in LiveIds(s.ledger)
      ensures i in ids
    {
      assert Stored(s.table.tokens, i);
      var k :| 0 <= k < |s.table.tokens| && s.table.tokens[k].id == i;
      assert s.table.tokens[k] in s.table.tokens;
    }
    assert ids == LiveIds(s.ledger);
  }
}
