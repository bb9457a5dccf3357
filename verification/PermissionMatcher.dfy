// The dot-format permission matcher of the SDK: wildcard matching of a required
// code against a set of held codes, and the code-level effective-set formula.

module PermissionMatcher {

  /** JavaScript's `s.split(sep)` for a one-character separator: never empty. */
  function Split(s: string, sep: char): (parts: seq<string>)
    ensures |parts| >= 1
    ensures forall i | 0 <= i < |parts| :: sep !in parts[i]
    ensures Join(parts, sep) == s
  {
    if s == "" then [""]
    else
      var rest := Split(s[1..], sep);
      if s[0] == sep then
        assert ([""] + rest)[1..] == rest;
        [""] + rest
      else
        var r := [[s[0]] + rest[0]] + rest[1..];
        assert r[1..] == rest[1..];
        r
  }

  function Join(parts: seq<string>, sep: char): string
    requires |parts| >= 1
  {
    if |parts| == 1 then parts[0] else parts[0] + [sep] + Join(parts[1..], sep)
  }

  /** Splitting a joined list of separator-free parts gives the parts back. */
  lemma {:induction false} SplitJoin(parts: seq<string>, sep: char)
    requires |parts| >= 1
    requires forall i | 0 <= i < |parts| :: sep !in parts[i]
    ensures Split(Join(parts, sep), sep) == parts
    decreases |parts|, |parts[0]|
  {
    var s := Join(parts, sep);
    if parts[0] == "" {
      if |parts| > 1 {
        assert s[1..] == Join(parts[1..], sep);
        SplitJoin(parts[1..], sep);
        assert parts == [""] + parts[1..];
      }
    } else {
      var shorter := [parts[0][1..]] + parts[1..];
      assert shorter[1..] == parts[1..];
      assert s[0] == parts[0][0] && s[0] in parts[0];
      assert s[1..] == Join(shorter, sep);
      SplitJoin(shorter, sep);
      assert [s[0]] + shorter[0] == parts[0];
      assert parts == [[s[0]] + shorter[0]] + shorter[1..];
    }
  }

  /** Drops every leading dot: the matcher loop skips leading empty segments. */
  function StripDots(s: string): (t: string)
    ensures t == "" || t[0] != '.'
    ensures s != "" && s[0] != '.' ==> t == s
  {
    if s != "" && s[0] == '.' then StripDots(s[1..]) else s
  }

  /**
   * What it means for one held code to grant a required code: a global wildcard,
   * the code itself, or `P.*` where P is the part of the (dot-stripped) required
   * code before one of its dots.
   */
  ghost predicate Covers(held: string, required: string)
  {
    || held == "*.*"
    || held == "*"
    || held == required
    || exists i :: IsWildcardAt(held, StripDots(required), i)
  }

  predicate IsWildcardAt(held: string, code: string, i: int)
  {
    0 <= i < |code| && code[i] == '.' && held == code[..i] + ".*"
  }

  ghost predicate Grants(held: set<string>, required: string)
  {
    exists h :: h in held && Covers(h, required)
  }

  /** The part of `parts` the loop has not consumed, as it follows `current`. */
  function Pending(current: string, parts: seq<string>, i: nat): string
    requires i <= |parts|
  {
    if i == |parts| then ""
    else if current == "" then Join(parts[i..], '.')
    else "." + Join(parts[i..], '.')
  }

  /** What follows part `i` in the joined string. */
  function After(parts: seq<string>, i: nat): string
    requires i < |parts|
  {
    if i + 1 == |parts| then "" else "." + Join(parts[i + 1..], '.')
  }

  lemma Assoc<T>(a: seq<T>, b: seq<T>, c: seq<T>)
    ensures a + (b + c) == (a + b) + c
  {
  }

  lemma JoinRest(parts: seq<string>, i: nat)
    requires i < |parts|
    ensures Join(parts[i..], '.') == parts[i] + After(parts, i)
  {
    var rest := parts[i..];
    assert rest[0] == parts[i] && rest[1..] == parts[i + 1..];
    if i + 1 < |parts| {
      Assoc(parts[i], ".", Join(parts[i + 1..], '.'));
    } else {
      assert parts[i] + "" == parts[i];
    }
  }

  lemma FirstPendingStep(parts: seq<string>, i: nat, code: string)
    requires i < |parts| && '.' !in parts[i] && code == StripDots(Join(parts[i..], '.'))
    ensures parts[i] == "" ==> code == StripDots(Pending("", parts, i + 1))
    ensures parts[i] != "" ==> code == parts[i] + Pending(parts[i], parts, i + 1)
  {
    JoinRest(parts, i);
    var rest := Join(parts[i..], '.');
    if parts[i] != "" {
      assert rest[0] == parts[i][0] && parts[i][0] in parts[i];
    } else {
      assert rest == After(parts, i);
      if i + 1 < |parts| {
        assert rest[1..] == Join(parts[i + 1..], '.');
      }
    }
  }

  lemma LaterPendingStep(current: string, parts: seq<string>, i: nat, code: string)
    requires i < |parts| && current != "" && code == current + ("." + Join(parts[i..], '.'))
    ensures code == (current + "." + parts[i]) + After(parts, i)
  {
    JoinRest(parts, i);
    Assoc(".", parts[i], After(parts, i));
    Assoc(current, "." + parts[i], After(parts, i));
    Assoc(current, ".", parts[i]);
  }

  /** One turn of the loop keeps `current + pending` equal to the stripped code. */
  lemma PendingStep(current: string, parts: seq<string>, i: nat, code: string)
    requires i < |parts| && '.' !in parts[i]
    requires current == "" ==> code == StripDots(Pending(current, parts, i))
    requires current != "" ==> code == current + Pending(current, parts, i)
    ensures var next := if current == "" then parts[i] else current + "." + parts[i];
            && (next == "" ==> code == StripDots(Pending(next, parts, i + 1)))
            && (next != "" ==> code == next + Pending(next, parts, i + 1))
  {
    if current == "" {
      FirstPendingStep(parts, i, code);
    } else {
      LaterPendingStep(current, parts, i, code);
    }
  }

  /** No wildcard of `code` that ends before position `n` is held. */
  ghost predicate NoneHeldBefore(effective: set<string>, code: string, n: nat)
  {
    forall k | 0 <= k < n && k < |code| && code[k] == '.' :: code[..k] + ".*" !in effective
  }

  lemma NoneHeldStep(effective: set<string>, code: string, current: string, part: string)
    requires '.' !in part
    requires NoneHeldBefore(effective, code, |current|)
    requires current != "" ==> current + ".*" !in effective
    requires (if current == "" then part else current + "." + part) <= code
    ensures NoneHeldBefore(effective, code, |if current == "" then part else current + "." + part|)
  {
    var next := if current == "" then part else current + "." + part;
    var from := if current == "" then 0 else |current| + 1;
    assert forall k | from <= k < |next| :: code[k] == part[k - from] && code[k] != '.';
    assert code[..|current|] == current;
  }

  /** The matcher's loop, for every required code. */
  method HasPermission(effective: set<string>, required: string) returns (granted: bool)
    ensures granted <==> Grants(effective, required)
  {
    if "*.*" in effective {
      assert Covers("*.*", required);
      return true;
    }
    var parts := Split(required, '.');
    ghost var code := StripDots(required);
    var current := "";
    assert parts[0..] == parts;
    for i := 0 to |parts|
      invariant i == 0 ==> current == ""
      invariant current == "" ==> code == StripDots(Pending(current, parts, i))
      invariant current != "" ==> code == current + Pending(current, parts, i)
      invariant i > 0 ==> "*" !in effective
      invariant NoneHeldBefore(effective, code, |current|)
    {
      var wildcard := if current != "" then current + ".*" else "*";
      if wildcard in effective {
        if current != "" {
          assert code[..|current|] == current;
          assert IsWildcardAt(wildcard, code, |current|);
        }
        assert Covers(wildcard, required);
        return true;
      }
      PendingStep(current, parts, i, code);
      ghost var before := current;
      current := if current != "" then current + "." + parts[i] else parts[i];
      NoneHeldStep(effective, code, before, parts[i]);
    }
    assert current == code;
    granted := required in effective;
    if granted {
      assert Covers(required, required);
    }
    assert forall h | h in effective && h != required :: !Covers(h, required);
  }

  lemma {:induction false} StripsDots(dots: string, code: string)
    requires (forall i | 0 <= i < |dots| :: dots[i] == '.') && (code == "" || code[0] != '.')
    ensures StripDots(dots + code) == code
  {
    if dots != "" {
      StripsDots(dots[1..], code);
      assert (dots + code)[1..] == dots[1..] + code;
    } else {
      assert dots + code == code;
    }
  }

  /**
   * What a set grants, by prefixes: everything if it holds a global wildcard, the code
   * itself, and what lies below a held `p.*`. Dots before the code are ignored for that.
   */
  lemma GrantsExactly(held: set<string>, dots: string, code: string)
    requires (forall i | 0 <= i < |dots| :: dots[i] == '.') && (code == "" || code[0] != '.')
    ensures Grants(held, dots + code) <==>
            "*" in held || "*.*" in held || dots + code in held || exists p: string :: p + "." <= code && p + ".*" in held
  {
    StripsDots(dots, code);
    if Grants(held, dots + code) {
      var h :| h in held && Covers(h, dots + code);
      if h != "*" && h != "*.*" && h != dots + code {
        WildcardPrefix(h, code);
      }
    }
    if p: string :| p + "." <= code && p + ".*" in held {
      PrefixIsWildcard(p, code);
      assert Covers(p + ".*", dots + code);
    }
    assert forall h | h in held && (h == "*" || h == "*.*" || h == dots + code) :: Covers(h, dots + code);
  }

  lemma WildcardPrefix(h: string, code: string)
    requires exists i :: IsWildcardAt(h, code, i)
    ensures exists p: string :: p + "." <= code && p + ".*" == h
  {
    var i :| IsWildcardAt(h, code, i);
    assert code[..i] + "." <= code && code[..i] + ".*" == h;
  }

  lemma PrefixIsWildcard(p: string, code: string)
    requires p + "." <= code
    ensures IsWildcardAt(p + ".*", code, |p|)
  {
    assert code[|p|] == (p + ".")[|p|] == '.';
    assert code[..|p|] == (p + ".")[..|p|] == p;
  }

  /** Covering composes: what a held wildcard grants, its grants' grants are too. */
  lemma CoversTransitive(w: string, h: string, required: string)
    requires Covers(w, h) && Covers(h, required)
    ensures Covers(w, required)
  {
    var code := StripDots(required);
    if h == "*.*" || h == "*" {
      GlobalCoveredOnlyByGlobal(w, h);
    } else if h != required {
      var i :| IsWildcardAt(h, code, i);
      assert StripDots(h) == h by { assert h[0] == code[0]; }
      if w != h && w != "*.*" && w != "*" {
        var j :| IsWildcardAt(w, h, j);
        assert j <= i && h[..j] == code[..j];
        assert IsWildcardAt(w, code, j);
      }
    }
  }

  lemma GlobalCoveredOnlyByGlobal(w: string, h: string)
    requires h == "*.*" || h == "*"
    requires Covers(w, h)
    ensures w == "*.*" || w == "*"
  {
    forall i | IsWildcardAt(w, StripDots(h), i)
      ensures w == "*.*"
    {
      assert i == 1 && h[..i] == "*";
    }
  }

  lemma GrantsMonotone(smaller: set<string>, larger: set<string>, required: string)
    requires smaller <= larger && Grants(smaller, required)
    ensures Grants(larger, required)
  {
    var h :| h in smaller && Covers(h, required);
    assert h in larger && Covers(h, required);
  }

  /** `computeEffectivePermissions`: the two `forEach` passes over a copied Set. */
  method ComputeEffectivePermissions(rolePermissions: set<string>, userGrants: set<string>, userDenies: set<string>)
    returns (effective: set<string>)
    ensures effective == (rolePermissions + userGrants) - userDenies
  {
    effective := rolePermissions;
    var grants, denies := userGrants, userDenies;
    while grants != {}
      invariant grants <= userGrants
      invariant effective == rolePermissions + (userGrants - grants)
      decreases grants
    {
      var p :| p in grants;
      effective := effective + {p};
      grants := grants - {p};
    }
    while denies != {}
      invariant denies <= userDenies
      invariant effective == (rolePermissions + userGrants) - (userDenies - denies)
      decreases denies
    {
      var p :| p in denies;
      effective := effective - {p};
      denies := denies - {p};
    }
  }

  /**
   * What a DENY means. The denied code is never in the set, but a request for it
   * is still granted exactly when another code that survived the denies covers it.
   */
  lemma DenyIsExact(roles: set<string>, grants: set<string>, denies: set<string>, code: string)
    requires code in denies
    ensures var effective := (roles + grants) - denies;
            && code !in effective
            && (Grants(effective, code) <==>
                exists w :: w in roles + grants && w !in denies && w != code && Covers(w, code))
  {
    var effective := (roles + grants) - denies;
    if Grants(effective, code) {
      var w :| w in effective && Covers(w, code);
      assert w in roles + grants && w !in denies && w != code;
    }
    if w :| w in roles + grants && w !in denies && w != code && Covers(w, code) {
      assert w in effective;
    }
  }

  /** So a DENY of an exact code does not beat a wildcard the user still holds. */
  lemma DenyDoesNotBeatWildcard()
    ensures var effective := ({"expense.*"} + {}) - {"expense.read"};
            Grants(effective, "expense.read")
  {
    var held, code := "expense.*", "expense.read";
    assert code[..7] == "expense";
    assert IsWildcardAt(held, StripDots(code), 7);
    assert Covers(held, code);
    assert held in ({"expense.*"} + {}) - {"expense.read"} by {
      assert |held| != |code|;
    }
  }
}
