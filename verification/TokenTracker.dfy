// The tracker of issued access tokens: per-user lists with a cap, a deny list
// and denied device sessions, all forgetting what has expired.
module TokenTracker {
  import opened Common

  datatype User = User(id: int)
  datatype Entry = Entry(jti: string, exp: int)

  /** Nanoseconds. */
  const ACCESS_TOKEN_EXPIRY: int := 15 * 60 * 1_000_000_000
  const MAX_REFRESH_FAMILIES: nat := 20

  datatype State = State(maxTokens: nat, userTokens: map<User, seq<Entry>>, denied: map<string, int>,
    families: map<string, int>, validFrom: int)

  /** issuedAt in seconds, when the token says. */
  datatype Claims = Claims(jti: string, family: string, issuedAt: Option<int>)

  function List(s: State, user: User): seq<Entry> {
    if user in s.userTokens then s.userTokens[user] else []
  }

  // ---- Forgetting what has expired ----

  function Live(entries: seq<Entry>, now: int): (r: seq<Entry>)
    ensures |r| <= |entries|
  {
    if entries == [] then []
    else
      var e := entries[|entries| - 1];
      Live(entries[..|entries| - 1], now) + (if e.exp > now then [e] else [])
  }

  function ExpiredIn(entries: seq<Entry>, now: int): set<string> {
    set i | 0 <= i < |entries| && !(entries[i].exp > now) :: entries[i].jti
  }

  function ExpiredOf(m: map<User, seq<Entry>>, users: set<User>, now: int): set<string>
    requires users <= m.Keys
  {
    set u, j | u in users && j in ExpiredIn(m[u], now) :: j
  }

  /** Entries whose time has not passed. */
  function Unpassed(m: map<string, int>, now: int): map<string, int> {
    map k | k in m && !(now > m[k]) :: m[k]
  }

  function LiveLists(m: map<User, seq<Entry>>, now: int): map<User, seq<Entry>> {
    map u | u in m && Live(m[u], now) != [] :: Live(m[u], now)
  }

  function Cleaned(s: State, now: int): State {
    s.(userTokens := LiveLists(s.userTokens, now),
       denied := Unpassed(s.denied - ExpiredOf(s.userTokens, s.userTokens.Keys, now), now),
       families := Unpassed(s.families, now))
  }

  // ---- The operations as functions of the state ----

  function Tracked(s: State, user: User, jti: string, exp: int, now: int): State
    requires s.maxTokens > 0
  {
    var c := Cleaned(s, now);
    var entries := List(c, user);
    if |entries| >= s.maxTokens then
      c.(denied := c.denied[entries[0].jti := entries[0].exp],
        userTokens := c.userTokens[user := entries[1..] + [Entry(jti, exp)]])
    else c.(userTokens := c.userTokens[user := entries + [Entry(jti, exp)]])
  }

  function Revoked(s: State, jti: string, now: int): State {
    s.(denied := s.denied[jti := now + ACCESS_TOKEN_EXPIRY])
  }

  function FamilyRevoked(s: State, family: string, now: int): State {
    if family == "" then s else s.(families := s.families[family := now + ACCESS_TOKEN_EXPIRY])
  }

  function Denials(denied: map<string, int>, entries: seq<Entry>): map<string, int> {
    if entries == [] then denied
    else var e := entries[|entries| - 1]; Denials(denied, entries[..|entries| - 1])[e.jti := e.exp]
  }

  function AllRevoked(s: State, user: User): State {
    s.(denied := Denials(s.denied, List(s, user)), userTokens := s.userTokens - {user})
  }

  predicate IsDenied(m: map<string, int>, key: string, now: int) {
    key in m && !(now > m[key])
  }

  function Forgotten(m: map<string, int>, key: string, now: int): map<string, int> {
    if key in m && now > m[key] then m - {key} else m
  }

  predicate Rejects(s: State, c: Claims, now: int) {
    || c.issuedAt.None? || c.issuedAt.value < s.validFrom
    || (c.family != "" && IsDenied(s.families, c.family, now))
    || IsDenied(s.denied, c.jti, now)
  }

  /** Looking a token up forgets the denials it finds past their time. */
  function Checked(s: State, c: Claims, now: int): State {
    if c.issuedAt.None? || c.issuedAt.value < s.validFrom then s
    else if c.family != "" && IsDenied(s.families, c.family, now) then s
    else
      s.(families := if c.family != "" then Forgotten(s.families, c.family, now)
         else s.families, denied := Forgotten(s.denied, c.jti, now))
  }

  // ---- The tracker ----

  class TokenTracker {
    var maxTokens: nat
    var userTokens: map<User, seq<Entry>>
    var denied: map<string, int>
    var deniedFamilies: map<string, int>
    var validFrom: int

    ghost function Contents(): State
      reads this
    {
      State(maxTokens, userTokens, denied, deniedFamilies, validFrom)
    }

    constructor (nowSeconds: int)
      ensures Contents() == State(MAX_REFRESH_FAMILIES, map[], map[], map[], nowSeconds)
    {
      maxTokens, userTokens, denied, deniedFamilies, validFrom := MAX_REFRESH_FAMILIES, map[], map[], map[], nowSeconds;
    }

    method Track(userID: User, jti: string, expiresAt: int, now: int)
      requires maxTokens > 0
      modifies this
      ensures Contents() == Tracked(old(Contents()), userID, jti, expiresAt, now)
    {
      CleanupLocked(now);
      var entries := if userID in userTokens then userTokens[userID] else [];
      if |entries| >= maxTokens {
        denied := denied[entries[0].jti := entries[0].exp];
        entries := entries[1..];
      }
      userTokens := userTokens[userID := entries + [Entry(jti, expiresAt)]];
    }

    method IsRevoked(jti: string, now: int) returns (revoked: bool)
      modifies this`denied
      ensures revoked == IsDenied(old(denied), jti, now)
      ensures denied == Forgotten(old(denied), jti, now)
    {
      if jti !in denied {
        return false;
      }
      if now > denied[jti] {
        denied := denied - {jti};
        return false;
      }
      return true;
    }

    method FamilyIsRevoked(familyID: string, now: int) returns (revoked: bool)
      modifies this`deniedFamilies
      ensures revoked == IsDenied(old(deniedFamilies), familyID, now)
      ensures deniedFamilies == Forgotten(old(deniedFamilies), familyID, now)
    {
      if familyID !in deniedFamilies {
        return false;
      }
      if now > deniedFamilies[familyID] {
        deniedFamilies := deniedFamilies - {familyID};
        return false;
      }
      return true;
    }

    method RejectsToken(claims: Claims, now: int) returns (rejected: bool)
      modifies this
      ensures rejected == Rejects(old(Contents()), claims, now)
      ensures Contents() == Checked(old(Contents()), claims, now)
    {
      if claims.issuedAt.None? || claims.issuedAt.value < validFrom {
        return true;
      }
      if claims.family != "" {
        var revoked := FamilyIsRevoked(claims.family, now);
        if revoked {
          return true;
        }
      }
      rejected := IsRevoked(claims.jti, now);
    }

    method RevokeFamily(familyID: string, now: int)
      modifies this
      ensures Contents() == FamilyRevoked(old(Contents()), familyID, now)
    {
      if familyID == "" {
        return;
      }
      deniedFamilies := deniedFamilies[familyID := now + ACCESS_TOKEN_EXPIRY];
    }

    method Revoke(jti: string, now: int)
      modifies this
      ensures Contents() == Revoked(old(Contents()), jti, now)
    {
      denied := denied[jti := now + ACCESS_TOKEN_EXPIRY];
    }

    method RevokeAllForUser(userID: User)
      modifies this
      ensures Contents() == AllRevoked(old(Contents()), userID)
    {
      var entries := if userID in userTokens then userTokens[userID] else [];
      for i := 0 to |entries|
        invariant denied == Denials(old(denied), entries[..i])
        invariant userTokens == old(userTokens) && deniedFamilies == old(deniedFamilies)
        invariant maxTokens == old(maxTokens) && validFrom == old(validFrom)
      {
        assert entries[..i + 1][..i] == entries[..i];
        denied := denied[entries[i].jti := entries[i].exp];
      }
      assert entries[..|entries|] == entries;
      userTokens := userTokens - {userID};
    }

    /** Drop the expired entries of one list, and their denials. */
    method CleanList(entries: seq<Entry>, now: int) returns (valid: seq<Entry>)
      modifies this`denied
      ensures valid == Live(entries, now)
      ensures denied == old(denied) - ExpiredIn(entries, now)
    {
      valid := [];
      for i := 0 to |entries|
        invariant valid == Live(entries[..i], now)
        invariant denied == old(denied) - ExpiredIn(entries[..i], now)
      {
        var e := entries[i];
        assert entries[..i + 1][..i] == entries[..i];
        ghost var before := ExpiredIn(entries[..i], now);
        ghost var after := ExpiredIn(entries[..i + 1], now);
        ExpiredStep(entries, i, now);
        if e.exp > now {
          valid := valid + [e];
        } else {
          denied := denied - {e.jti};
          assert old(denied) - before - {e.jti} == old(denied) - after;
        }
      }
      assert entries[..|entries|] == entries;
    }

    method CleanupLocked(now: int)
      modifies this
      ensures Contents() == Cleaned(old(Contents()), now)
    {
      hide Live, ExpiredIn, ExpiredOf, LiveLists, Unpassed;
      var todo := userTokens.Keys;
      ghost var m := userTokens;
      NothingCleaned(m, now);
      while todo != {}
        invariant todo <= m.Keys
        invariant PartlyClean(m, userTokens, todo, now)
        invariant denied == old(denied) - ExpiredOf(m, m.Keys - todo, now)
        invariant deniedFamilies == old(deniedFamilies) && maxTokens == old(maxTokens) && validFrom == old(validFrom)
        decreases todo
      {
        var uid :| uid in todo;
        ghost var before, lists := denied, userTokens;
        var valid := CleanList(userTokens[uid], now);
        if |valid| == 0 {
          userTokens := userTokens - {uid};
        } else {
          userTokens := userTokens[uid := valid];
        }
        CleanStep(m, lists, userTokens, todo, uid, now);
        ExpiredMore(m, m.Keys - (todo - {uid}), uid, now);
        assert m.Keys - (todo - {uid}) - {uid} == m.Keys - todo;
        TwiceWithout(old(denied), ExpiredOf(m, m.Keys - todo, now), ExpiredIn(m[uid], now));
        todo := todo - {uid};
      }
      assert m.Keys - todo == m.Keys;
      AllClean(m, userTokens, now);
      denied := RemovePassed(denied, now);
      deniedFamilies := RemovePassed(deniedFamilies, now);
    }
  }

  method RemovePassed(m: map<string, int>, now: int) returns (r: map<string, int>)
    ensures r == Unpassed(m, now)
  {
    r := m;
    var todo := m.Keys;
    while todo != {}
      invariant todo <= m.Keys
      invariant forall k :: k in r <==> k in m && (k in todo || !(now > m[k]))
      invariant forall k :: k in r ==> r[k] == m[k]
      decreases todo
    {
      var k :| k in todo;
      if now > m[k] {
        r := r - {k};
      }
      todo := todo - {k};
    }
  }

  /** The lists of every user but those in todo have been cleaned. */
  ghost predicate PartlyClean(m: map<User, seq<Entry>>, lists: map<User, seq<Entry>>, todo: set<User>, now: int) {
    && (forall u :: u in lists ==> u in m)
    && (forall u :: u in todo && u in m ==> u in lists && lists[u] == m[u])
    && (forall u :: u in m && u !in todo ==>
         (u in lists <==> Live(m[u], now) != []) && (u in lists ==> lists[u] == Live(m[u], now)))
  }

  lemma NothingCleaned(m: map<User, seq<Entry>>, now: int)
    ensures PartlyClean(m, m, m.Keys, now) && ExpiredOf(m, m.Keys - m.Keys, now) == {}
  {
  }

  lemma CleanStep(m: map<User, seq<Entry>>, lists: map<User, seq<Entry>>, lists': map<User, seq<Entry>>,
    todo: set<User>, u: User, now: int)
    requires PartlyClean(m, lists, todo, now) && u in todo && u in m
    requires lists' == if Live(m[u], now) == [] then lists - {u} else lists[u := Live(m[u], now)]
    ensures PartlyClean(m, lists', todo - {u}, now)
  {
    hide Live;
  }

  lemma AllClean(m: map<User, seq<Entry>>, lists: map<User, seq<Entry>>, now: int)
    requires PartlyClean(m, lists, {}, now)
    ensures lists == LiveLists(m, now)
  {
    hide Live;
  }

  lemma TwiceWithout(m: map<string, int>, a: set<string>, b: set<string>)
    ensures m - a - b == m - (a + b)
  {
  }

  lemma ExpiredStep(entries: seq<Entry>, i: nat, now: int)
    requires i < |entries|
    ensures ExpiredIn(entries[..i + 1], now)
            == ExpiredIn(entries[..i], now) + (if entries[i].exp > now then {} else {entries[i].jti})
  {
    var before, after := entries[..i], entries[..i + 1];
    forall j | j in ExpiredIn(before, now) + (if entries[i].exp > now then {} else {entries[i].jti})
      ensures j in ExpiredIn(after, now)
    {
      if j in ExpiredIn(before, now) {
        var k :| 0 <= k < |before| && !(before[k].exp > now) && before[k].jti == j;
        assert after[k] == before[k];
      } else {
        assert after[i] == entries[i];
      }
    }
  }

  lemma ExpiredMore(m: map<User, seq<Entry>>, users: set<User>, u: User, now: int)
    requires users <= m.Keys && u in users
    ensures ExpiredOf(m, users, now) == ExpiredOf(m, users - {u}, now) + ExpiredIn(m[u], now)
  {
  }
}
