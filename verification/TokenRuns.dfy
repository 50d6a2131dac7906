// Every run of the token tracker: no tracked token is ever lost, a revoked
// token stays rejected until it expires, and each user has at most MaxTokens
// tokens that still work.
module TokenRuns {
  import opened Common
  import opened TokenTracker

  datatype Event =
    | Track(user: User, jti: string, exp: int)
    | Revoke(id: string)
    | RevokeFamily(family: string)
    | RevokeAll(owner: User)
    | Check(claims: Claims)

  datatype Timed = Timed(at: int, event: Event)

  /** A token the tracker was told of. */
  datatype Issued = Issued(user: User, jti: string, exp: int)

  function Step(s: State, e: Timed): State
    requires s.maxTokens > 0
  {
    match e.event
    case Track(user, jti, exp) => Tracked(s, user, jti, exp, e.at)
    case Revoke(jti) => Revoked(s, jti, e.at)
    case RevokeFamily(family) => FamilyRevoked(s, family, e.at)
    case RevokeAll(user) => AllRevoked(s, user)
    case Check(claims) => Checked(s, claims, e.at)
  }

  function Run(s: State, es: seq<Timed>): (r: State)
    requires s.maxTokens > 0
    ensures r.maxTokens == s.maxTokens && r.validFrom == s.validFrom
  {
    if es == [] then s else Step(Run(s, es[..|es| - 1]), es[|es| - 1])
  }

  /** The tokens tracked in a run, oldest first. */
  function Tokens(es: seq<Timed>): seq<Issued> {
    if es == [] then []
    else
      var e := es[|es| - 1].event;
      Tokens(es[..|es| - 1]) + (if e.Track? then [Issued(e.user, e.jti, e.exp)] else [])
  }

  ghost predicate Distinct(h: seq<Issued>) {
    forall i, j :: 0 <= i < j < |h| ==> h[i].jti != h[j].jti
  }

  /** A clock that does not go back, tokens that live at most the access lifetime, and a fresh id each. */
  ghost predicate Good(es: seq<Timed>) {
    && (forall i, j :: 0 <= i < j < |es| ==> es[i].at <= es[j].at)
    && (forall i :: 0 <= i < |es| && es[i].event.Track? ==> es[i].event.exp <= es[i].at + ACCESS_TOKEN_EXPIRY)
    && Distinct(Tokens(es))
  }

  function Start(seconds: int): State {
    State(MAX_REFRESH_FAMILIES, map[], map[], map[], seconds)
  }

  // ---- The invariant ----

  ghost predicate Listed(s: State, t: Issued) {
    Entry(t.jti, t.exp) in List(s, t.user)
  }

  ghost predicate DeniedUntil(s: State, jti: string, exp: int) {
    jti in s.denied && s.denied[jti] >= exp
  }

  ghost predicate Kept(h: seq<Issued>, s: State, now: int) {
    forall i :: 0 <= i < |h| && now < h[i].exp ==> Listed(s, h[i]) || DeniedUntil(s, h[i].jti, h[i].exp)
  }

  /** Where in h the token with this id is. */
  function Position(h: seq<Issued>, jti: string): nat {
    if h == [] || h[0].jti == jti then 0 else 1 + Position(h[1..], jti)
  }

  /** A user's list holds tokens of that user in the order they were tracked. */
  ghost predicate InOrder(h: seq<Issued>, user: User, entries: seq<Entry>) {
    && (forall k :: 0 <= k < |entries| ==> Issued(user, entries[k].jti, entries[k].exp) in h)
    && (forall k, l :: 0 <= k < l < |entries| ==> Position(h, entries[k].jti) < Position(h, entries[l].jti))
  }

  ghost predicate ListsInOrder(h: seq<Issued>, s: State) {
    forall u :: u in s.userTokens ==> InOrder(h, u, s.userTokens[u]) && |s.userTokens[u]| <= s.maxTokens
  }

  ghost predicate Inv(h: seq<Issued>, s: State, now: int) {
    Distinct(h) && s.maxTokens > 0 && Kept(h, s, now) && ListsInOrder(h, s)
  }

  // ---- Small facts ----

  /** In a history of distinct ids an id has one expiry. */
  lemma SameToken(h: seq<Issued>, a: Issued, b: Issued)
    requires Distinct(h) && a in h && b in h && a.jti == b.jti
    ensures a == b
  {
  }

  lemma {:induction false} PositionIs(h: seq<Issued>, i: nat)
    requires Distinct(h) && i < |h|
    ensures Position(h, h[i].jti) == i
  {
    if i > 0 {
      PositionIs(h[1..], i - 1);
    }
  }

  lemma {:induction false} PositionKept(h: seq<Issued>, t: Issued, more: seq<Issued>)
    requires t in h
    ensures Position(h + more, t.jti) == Position(h, t.jti) < |h|
  {
    if h[0].jti != t.jti {
      assert (h + more)[1..] == h[1..] + more;
      PositionKept(h[1..], t, more);
    }
  }

  lemma {:induction false} LiveIn(entries: seq<Entry>, now: int, e: Entry)
    ensures e in Live(entries, now) <==> e in entries && e.exp > now
  {
    if entries != [] {
      var n := |entries| - 1;
      LiveIn(entries[..n], now, e);
      assert entries == entries[..n] + [entries[n]];
    }
  }

  lemma {:induction false} LiveInOrder(h: seq<Issued>, u: User, entries: seq<Entry>, now: int)
    requires InOrder(h, u, entries)
    ensures InOrder(h, u, Live(entries, now))
  {
    if entries != [] {
      hide Position, InOrder;
      var n := |entries| - 1;
      LastAfter(h, u, entries);
      LiveInOrder(h, u, entries[..n], now);
      if entries[n].exp > now {
        forall e | e in Live(entries[..n], now)
          ensures Position(h, e.jti) < Position(h, entries[n].jti)
        {
          LiveIn(entries[..n], now, e);
        }
        OrderAppend(h, u, Live(entries[..n], now), entries[n]);
      }
    }
  }

  lemma LastAfter(h: seq<Issued>, u: User, entries: seq<Entry>)
    requires InOrder(h, u, entries) && entries != []
    ensures var n := |entries| - 1;
            && InOrder(h, u, entries[..n]) && Issued(u, entries[n].jti, entries[n].exp) in h
            && (forall e :: e in entries[..n] ==> Position(h, e.jti) < Position(h, entries[n].jti))
  {
    hide Position;
  }

  lemma OrderAppend(h: seq<Issued>, u: User, entries: seq<Entry>, e: Entry)
    requires InOrder(h, u, entries) && Issued(u, e.jti, e.exp) in h
    requires forall o :: o in entries ==> Position(h, o.jti) < Position(h, e.jti)
    ensures InOrder(h, u, entries + [e])
  {
    hide Position;
  }

  // ---- Cleaning keeps the invariant ----

  lemma CleanedLists(h: seq<Issued>, s: State, now: int)
    requires ListsInOrder(h, s)
    ensures ListsInOrder(h, Cleaned(s, now))
  {
    hide InOrder, ExpiredOf;
    forall u | u in Cleaned(s, now).userTokens
      ensures InOrder(h, u, Cleaned(s, now).userTokens[u])
    {
      LiveInOrder(h, u, s.userTokens[u], now);
    }
  }

  /** A token that has not expired is not among the expired entries. */
  lemma NotExpired(h: seq<Issued>, s: State, now: int, t: Issued)
    requires Distinct(h) && ListsInOrder(h, s) && t in h && now < t.exp
    ensures t.jti !in ExpiredOf(s.userTokens, s.userTokens.Keys, now)
  {
    forall u, k | u in s.userTokens && 0 <= k < |s.userTokens[u]| && s.userTokens[u][k].jti == t.jti
      ensures s.userTokens[u][k].exp > now
    {
      SameToken(h, t, Issued(u, t.jti, s.userTokens[u][k].exp));
    }
  }

  /** Cleaning forgets a denial only when its token or its time has run out. */
  lemma CleanedDenial(h: seq<Issued>, s: State, now: int, t: Issued)
    requires Distinct(h) && ListsInOrder(h, s) && t in h && now < t.exp
    ensures DeniedUntil(s, t.jti, t.exp) ==> DeniedUntil(Cleaned(s, now), t.jti, t.exp)
  {
    NotExpired(h, s, now, t);
    hide ExpiredOf;
  }

  lemma CleanedKept(h: seq<Issued>, s: State, before: int, now: int)
    requires Inv(h, s, before) && before <= now
    ensures Inv(h, Cleaned(s, now), now)
  {
    hide ExpiredOf, InOrder;
    CleanedLists(h, s, now);
    forall i | 0 <= i < |h| && now < h[i].exp
      ensures Listed(Cleaned(s, now), h[i]) || DeniedUntil(Cleaned(s, now), h[i].jti, h[i].exp)
    {
      var t := h[i];
      CleanedDenial(h, s, now, t);
      LiveIn(List(s, t.user), now, Entry(t.jti, t.exp));
    }
  }

  // ---- Each operation keeps the invariant ----

  lemma InOrderMore(h: seq<Issued>, u: User, entries: seq<Entry>, t: Issued)
    requires InOrder(h, u, entries)
    ensures InOrder(h + [t], u, entries)
  {
    forall k | 0 <= k < |entries|
      ensures Position(h + [t], entries[k].jti) == Position(h, entries[k].jti)
      ensures Issued(u, entries[k].jti, entries[k].exp) in h + [t]
    {
      PositionKept(h, Issued(u, entries[k].jti, entries[k].exp), [t]);
    }
  }

  lemma InOrderAppended(h: seq<Issued>, u: User, entries: seq<Entry>, t: Issued)
    requires InOrder(h, u, entries) && Distinct(h + [t]) && t.user == u
    ensures InOrder(h + [t], u, entries + [Entry(t.jti, t.exp)])
  {
    InOrderMore(h, u, entries, t);
    PositionIs(h + [t], |h|);
    forall k | 0 <= k < |entries|
      ensures Position(h + [t], entries[k].jti) < |h|
    {
      PositionKept(h, Issued(u, entries[k].jti, entries[k].exp), [t]);
    }
  }

  lemma TrackKeeps(h: seq<Issued>, s: State, before: int, now: int, t: Issued)
    requires Inv(h, s, before) && before <= now && Distinct(h + [t])
    ensures Inv(h + [t], Tracked(s, t.user, t.jti, t.exp, now), now)
  {
    hide Cleaned, InOrder;
    var c, s', h' := Cleaned(s, now), Tracked(s, t.user, t.jti, t.exp, now), h + [t];
    CleanedKept(h, s, before, now);
    assert c.maxTokens == s.maxTokens by { CleanedMax(s, now); }
    var entries := List(c, t.user);
    TailInOrder(h, t.user, entries);
    var left := if |entries| >= s.maxTokens then entries[1..] else entries;
    InOrderAppended(h, t.user, left, t);
    forall u | u in s'.userTokens
      ensures InOrder(h', u, s'.userTokens[u]) && |s'.userTokens[u]| <= s'.maxTokens
    {
      if u != t.user {
        InOrderMore(h, u, c.userTokens[u], t);
      }
    }
    forall i | 0 <= i < |h'| && now < h'[i].exp
      ensures Listed(s', h'[i]) || DeniedUntil(s', h'[i].jti, h'[i].exp)
    {
      if i == |h| {
        assert s'.userTokens[t.user][|left|] == Entry(t.jti, t.exp);
      } else {
        TrackKeepsOne(h, c, s', t, h[i]);
      }
    }
  }

  lemma CleanedMax(s: State, now: int)
    ensures Cleaned(s, now).maxTokens == s.maxTokens
  {
  }

  lemma TailInOrder(h: seq<Issued>, u: User, entries: seq<Entry>)
    ensures InOrder(h, u, []) && (InOrder(h, u, entries) && entries != [] ==> InOrder(h, u, entries[1..]))
  {
  }

  lemma TrackKeepsOne(h: seq<Issued>, c: State, s': State, t: Issued, o: Issued)
    requires Distinct(h) && ListsInOrder(h, c) && c.maxTokens > 0 && o in h
    requires Listed(c, o) || DeniedUntil(c, o.jti, o.exp)
    requires var entries := List(c, t.user);
             s' == if |entries| >= c.maxTokens then
                     c.(denied := c.denied[entries[0].jti := entries[0].exp],
                        userTokens := c.userTokens[t.user := entries[1..] + [Entry(t.jti, t.exp)]])
                   else c.(userTokens := c.userTokens[t.user := entries + [Entry(t.jti, t.exp)]])
    ensures Listed(s', o) || DeniedUntil(s', o.jti, o.exp)
  {
    var entries := List(c, t.user);
    if |entries| >= c.maxTokens {
      var oldest := Issued(t.user, entries[0].jti, entries[0].exp);
      if oldest.jti == o.jti {
        SameToken(h, oldest, o);
      } else if Listed(c, o) && o.user == t.user {
        assert entries == [entries[0]] + entries[1..];
      }
    }
  }

  lemma {:induction false} DenialsAt(denied: map<string, int>, entries: seq<Entry>, jti: string)
    ensures (exists e :: e in entries && e.jti == jti) ==>
              jti in Denials(denied, entries) && exists e ::
                e in entries && e.jti == jti && Denials(denied, entries)[jti] == e.exp
    ensures (forall e :: e in entries ==> e.jti != jti) ==>
              (jti in Denials(denied, entries) <==> jti in denied)
                && (jti in denied ==> Denials(denied, entries)[jti] == denied[jti])
  {
    if entries != [] {
      var n := |entries| - 1;
      DenialsAt(denied, entries[..n], jti);
      assert entries == entries[..n] + [entries[n]];
      if entries[n].jti == jti {
        assert entries[n] in entries;
      } else if exists e :: e in entries && e.jti == jti {
        var e :| e in entries && e.jti == jti;
        assert e in entries[..n];
      }
    }
  }

  /** Revoking all of a user's tokens denies each listed one until it expires. */
  lemma AllDenied(h: seq<Issued>, s: State, u: User, t: Issued)
    requires Distinct(h) && ListsInOrder(h, s) && t in h
    ensures Listed(s, t) && t.user == u ==> DeniedUntil(AllRevoked(s, u), t.jti, t.exp)
    ensures DeniedUntil(s, t.jti, t.exp) ==> DeniedUntil(AllRevoked(s, u), t.jti, t.exp)
  {
    var entries := List(s, u);
    DenialsAt(s.denied, entries, t.jti);
    var mine := Entry(t.jti, t.exp);
    assert Listed(s, t) && t.user == u ==> mine in entries && mine.jti == t.jti;
    if exists e :: e in entries && e.jti == t.jti {
      var e :| e in entries && e.jti == t.jti && Denials(s.denied, entries)[t.jti] == e.exp;
      var k :| 0 <= k < |entries| && entries[k] == e;
      SameToken(h, t, Issued(u, e.jti, e.exp));
    }
  }

  lemma RevokeAllKeeps(h: seq<Issued>, s: State, before: int, now: int, u: User)
    requires Inv(h, s, before) && before <= now
    ensures Inv(h, AllRevoked(s, u), now)
  {
    hide InOrder, Denials;
    forall i | 0 <= i < |h| && now < h[i].exp
      ensures Listed(AllRevoked(s, u), h[i]) || DeniedUntil(AllRevoked(s, u), h[i].jti, h[i].exp)
    {
      AllDenied(h, s, u, h[i]);
    }
  }

  lemma RevokeKeeps(h: seq<Issued>, s: State, before: int, now: int, jti: string)
    requires Inv(h, s, before) && before <= now
    requires forall i :: 0 <= i < |h| && h[i].jti == jti ==> h[i].exp <= now + ACCESS_TOKEN_EXPIRY
    ensures Inv(h, Revoked(s, jti, now), now)
  {
    hide InOrder;
  }

  lemma CheckKeeps(h: seq<Issued>, s: State, before: int, now: int, c: Claims)
    requires Inv(h, s, before) && before <= now
    ensures Inv(h, Checked(s, c, now), now)
  {
    hide InOrder;
  }

  // ---- Runs ----

  lemma {:induction false} Lifetimes(es: seq<Timed>)
    requires Good(es)
    ensures forall i :: 0 <= i < |Tokens(es)| ==> es != [] && Tokens(es)[i].exp <= es[|es| - 1].at + ACCESS_TOKEN_EXPIRY
  {
    if es != [] {
      GoodPrefix(es, |es| - 1);
      Lifetimes(es[..|es| - 1]);
    }
  }

  lemma {:induction false} TokensPrefix(es: seq<Timed>, k: nat)
    requires k <= |es|
    ensures Tokens(es[..k]) <= Tokens(es)
    decreases |es|
  {
    if k < |es| {
      TokensPrefix(es[..|es| - 1], k);
      assert es[..|es| - 1][..k] == es[..k];
    } else {
      assert es[..k] == es;
    }
  }

  lemma GoodPrefix(es: seq<Timed>, k: nat)
    requires Good(es) && k <= |es|
    ensures Good(es[..k])
  {
    TokensPrefix(es, k);
  }

  function LastTime(es: seq<Timed>, start: int): int {
    if es == [] then start else es[|es| - 1].at
  }

  /** In every run each tracked, unexpired token is listed for its user or denied at least until it expires. */
  lemma {:induction false} RunKeeps(seconds: int, es: seq<Timed>, start: int)
    requires Good(es) && (es != [] ==> start <= es[0].at)
    ensures Inv(Tokens(es), Run(Start(seconds), es), LastTime(es, start))
  {
    hide Kept, ListsInOrder, Tracked, Revoked, AllRevoked, Checked, FamilyRevoked;
    if es == [] {
      StartsEmpty(seconds, start);
    } else {
      var n := |es| - 1;
      GoodPrefix(es, n);
      RunKeeps(seconds, es[..n], start);
      var s, h, before := Run(Start(seconds), es[..n]), Tokens(es[..n]), LastTime(es[..n], start);
      assert before <= es[n].at;
      assert !es[n].event.Track? ==> Tokens(es) == h;
      match es[n].event
      case Track(user, jti, exp) => TrackKeeps(h, s, before, es[n].at, Issued(user, jti, exp));
      case Revoke(jti) =>
        Lifetimes(es);
        RevokeKeeps(h, s, before, es[n].at, jti);
      case RevokeFamily(family) => FamilyKeeps(h, s, before, es[n].at, family);
      case RevokeAll(user) => RevokeAllKeeps(h, s, before, es[n].at, user);
      case Check(claims) => CheckKeeps(h, s, before, es[n].at, claims);
    }
  }

  lemma StartsEmpty(seconds: int, now: int)
    ensures Inv([], Start(seconds), now)
  {
  }

  lemma FamilyKeeps(h: seq<Issued>, s: State, before: int, now: int, family: string)
    requires Inv(h, s, before) && before <= now
    ensures Inv(h, FamilyRevoked(s, family, now), now)
  {
    hide InOrder;
  }

  // ---- Rejected stays rejected ----

  /** No step before a token expires shortens its denial. */
  lemma DenialStep(h: seq<Issued>, s: State, before: int, e: Timed, t: Issued)
    requires Inv(h, s, before) && before <= e.at < t.exp <= e.at + ACCESS_TOKEN_EXPIRY && t in h
    requires DeniedUntil(s, t.jti, t.exp)
    ensures DeniedUntil(Step(s, e), t.jti, t.exp)
  {
    hide Kept, InOrder, ExpiredOf;
    match e.event
    case Track(user, jti, exp) =>
      CleanedDenial(h, s, e.at, t);
      CleanedLists(h, s, e.at);
      TrackDenial(h, Cleaned(s, e.at), user, t);
    case RevokeAll(user) => AllDenied(h, s, user, t);
    case _ =>
  }

  lemma TrackDenial(h: seq<Issued>, c: State, user: User, t: Issued)
    requires Distinct(h) && ListsInOrder(h, c) && t in h && DeniedUntil(c, t.jti, t.exp)
    ensures var entries := List(c, user);
            entries != [] && entries[0].jti == t.jti ==> entries[0].exp == t.exp
  {
    var entries := List(c, user);
    if entries != [] && entries[0].jti == t.jti {
      SameToken(h, t, Issued(user, entries[0].jti, entries[0].exp));
    }
  }

  lemma {:induction false} DenialStays(seconds: int, es: seq<Timed>, k: nat, start: int, t: Issued)
    requires Good(es) && (es != [] ==> start <= es[0].at) && k <= |es| && t in Tokens(es[..k])
    requires DeniedUntil(Run(Start(seconds), es[..k]), t.jti, t.exp)
    requires LastTime(es, start) < t.exp
    ensures DeniedUntil(Run(Start(seconds), es), t.jti, t.exp)
    decreases |es|
  {
    hide Inv, Step, Start;
    if k < |es| {
      var n := |es| - 1;
      var prefix := es[..n];
      GoodPrefix(es, n);
      assert prefix[..k] == es[..k];
      assert LastTime(prefix, start) <= es[n].at;
      assert Start(seconds).maxTokens > 0 by { StartMax(seconds); }
      DenialStays(seconds, prefix, k, start, t);
      TokensPrefix(prefix, k);
      assert t in Tokens(prefix);
      RunKeeps(seconds, prefix, start);
      LifetimeOf(prefix, t);
      DenialStep(Tokens(prefix), Run(Start(seconds), prefix), LastTime(prefix, start), es[n], t);
    } else {
      assert es[..k] == es;
    }
  }

  lemma StartMax(seconds: int)
    ensures Start(seconds).maxTokens > 0
  {
  }

  lemma LifetimeOf(es: seq<Timed>, t: Issued)
    requires Good(es) && t in Tokens(es)
    ensures es != [] && t.exp <= es[|es| - 1].at + ACCESS_TOKEN_EXPIRY
  {
    Lifetimes(es);
  }
}
