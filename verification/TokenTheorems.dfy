// What signing out, disabling and the cap guarantee over every run of the
// token tracker.
module TokenTheorems {
  import opened Common
  import opened TokenTracker
  import opened TokenRuns

  /** After every token of a user is revoked, each token tracked for that user before is rejected until it expires. */
  lemma {:induction false} RevokeAllRejects(seconds: int, es: seq<Timed>, k: nat, start: int, t: Issued, now: int,
    c: Claims)
    requires Good(es) && (es != [] ==> start <= es[0].at) && 0 < k <= |es|
    requires es[k - 1].event == RevokeAll(t.user) && t in Tokens(es[..k - 1])
    requires LastTime(es, start) <= now < t.exp && c.jti == t.jti
    ensures Rejects(Run(Start(seconds), es), c, now)
  {
    hide Inv, AllRevoked, Good, Start;
    var before, after := es[..k - 1], es[..k];
    assert after[..k - 1] == before;
    TimesOrdered(es, k, start);
    GoodPrefix(es, k - 1);
    RunKeeps(seconds, before, start);
    StartMax(seconds);
    StillKept(Tokens(before), Run(Start(seconds), before), LastTime(before, start), t);
    AllDenied(Tokens(before), Run(Start(seconds), before), t.user, t);
    DenialStays(seconds, es, k, start, t);
  }

  lemma TimesOrdered(es: seq<Timed>, k: nat, start: int)
    requires Good(es) && 0 < k <= |es| && start <= es[0].at
    ensures LastTime(es[..k - 1], start) <= LastTime(es[..k], start) <= LastTime(es, start)
    ensures k > 1 ==> start <= es[..k - 1][0].at
  {
    hide Tokens;
  }

  lemma StillKept(h: seq<Issued>, s: State, now: int, t: Issued)
    requires Inv(h, s, now) && t in h && now < t.exp
    ensures Distinct(h) && ListsInOrder(h, s) && (Listed(s, t) || DeniedUntil(s, t.jti, t.exp))
  {
    var i :| 0 <= i < |h| && h[i] == t;
  }

  /** After a token that was tracked is revoked by its id, it is rejected until it expires. */
  lemma {:induction false} RevokeRejects(seconds: int, es: seq<Timed>, k: nat, start: int, t: Issued, now: int,
    c: Claims)
    requires Good(es) && (es != [] ==> start <= es[0].at) && 0 < k <= |es|
    requires es[k - 1].event == Revoke(t.jti) && t in Tokens(es[..k - 1])
    requires LastTime(es, start) <= now < t.exp && c.jti == t.jti
    ensures Rejects(Run(Start(seconds), es), c, now)
  {
    hide Inv, Good, Start;
    var before, after := es[..k - 1], es[..k];
    assert after[..k - 1] == before;
    TimesOrdered(es, k, start);
    GoodPrefix(es, k - 1);
    LifetimeOf(before, t);
    StartMax(seconds);
    DenialStays(seconds, es, k, start, t);
  }

  /** A family's denial outlives every step up to the access lifetime after it. */
  lemma {:induction false} FamilyStays(seconds: int, es: seq<Timed>, k: nat, start: int, family: string, until: int)
    requires Good(es) && (es != [] ==> start <= es[0].at) && k <= |es|
    requires var f := Run(Start(seconds), es[..k]).families; family in f && f[family] >= until
    requires LastTime(es, start) <= until <= (if k == 0 then start else es[k - 1].at) + ACCESS_TOKEN_EXPIRY
    ensures var f := Run(Start(seconds), es).families; family in f && f[family] >= until
    decreases |es|
  {
    hide Start;
    if k < |es| {
      var prefix := es[..|es| - 1];
      assert prefix[..k] == es[..k];
      GoodPrefix(es, |es| - 1);
      StartMax(seconds);
      FamilyStays(seconds, prefix, k, start, family, until);
      FamilyStep(Run(Start(seconds), prefix), es[|es| - 1], family, until);
    } else {
      assert es[..k] == es;
    }
  }

  lemma FamilyStep(s: State, e: Timed, family: string, until: int)
    requires s.maxTokens > 0 && family in s.families && s.families[family] >= until
    requires e.at <= until <= e.at + ACCESS_TOKEN_EXPIRY
    ensures family in Step(s, e).families && Step(s, e).families[family] >= until
  {
    hide ExpiredOf, LiveLists, Denials;
  }

  /** After a device session is signed out, every token of it is rejected for the access lifetime, tracked or not. */
  lemma {:induction false} RevokeFamilyRejects(seconds: int, es: seq<Timed>, k: nat, start: int, now: int, c: Claims)
    requires Good(es) && (es != [] ==> start <= es[0].at) && 0 < k <= |es|
    requires c.family != "" && es[k - 1].event == RevokeFamily(c.family)
    requires LastTime(es, start) <= now <= es[k - 1].at + 900_000_000_000
    ensures Rejects(Run(Start(seconds), es), c, now)
  {
    hide Start, Good;
    StartMax(seconds);
    JustRevoked(Start(seconds), es, k, c.family);
    FamilyStays(seconds, es, k, start, c.family, now);
  }

  lemma JustRevoked(s: State, es: seq<Timed>, k: nat, family: string)
    requires s.maxTokens > 0 && 0 < k <= |es| && family != "" && es[k - 1].event == RevokeFamily(family)
    ensures var f := Run(s, es[..k]).families; family in f && f[family] == es[k - 1].at + ACCESS_TOKEN_EXPIRY
  {
    assert es[..k][..k - 1] == es[..k - 1];
  }

  // ---- The cap ----

  /** The user's tokens that have not expired and are not denied. */
  ghost function Working(h: seq<Issued>, s: State, user: User, now: int): set<Issued> {
    set t | t in h && t.user == user && now < t.exp && !IsDenied(s.denied, t.jti, now)
  }

  function InList(user: User, entries: seq<Entry>): set<Issued> {
    set e | e in entries :: Issued(user, e.jti, e.exp)
  }

  lemma {:induction false} ListSize(user: User, entries: seq<Entry>)
    ensures |InList(user, entries)| <= |entries|
  {
    if entries != [] {
      var n := |entries| - 1;
      ListSize(user, entries[..n]);
      assert entries == entries[..n] + [entries[n]];
      assert InList(user, entries) == InList(user, entries[..n]) + {Issued(user, entries[n].jti, entries[n].exp)};
    }
  }

  lemma WorkingListed(h: seq<Issued>, s: State, before: int, now: int, user: User)
    requires Inv(h, s, before) && before <= now
    ensures Working(h, s, user, now) <= InList(user, List(s, user)) && |List(s, user)| <= s.maxTokens
  {
    forall t | t in Working(h, s, user, now)
      ensures Entry(t.jti, t.exp) in List(s, user)
    {
      StillKept(h, s, before, t);
    }
  }

  /** In every run each user has at most MaxTokens tokens that still work. */
  lemma {:induction false} CapHolds(seconds: int, es: seq<Timed>, start: int, now: int, user: User)
    requires Good(es) && (es != [] ==> start <= es[0].at) && LastTime(es, start) <= now
    ensures |Working(Tokens(es), Run(Start(seconds), es), user, now)| <= 20
  {
    hide Inv, Working;
    StartMax(seconds);
    var s := Run(Start(seconds), es);
    RunKeeps(seconds, es, start);
    WorkingListed(Tokens(es), s, LastTime(es, start), now, user);
    SubsetSize(Working(Tokens(es), s, user, now), InList(user, List(s, user)));
    ListSize(user, List(s, user));
  }

  /** The token denied to make room for a new one was tracked no later than any of the user's tokens that still work,
      and the others stay as they were. */
  lemma {:induction false} EvictsOldest(h: seq<Issued>, s: State, before: int, now: int, user: User, t: Issued,
    jti: string, exp: int)
    requires Inv(h, s, before) && before <= now
    requires var entries := List(Cleaned(s, now), user);
             |entries| >= s.maxTokens && t in Working(h, Cleaned(s, now), user, now)
    ensures var oldest, after := List(Cleaned(s, now), user)[0], Tracked(s, user, jti, exp, now);
            && Position(h, oldest.jti) <= Position(h, t.jti)
            && DeniedUntil(after, oldest.jti, oldest.exp)
            && (t.jti != oldest.jti ==>
                Listed(after, t) && (t.jti in after.denied <==> t.jti in Cleaned(s, now).denied))
  {
    hide Cleaned, Inv, Position;
    CleanedKept(h, s, before, now);
    var c := Cleaned(s, now);
    WorkingListed(h, c, now, now, user);
    InvOrder(h, c, now, user);
    var entries := List(c, user);
    var e :| e in entries && Issued(user, e.jti, e.exp) == t;
    var k :| 0 <= k < |entries| && entries[k] == e;
    if k > 0 { assert entries[1..][k - 1] == e; }
  }

  lemma {:induction false} ListDistinct(h: seq<Issued>, user: User, entries: seq<Entry>)
    requires InOrder(h, user, entries)
    ensures |InList(user, entries)| == |entries|
  {
    if entries != [] {
      var n := |entries| - 1;
      var last := Issued(user, entries[n].jti, entries[n].exp);
      ListDistinct(h, user, entries[..n]);
      assert entries == entries[..n] + [entries[n]];
      assert InList(user, entries) == InList(user, entries[..n]) + {last};
      assert last !in InList(user, entries[..n]);
    }
  }

  /** After cleaning, a listed token works exactly when it is not denied. */
  lemma ListedWorks(h: seq<Issued>, s: State, now: int, user: User, e: Entry)
    requires Inv(h, Cleaned(s, now), now) && e in List(Cleaned(s, now), user)
    ensures Issued(user, e.jti, e.exp) in Working(h, Cleaned(s, now), user, now)
            <==> !IsDenied(Cleaned(s, now).denied, e.jti, now)
  {
    hide Position, ExpiredOf, Kept;
    LiveIn(List(s, user), now, e);
    InvOrder(h, Cleaned(s, now), now, user);
  }

  /** Making room denies a token that works exactly when the head of the list is not denied already; and fewer than
      MaxTokens worked before exactly when some listed token is denied. */
  lemma {:induction false} EvictsEarly(h: seq<Issued>, s: State, before: int, now: int, user: User)
    requires Inv(h, s, before) && before <= now && |List(Cleaned(s, now), user)| >= s.maxTokens
    ensures var c, entries := Cleaned(s, now), List(Cleaned(s, now), user);
            && (Issued(user, entries[0].jti, entries[0].exp) in Working(h, c, user, now)
                <==> !IsDenied(c.denied, entries[0].jti, now))
            && (|Working(h, c, user, now)| < s.maxTokens
                <==> exists k :: 0 <= k < |entries| && IsDenied(c.denied, entries[k].jti, now))
  {
    hide Cleaned, Inv, Position, Working, IsDenied;
    var c := Cleaned(s, now);
    var entries := List(c, user);
    CleanedKept(h, s, before, now);
    CleanedMax(s, now);
    WorkingListed(h, c, now, now, user);
    InvOrder(h, c, now, user);
    ListDistinct(h, user, entries);
    forall k | 0 <= k < |entries|
      ensures Issued(user, entries[k].jti, entries[k].exp) in Working(h, c, user, now)
              <==> !IsDenied(c.denied, entries[k].jti, now)
    {
      ListedWorks(h, s, now, user, entries[k]);
    }
    var working, listed := Working(h, c, user, now), InList(user, entries);
    if k :| 0 <= k < |entries| && IsDenied(c.denied, entries[k].jti, now) {
      var t := Issued(user, entries[k].jti, entries[k].exp);
      assert t in listed && t !in working;
      SubsetSize(working, listed - {t});
    } else {
      assert working == listed;
    }
  }

  lemma InvOrder(h: seq<Issued>, s: State, now: int, user: User)
    requires Inv(h, s, now)
    ensures InOrder(h, user, List(s, user)) && s.maxTokens > 0
  {
  }
}
