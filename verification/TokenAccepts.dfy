// Which tokens are let through: none from before the process, and every one
// that was tracked, has not expired and that nothing in the run denies.
module TokenAccepts {
  import opened Common
  import opened TokenTracker
  import opened TokenRuns
  import opened TokenTheorems

  /** In every run, claims with no issue time or one before the process started are rejected. */
  lemma {:induction false} EarlierRejected(seconds: int, es: seq<Timed>, now: int, c: Claims)
    requires c.issuedAt.None? || c.issuedAt.value < seconds
    ensures Rejects(Run(Start(seconds), es), c, now)
  {
    StartMax(seconds);
  }

  // ---- Nothing that lasts ----

  /** The run denies the token's id and its family only for times past. */
  ghost predicate Undenied(es: seq<Timed>, jti: string, family: string, now: int) {
    && (forall i :: 0 <= i < |es| && es[i].event == Revoke(jti) ==> es[i].at + 900_000_000_000 < now)
    && (forall i :: 0 <= i < |es| && family != "" && es[i].event == RevokeFamily(family) ==>
          es[i].at + 900_000_000_000 < now)
  }

  /** How many tokens of the user the run tracks. */
  function TracksOf(es: seq<Timed>, user: User): nat {
    if es == [] then 0
    else
      var e := es[|es| - 1].event;
      TracksOf(es[..|es| - 1], user) + (if e.Track? && e.user == user then 1 else 0)
  }

  /** Whatever denies the token or its family in this state has passed by now. */
  ghost predicate Passed(s: State, jti: string, family: string, now: int) {
    && (jti in s.denied ==> s.denied[jti] < now)
    && (family != "" && family in s.families ==> s.families[family] < now)
  }

  /** The token is in its user's list with at most so many behind it. */
  ghost predicate InLine(s: State, t: Issued, later: nat) {
    exists i ::
      0 <= i < |List(s, t.user)| && List(s, t.user)[i] == Entry(t.jti, t.exp) && |List(s, t.user)| - 1 - i <= later
  }

  lemma CleanedPassed(s: State, at: int, jti: string, family: string, now: int)
    requires Passed(s, jti, family, now)
    ensures Passed(Cleaned(s, at), jti, family, now)
  {
    hide ExpiredOf, LiveLists;
  }

  lemma {:induction false} LiveInLine(entries: seq<Entry>, at: int, i: nat) returns (j: nat)
    requires i < |entries| && at < entries[i].exp
    ensures j < |Live(entries, at)| && Live(entries, at)[j] == entries[i]
    ensures |Live(entries, at)| - 1 - j <= |entries| - 1 - i
  {
    var n := |entries| - 1;
    if i == n {
      j := |Live(entries, at)| - 1;
    } else {
      j := LiveInLine(entries[..n], at, i);
    }
  }

  lemma CleanedInLine(s: State, at: int, t: Issued, later: nat)
    requires InLine(s, t, later) && at < t.exp
    ensures InLine(Cleaned(s, at), t, later)
  {
    hide ExpiredOf, Live, Unpassed;
    var i :| 0 <= i < |List(s, t.user)| && List(s, t.user)[i] == Entry(t.jti, t.exp)
      && |List(s, t.user)| - 1 - i <= later;
    var j := LiveInLine(List(s, t.user), at, i);
    assert List(Cleaned(s, at), t.user) == Live(List(s, t.user), at);
  }

  // ---- One event ----

  /** Nobody listed has this id: it was not tracked yet. */
  lemma NotListed(h: seq<Issued>, s: State, user: User, k: nat, jti: string)
    requires ListsInOrder(h, s) && k < |List(s, user)| && forall t :: t in h ==> t.jti != jti
    ensures List(s, user)[k].jti != jti
  {
    hide Position;
    assert user in s.userTokens && InOrder(h, user, s.userTokens[user]);
  }

  /** Another user's list does not hold the token. */
  lemma OthersList(h: seq<Issued>, s: State, user: User, k: nat, t: Issued)
    requires Distinct(h) && ListsInOrder(h, s) && t in h && user != t.user && k < |List(s, user)|
    ensures List(s, user)[k].jti != t.jti
  {
    hide Position;
    var e := List(s, user)[k];
    assert user in s.userTokens && InOrder(h, user, s.userTokens[user]);
    if e.jti == t.jti { SameToken(h, Issued(user, e.jti, e.exp), t); }
  }

  /** Before the token is tracked, no event denies it for long. */
  lemma StepBefore(h: seq<Issued>, s: State, e: Timed, before: int, jti: string, family: string, now: int)
    requires Inv(h, s, before) && before <= e.at && Passed(s, jti, family, now) && Undenied([e], jti, family, now)
    requires forall t :: t in h ==> t.jti != jti
    ensures Passed(Step(s, e), jti, family, now)
  {
    hide Cleaned, Kept, Denials, InOrder;
    assert [e][0] == e;
    match e.event
    case Track(user, _, _) =>
      CleanedPassed(s, e.at, jti, family, now);
      CleanedKept(h, s, before, e.at);
      CleanedMax(s, e.at);
      if List(Cleaned(s, e.at), user) != [] { NotListed(h, Cleaned(s, e.at), user, 0, jti); }
    case RevokeAll(user) =>
      forall k | 0 <= k < |List(s, user)|
        ensures List(s, user)[k].jti != jti
      {
        NotListed(h, s, user, k, jti);
      }
      DenialsAt(s.denied, List(s, user), jti);
    case _ =>
  }

  /** The token is tracked: it is last in line. */
  lemma StepTracked(h: seq<Issued>, s: State, e: Timed, before: int, t: Issued, family: string, now: int)
    requires Inv(h, s, before) && before <= e.at && Passed(s, t.jti, family, now)
    requires e.event == Track(t.user, t.jti, t.exp) && forall o :: o in h ==> o.jti != t.jti
    ensures Passed(Step(s, e), t.jti, family, now) && InLine(Step(s, e), t, 0)
  {
    hide Cleaned, Kept, InOrder;
    var c := Cleaned(s, e.at);
    CleanedPassed(s, e.at, t.jti, family, now);
    CleanedKept(h, s, before, e.at);
    CleanedMax(s, e.at);
    if List(c, t.user) != [] { NotListed(h, c, t.user, 0, t.jti); }
    var after := List(Step(s, e), t.user);
    assert after[|after| - 1] == Entry(t.jti, t.exp);
  }

  /** Later events move it up, and deny it only when twenty of its user's tokens stand behind and before it. */
  lemma StepAfter(h: seq<Issued>, s: State, e: Timed, before: int, t: Issued, family: string, later: nat, now: int)
    requires Inv(h, s, before) && before <= e.at < t.exp && t in h && s.maxTokens == 20
    requires Passed(s, t.jti, family, now) && InLine(s, t, later) && Undenied([e], t.jti, family, now)
    requires e.event != RevokeAll(t.user) && (e.event.Track? ==> e.event.jti != t.jti)
    requires e.event.Track? && e.event.user == t.user ==> later < 19
    ensures Passed(Step(s, e), t.jti, family, now)
    ensures InLine(Step(s, e), t, if e.event.Track? && e.event.user == t.user then later + 1 else later)
  {
    hide Cleaned, Kept, Denials, InOrder, InLine;
    assert [e][0] == e;
    match e.event
    case Track(user, jti, exp) => TrackAfter(h, s, e, before, t, family, later, now);
    case RevokeAll(user) =>
      forall k | 0 <= k < |List(s, user)|
        ensures List(s, user)[k].jti != t.jti
      {
        OthersList(h, s, user, k, t);
      }
      DenialsAt(s.denied, List(s, user), t.jti);
      SameLine(s, AllRevoked(s, user), t, later);
    case Revoke(jti) => SameLine(s, Revoked(s, jti, e.at), t, later);
    case RevokeFamily(f) => SameLine(s, FamilyRevoked(s, f, e.at), t, later);
    case Check(c) => SameLine(s, Checked(s, c, e.at), t, later);
  }

  lemma SameLine(s: State, s': State, t: Issued, later: nat)
    requires InLine(s, t, later) && List(s', t.user) == List(s, t.user)
    ensures InLine(s', t, later)
  {
  }

  lemma TrackAfter(h: seq<Issued>, s: State, e: Timed, before: int, t: Issued, family: string, later: nat, now: int)
    requires Inv(h, s, before) && before <= e.at < t.exp && t in h && s.maxTokens == 20
    requires Passed(s, t.jti, family, now) && InLine(s, t, later) && e.event.Track? && e.event.jti != t.jti
    requires e.event.user == t.user ==> later < 19
    ensures Passed(Step(s, e), t.jti, family, now)
    ensures InLine(Step(s, e), t, if e.event.user == t.user then later + 1 else later)
  {
    hide Cleaned, Kept;
    var c, user := Cleaned(s, e.at), e.event.user;
    CleanedPassed(s, e.at, t.jti, family, now);
    CleanedInLine(s, e.at, t, later);
    CleanedKept(h, s, before, e.at);
    CleanedMax(s, e.at);
    var entries := List(c, user);
    if user != t.user {
      if entries != [] { OthersList(h, c, user, 0, t); }
      SameLine(c, Step(s, e), t, later);
    } else {
      var i :| 0 <= i < |entries| && entries[i] == Entry(t.jti, t.exp) && |entries| - 1 - i <= later;
      InvOrder(h, c, e.at, user);
      var after := List(Step(s, e), user);
      if |entries| >= 20 {
        assert Position(h, entries[0].jti) < Position(h, entries[i].jti);
        assert after[i - 1] == entries[i];
      } else {
        assert after[i] == entries[i];
      }
    }
  }

  // ---- Whole runs ----

  lemma UndeniedPrefix(es: seq<Timed>, n: nat, jti: string, family: string, now: int)
    requires Undenied(es, jti, family, now) && n < |es|
    ensures Undenied(es[..n], jti, family, now) && Undenied([es[n]], jti, family, now)
  {
  }

  lemma LastToken(es: seq<Timed>)
    requires es != []
    ensures var n, e := |es| - 1, es[|es| - 1].event;
            Tokens(es) == if e.Track? then Tokens(es[..n]) + [Issued(e.user, e.jti, e.exp)] else Tokens(es[..n])
  {
  }

  /** A run that tracks no token of this id denies it only for times past. */
  lemma {:induction false} PassedBefore(seconds: int, es: seq<Timed>, start: int, jti: string, family: string, now: int)
    requires Good(es) && (es != [] ==> start <= es[0].at) && Undenied(es, jti, family, now)
    requires forall t :: t in Tokens(es) ==> t.jti != jti
    ensures Passed(Run(Start(seconds), es), jti, family, now)
  {
    hide Good, Inv, Passed, Step, Undenied;
    if es == [] {
      StartPassed(seconds, jti, family, now);
    } else {
      var n := |es| - 1;
      GoodPrefix(es, n);
      UndeniedPrefix(es, n, jti, family, now);
      LastToken(es);
      hide Tokens;
      StartMax(seconds);
      TimesOrdered(es, n + 1, start);
      assert es[..n + 1] == es;
      PassedBefore(seconds, es[..n], start, jti, family, now);
      RunKeeps(seconds, es[..n], start);
      StepBefore(Tokens(es[..n]), Run(Start(seconds), es[..n]), es[n], LastTime(es[..n], start), jti, family, now);
    }
  }

  lemma StartPassed(seconds: int, jti: string, family: string, now: int)
    ensures Passed(Start(seconds), jti, family, now)
  {
  }

  /** From the event that tracked it on, the token stays in line. */
  lemma {:induction false} StaysInLine(seconds: int, es: seq<Timed>, k: nat, start: int, t: Issued, family: string,
    now: int)
    requires Good(es) && k < |es| && start <= es[0].at && es[k].event == Track(t.user, t.jti, t.exp)
    requires Undenied(es, t.jti, family, now) && LastTime(es, start) <= now < t.exp
    requires forall i :: k < i < |es| ==> es[i].event != RevokeAll(t.user)
    requires TracksOf(es[k + 1..], t.user) <= 19
    ensures Passed(Run(Start(seconds), es), t.jti, family, now)
    ensures InLine(Run(Start(seconds), es), t, TracksOf(es[k + 1..], t.user)) && t in Tokens(es)
    decreases |es|
  {
    hide Inv, Passed, InLine, Step, Undenied, Kept;
    var n := |es| - 1;
    var prefix, last := es[..n], es[n];
    GoodPrefix(es, n);
    UndeniedPrefix(es, n, t.jti, family, now);
    LastToken(es);
    StartMax(seconds);
    TimesOrdered(es, n + 1, start);
    assert es[..n + 1] == es;
    RunKeeps(seconds, prefix, start);
    if k == n {
      FreshId(Tokens(prefix), t);
      PassedBefore(seconds, prefix, start, t.jti, family, now);
      StepTracked(Tokens(prefix), Run(Start(seconds), prefix), last, LastTime(prefix, start), t, family, now);
      assert es[k + 1..] == [];
    } else {
      OneMoreTrack(es, k, t.user);
      StaysInLine(seconds, prefix, k, start, t, family, now);
      if last.event.Track? { OtherId(Tokens(prefix), t, Issued(last.event.user, last.event.jti, last.event.exp)); }
      hide Good, Tokens, TracksOf;
      StepAfter(Tokens(prefix), Run(Start(seconds), prefix), last, LastTime(prefix, start), t, family,
        TracksOf(prefix[k + 1..], t.user), now);
    }
  }

  lemma OneMoreTrack(es: seq<Timed>, k: nat, user: User)
    requires k < |es| - 1
    ensures var n := |es| - 1;
            TracksOf(es[k + 1..], user)
            == TracksOf(es[..n][k + 1..], user) + if es[n].event.Track? && es[n].event.user == user then 1 else 0
  {
    var n := |es| - 1;
    assert es[k + 1..][..n - k - 1] == es[..n][k + 1..] && es[k + 1..][n - k - 1] == es[n];
  }

  lemma FreshId(h: seq<Issued>, t: Issued)
    requires Distinct(h + [t])
    ensures forall o :: o in h ==> o.jti != t.jti
  {
    forall o | o in h
      ensures o.jti != t.jti
    {
      var i :| 0 <= i < |h| && h[i] == o;
      assert (h + [t])[i] == o && (h + [t])[|h|] == t;
    }
  }

  lemma OtherId(h: seq<Issued>, t: Issued, next: Issued)
    requires Distinct(h + [next]) && t in h
    ensures next.jti != t.jti
  {
    FreshId(h, next);
  }

  /** A token issued by this process, tracked, not expired, of a user who was not signed out since and had at most
      nineteen tokens tracked after it, with its id and its device session not revoked within the access lifetime,
      is let through. */
  lemma {:induction false} TrackedAccepted(seconds: int, es: seq<Timed>, k: nat, start: int, t: Issued, c: Claims,
    now: int)
    requires Good(es) && k < |es| && start <= es[0].at && es[k].event == Track(t.user, t.jti, t.exp)
    requires c.jti == t.jti && c.issuedAt.Some? && c.issuedAt.value >= seconds
    requires Undenied(es, t.jti, c.family, now) && LastTime(es, start) <= now < t.exp
    requires forall i :: k < i < |es| ==> es[i].event != RevokeAll(t.user)
    requires TracksOf(es[k + 1..], t.user) <= 19
    ensures !Rejects(Run(Start(seconds), es), c, now)
  {
    hide Good, InLine, Undenied, Step;
    StartMax(seconds);
    StaysInLine(seconds, es, k, start, t, c.family, now);
  }

  // ---- Lookups ----

  /** Looking one token up changes no later answer about any token. */
  lemma {:induction false} LookupSilent(s: State, c: Claims, now: int, other: Claims, later: int)
    requires now <= later
    ensures Rejects(Checked(s, c, now), other, later) <==> Rejects(s, other, later)
  {
  }

  /** A lookup that accepts a token leaves no denial of it or of its device session; one of a token that was issued too
      early, or whose session is denied, leaves all as it is. Nothing else is ever touched. */
  lemma {:induction false} LookupForgets(s: State, c: Claims, now: int)
    ensures !Rejects(s, c, now) ==>
              && c.jti !in Checked(s, c, now).denied
              && (c.family != "" ==> c.family !in Checked(s, c, now).families)
    ensures c.issuedAt.None? || c.issuedAt.value < s.validFrom ==> Checked(s, c, now) == s
    ensures c.family != "" && c.family in s.families && now <= s.families[c.family] ==> Checked(s, c, now) == s
    ensures Checked(s, c, now).userTokens == s.userTokens && Checked(s, c, now).denied - {c.jti} == s.denied - {c.jti}
    ensures Checked(s, c, now).families - {c.family} == s.families - {c.family}
    ensures c.family == "" ==> Checked(s, c, now).families == s.families
    ensures c.jti in s.denied && now <= s.denied[c.jti] ==> Checked(s, c, now).denied == s.denied
  {
  }

  /** Signing out the empty device session does nothing; any other denies it for a quarter of an hour. */
  lemma FamilySignedOut(s: State, family: string, now: int)
    ensures FamilyRevoked(s, "", now) == s
    ensures family != "" ==>
            FamilyRevoked(s, family, now) == s.(families := s.families[family := now + 900_000_000_000])
  {
  }
}
