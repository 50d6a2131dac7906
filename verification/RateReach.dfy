// Runs that reach the bound on failures, and so exactly which limits keep
// every run within maxFailures.
module RateReach {
  import opened Common
  import opened RateLimiter
  import opened RateRuns
  import opened RateTheorems

  // ---- Putting runs together ----

  /** A run between two instants that pardons nothing. */
  ghost predicate Calm(w: World, es: seq<Timed>, ip: string, from: Time, to: Time) {
    Feasible(w, es) && Ordered(es, from) && Before(es, to + 1) && Unpardoned(w, es, ip)
  }

  lemma {:induction false} Joined(w: World, a: seq<Timed>, b: seq<Timed>, ip: string, from: Time, mid: Time, to: Time)
    requires from <= mid <= to && Calm(w, a, ip, from, mid) && Calm(Run(w, a), b, ip, mid, to)
    ensures Calm(w, a + b, ip, from, to)
    ensures Run(w, a + b) == Run(Run(w, a), b)
            && Failures(w, a + b, ip) == Failures(w, a, ip) + Failures(Run(w, a), b, ip)
    decreases |a|
  {
    hide Step, Enabled, Pardons, FailsFor;
    if a == [] {
      assert a + b == b;
    } else {
      assert (a + b)[0] == a[0] && (a + b)[1..] == a[1..] + b;
      Joined(Step(w, a[0]), a[1..], b, ip, a[0].at, mid, to);
    }
  }

  lemma Single(w: World, e: Timed, ip: string)
    requires Enabled(w, e.event) && !Pardons(w, e.event, ip)
    ensures Calm(w, [e], ip, e.at, e.at) && Run(w, [e]) == Step(w, e)
            && Failures(w, [e], ip) == FailsFor(w, e.event, ip)
  {
    hide Step, Enabled, Pardons, FailsFor;
    var w' := Step(w, e);
    assert [e][1..] == [] && Feasible(w', []) && Unpardoned(w', [], ip) && Ordered([], e.at);
    assert Run(w', []) == w' && Failures(w', [], ip) == 0;
  }

  /** One event, then a run. */
  lemma Prepended(w: World, e: Timed, b: seq<Timed>, ip: string, to: Time)
    requires Enabled(w, e.event) && !Pardons(w, e.event, ip) && e.at <= to && Calm(Step(w, e), b, ip, e.at, to)
    ensures Calm(w, [e] + b, ip, e.at, to)
    ensures Run(w, [e] + b) == Run(Step(w, e), b)
            && Failures(w, [e] + b, ip) == FailsFor(w, e.event, ip) + Failures(Step(w, e), b, ip)
  {
    hide Calm, Feasible, Run, Failures, Step, Enabled, Pardons, FailsFor;
    Single(w, e, ip);
    Joined(w, [e], b, ip, e.at, e.at, to);
  }

  lemma Nothing(w: World, ip: string, now: Time)
    ensures Calm(w, [], ip, now, now) && Run(w, []) == w && Failures(w, [], ip) == 0
  {
  }

  // ---- Attempts of one address, all at one instant ----

  /** While the address is locked, every pending attempt can fail, and the limiter does not notice. */
  lemma {:induction false} FailAll(w: World, ip: string, now: Time) returns (es: seq<Timed>)
    requires now < At(w.limiter, ip).lockedUntil
    ensures Calm(w, es, ip, now, now) && Failures(w, es, ip) == |Pending(w, ip)|
    ensures Run(w, es).limiter == w.limiter && Open(Run(w, es), ip) == Open(w, ip) && Pending(Run(w, es), ip) == {}
    decreases |Pending(w, ip)|
  {
    hide Open, Calm, Feasible, Run, Failures;
    if Pending(w, ip) == {} {
      es := [];
      Nothing(w, ip, now);
    } else {
      var t :| t in Pending(w, ip);
      var e := Timed(now, Fail(t));
      FailLocked(w, ip, t, now);
      hide Pending;
      var rest := FailAll(Step(w, e), ip, now);
      Prepended(w, e, rest, ip, now);
      es := [e] + rest;
    }
  }

  lemma FailLocked(w: World, ip: string, t: Ticket, now: Time)
    requires now < At(w.limiter, ip).lockedUntil && t in Pending(w, ip)
    ensures var e := Timed(now, Fail(t));
            && Enabled(w, e.event) && !Pardons(w, e.event, ip) && FailsFor(w, e.event, ip) == 1
            && Step(w, e).limiter == w.limiter && Open(Step(w, e), ip) == Open(w, ip)
            && |Pending(Step(w, e), ip)| == |Pending(w, ip)| - 1
  {
    OneSettled(w, FailureRecorded(w.limiter, ip, now), t, ip);
    assert FailureRecorded(w.limiter, ip, now).entries == w.limiter.entries;
    hide Open, Pending;
    assert |Pending(w, ip) - {t}| == |Pending(w, ip)| - 1;
  }

  /** The entry of an address apart from what is in flight. */
  ghost predicate SameRecord(s: State, s': State, ip: string) {
    && s'.maxFailures == s.maxFailures && s'.lockout == s.lockout
    && At(s', ip).failures == At(s, ip).failures && At(s', ip).lockedUntil == At(s, ip).lockedUntil
    && At(s', ip).lastFailure == At(s, ip).lastFailure
  }

  /** Every open attempt can end. */
  lemma {:induction false} EndAll(w: World, ip: string, now: Time) returns (es: seq<Timed>)
    requires At(w.limiter, ip).inFlight == |Open(w, ip)|
    ensures Calm(w, es, ip, now, now) && Failures(w, es, ip) == 0
    ensures SameRecord(w.limiter, Run(w, es).limiter, ip) && At(Run(w, es).limiter, ip).inFlight == 0
            && Open(Run(w, es), ip) == {}
    decreases |Open(w, ip)|
  {
    hide Calm, Feasible, Run, Failures;
    if Open(w, ip) == {} {
      es := [];
      Nothing(w, ip, now);
    } else {
      var t :| t in Open(w, ip);
      var e := Timed(now, End(t));
      EndOne(w, ip, t, now);
      hide Open;
      var rest := EndAll(Step(w, e), ip, now);
      Prepended(w, e, rest, ip, now);
      es := [e] + rest;
    }
  }

  lemma EndOne(w: World, ip: string, t: Ticket, now: Time)
    requires At(w.limiter, ip).inFlight == |Open(w, ip)| && t in Open(w, ip)
    ensures var e := Timed(now, End(t));
            && Enabled(w, e.event) && !Pardons(w, e.event, ip) && FailsFor(w, e.event, ip) == 0
            && SameRecord(w.limiter, Step(w, e).limiter, ip)
            && At(Step(w, e).limiter, ip).inFlight == |Open(Step(w, e), ip)| == |Open(w, ip)| - 1
  {
    OneEnded(w, Ended(w.limiter, ip), t, ip);
    hide Open;
    assert |Open(w, ip) - {t}| == |Open(w, ip)| - 1;
  }

  /** The tickets from base on are free. */
  ghost predicate FreeFrom(w: World, base: nat) {
    forall t :: t in w.attempts ==> t.id < base
  }

  lemma {:induction false} Above(tickets: set<Ticket>) returns (base: nat)
    ensures forall t :: t in tickets ==> t.id < base
    decreases |tickets|
  {
    if tickets == {} {
      base := 0;
    } else {
      var t :| t in tickets;
      var rest := Above(tickets - {t});
      base := if t.id < rest then rest else t.id + 1;
    }
  }

  /** Once a lockout is served, as many attempts begin as a round has failures. */
  lemma {:induction false} BeginAll(w: World, ip: string, now: Time, n: nat, base: nat) returns (es: seq<Timed>)
    requires FreeFrom(w, base) && At(w.limiter, ip).lockedUntil <= now
             && At(w.limiter, ip).failures >= w.limiter.maxFailures
    requires At(w.limiter, ip).inFlight + n <= w.limiter.maxFailures
    ensures Calm(w, es, ip, now, now) && Failures(w, es, ip) == 0
    ensures SameRecord(w.limiter, Run(w, es).limiter, ip) && |Pending(Run(w, es), ip)| == |Pending(w, ip)| + n
    decreases n
  {
    hide Pending, Calm, Feasible, Run, Failures;
    if n == 0 {
      es := [];
      Nothing(w, ip, now);
    } else {
      var t := Ticket(base);
      var e := Timed(now, Begin(t, ip));
      assert t !in w.attempts;
      OneMore(w, Begun(w.limiter, ip, now), t, ip, ip);
      assert Step(w, e).attempts == w.attempts[t := Attempt(ip, false)];
      var rest := BeginAll(Step(w, e), ip, now, n - 1, base + 1);
      Prepended(w, e, rest, ip, now);
      es := [e] + rest;
    }
  }

  /** On the instant a lockout ends every pending attempt can fail: the first locks again, the others fail while
      locked. */
  lemma FailOnTheDot(w: World, ip: string) returns (es: seq<Timed>)
    requires w.limiter.lockout > 0 && At(w.limiter, ip).failures >= w.limiter.maxFailures && Pending(w, ip) != {}
    ensures var now := At(w.limiter, ip).lockedUntil;
            Calm(w, es, ip, now, now) && Failures(w, es, ip) == |Pending(w, ip)|
  {
    hide Calm, Feasible, Run, Failures, Open;
    var now := At(w.limiter, ip).lockedUntil;
    var t :| t in Pending(w, ip);
    var e := Timed(now, Fail(t));
    FailRelocks(w, ip, t, now);
    hide Pending;
    var rest := FailAll(Step(w, e), ip, now);
    Prepended(w, e, rest, ip, now);
    es := [e] + rest;
  }

  // ---- The bound is reached ----

  /** Whatever is held over at t0, some continuation fails that often and a whole round more. */
  lemma {:induction false} BoundReached(w: World, ip: string, t0: Time) returns (es: seq<Timed>)
    requires Sound(w, ip, t0) && HeldOver(w, ip, t0) > 0
    ensures Feasible(w, es) && Ordered(es, t0) && Unpardoned(w, es, ip) && Before(es, t0 + w.limiter.lockout)
    ensures Failures(w, es, ip) == w.limiter.maxFailures + HeldOver(w, ip, t0)
  {
    hide Open, Pending, Feasible, Run, Failures, Ordered, Unpardoned, Before;
    var max, dot := w.limiter.maxFailures, At(w.limiter, ip).lockedUntil;
    var fails := FailAll(w, ip, t0);
    var w1 := Run(w, fails);
    var ends := EndAll(w1, ip, t0);
    var w2 := Run(w1, ends);
    var base := Above(w2.attempts.Keys);
    var begins := BeginAll(w2, ip, dot, max, base);
    var w3 := Run(w2, begins);
    var more := FailOnTheDot(w3, ip);
    NonePending(w2, ip);
    Widened(w2, begins, ip, t0, dot);
    Joined(w2, begins, more, ip, t0, dot, dot);
    Joined(w1, ends, begins + more, ip, t0, t0, dot);
    Joined(w, fails, ends + (begins + more), ip, t0, t0, dot);
    es := fails + (ends + (begins + more));
    CalmParts(w, es, ip, t0, dot, t0 + w.limiter.lockout);
  }

  lemma NonePending(w: World, ip: string)
    ensures Open(w, ip) == {} ==> Pending(w, ip) == {}
  {
  }

  lemma Widened(w: World, es: seq<Timed>, ip: string, from: Time, to: Time)
    requires from <= to && Calm(w, es, ip, to, to)
    ensures Calm(w, es, ip, from, to)
  {
    hide Feasible, Unpardoned;
  }

  lemma CalmParts(w: World, es: seq<Timed>, ip: string, from: Time, to: Time, end: int)
    requires Calm(w, es, ip, from, to) && to < end
    ensures Feasible(w, es) && Ordered(es, from) && Unpardoned(w, es, ip) && Before(es, end)
  {
    hide Feasible, Unpardoned, Ordered;
  }

  /** Every continuation stays within maxFailures exactly when nothing is held over: no attempt is pending while the
      address is locked, or that lockout outlasts the stretch. */
  lemma {:induction false} WindowExact(w: World, ip: string, t0: Time)
    requires Sound(w, ip, t0)
    ensures (forall es ::
             Feasible(w, es) && Unpardoned(w, es, ip) && Ordered(es, t0) && Before(es, t0 + w.limiter.lockout) ==>
               Failures(w, es, ip) <= w.limiter.maxFailures)
            <==> HeldOver(w, ip, t0) == 0
  {
    hide Sound, Feasible, Unpardoned, Ordered, Before, Failures, HeldOver;
    if HeldOver(w, ip, t0) > 0 {
      var es := BoundReached(w, ip, t0);
      assert Feasible(w, es) && Unpardoned(w, es, ip) && Ordered(es, t0) && Before(es, t0 + w.limiter.lockout);
    } else {
      forall es | Feasible(w, es) && Unpardoned(w, es, ip) && Ordered(es, t0) && Before(es, t0 + w.limiter.lockout)
        ensures Failures(w, es, ip) <= w.limiter.maxFailures
      {
        WindowBound(w, es, ip, t0);
      }
    }
  }

  // ---- From a fresh limiter ----

  /** n attempts in a row that begin, fail and end at one instant. */
  lemma {:induction false} FailInARow(w: World, ip: string, n: nat, now: Time) returns (es: seq<Timed>)
    requires w.attempts == map[] && At(w.limiter, ip).inFlight == 0 && n > 0
    requires At(w.limiter, ip).lockedUntil == 0 && At(w.limiter, ip).failures + n == w.limiter.maxFailures
    ensures Calm(w, es, ip, now, now) && Run(w, es).attempts == map[]
    ensures var e := At(Run(w, es).limiter, ip);
            e.inFlight == 0 && e.failures == w.limiter.maxFailures && e.lockedUntil == now + w.limiter.lockout
    ensures Run(w, es).limiter.maxFailures == w.limiter.maxFailures && Run(w, es).limiter.lockout == w.limiter.lockout
    decreases n
  {
    hide Calm, Feasible, Run;
    var t := Ticket(0);
    var a, b, c := Timed(now, Begin(t, ip)), Timed(now, Fail(t)), Timed(now, End(t));
    var w1 := Step(w, a);
    var w2 := Step(w1, b);
    var w3 := Step(w2, c);
    assert w3.attempts == map[];
    var rest: seq<Timed> := [];
    if n == 1 {
      Nothing(w3, ip, now);
    } else {
      rest := FailInARow(w3, ip, n - 1, now);
    }
    Prepended(w2, c, rest, ip, now);
    Prepended(w1, b, [c] + rest, ip, now);
    Prepended(w, a, [b] + ([c] + rest), ip, now);
    es := [a] + ([b] + ([c] + rest));
  }

  /** On the dot a whole round of attempts is let in at once; the first failure locks again and the others stay
      pending. */
  lemma {:induction false} DotHoldsOver(w: World, ip: string) returns (es: seq<Timed>)
    requires w.limiter.maxFailures > 0 && w.limiter.lockout > 0 && w.attempts == map[]
    requires At(w.limiter, ip).failures >= w.limiter.maxFailures && At(w.limiter, ip).inFlight == 0
    ensures var now := At(w.limiter, ip).lockedUntil;
            && Calm(w, es, ip, now, now) && At(Run(w, es).limiter, ip).lockedUntil == now + w.limiter.lockout
            && |Pending(Run(w, es), ip)| == w.limiter.maxFailures - 1
    ensures SameLimits(w.limiter, Run(w, es).limiter)
  {
    hide Feasible, Ordered, Before, Unpardoned, Run, Failures, Open, Pending;
    var now, max := At(w.limiter, ip).lockedUntil, w.limiter.maxFailures;
    var begins := BeginAll(w, ip, now, max, 0);
    var w1 := Run(w, begins);
    PendingOpen(w, ip);
    NoAttempts(w, ip);
    assert Pending(w1, ip) != {};
    var t :| t in Pending(w1, ip);
    var e := Timed(now, Fail(t));
    FailRelocks(w1, ip, t, now);
    hide Calm;
    Single(w1, e, ip);
    Joined(w, begins, [e], ip, now, now, now);
    es := begins + [e];
  }

  lemma NoAttempts(w: World, ip: string)
    ensures w.attempts == map[] ==> Pending(w, ip) == {}
  {
  }

  ghost predicate SameLimits(s: State, s': State) {
    s'.maxFailures == s.maxFailures && s'.lockout == s.lockout
  }

  lemma FailRelocks(w: World, ip: string, t: Ticket, now: Time)
    requires t in Pending(w, ip) && now == At(w.limiter, ip).lockedUntil
             && At(w.limiter, ip).failures >= w.limiter.maxFailures
    ensures var e := Timed(now, Fail(t));
            && Enabled(w, e.event) && !Pardons(w, e.event, ip)
            && At(Step(w, e).limiter, ip).lockedUntil == now + w.limiter.lockout
               && SameLimits(w.limiter, Step(w, e).limiter)
            && |Pending(Step(w, e), ip)| == |Pending(w, ip)| - 1
  {
    OneSettled(w, FailureRecorded(w.limiter, ip, now), t, ip);
    hide Open, Pending;
    assert |Pending(w, ip) - {t}| == |Pending(w, ip)| - 1;
  }

  /** With two or more failures allowed and a lockout longer than the clock's unit, some run fails 2 maxFailures - 1
      times within one lockout's length, as often as any can. */
  lemma {:induction false} Exceeds(maxFailures: nat, lockout: nat, ip: string)
    returns (past: seq<Timed>, es: seq<Timed>, t0: Time)
    requires maxFailures >= 2 && lockout >= 2
    ensures Continues(maxFailures, lockout, past, es, ip, t0)
    ensures Failures(Run(Fresh(maxFailures, lockout), past), es, ip) == 2 * maxFailures - 1
  {
    hide Feasible, Run, Failures, Ordered, Unpardoned, Before, Sound, Pending;
    var w := Fresh(maxFailures, lockout);
    var lock := FailInARow(w, ip, maxFailures, 1);
    var w1 := Run(w, lock);
    var dot := DotHoldsOver(w1, ip);
    t0 := 2 * lockout;
    Widened(w1, dot, ip, 1, 1 + lockout);
    Joined(w, lock, dot, ip, 1, 1, 1 + lockout);
    past := lock + dot;
    CalmParts(w, past, ip, 1, 1 + lockout, t0 + 1);
    OrderedEarlier(past, 1, 0);
    PastSound(maxFailures, lockout, past, ip, t0);
    es := BoundReached(Run(w, past), ip, t0);
  }

  lemma OrderedEarlier(es: seq<Timed>, from: Time, earlier: Time)
    requires Ordered(es, from) && earlier <= from
    ensures Ordered(es, earlier)
  {
  }

  /** No run of a fresh limiter with these limits fails more than maxFailures times within one lockout's length. */
  ghost predicate EveryRunBounded(maxFailures: nat, lockout: nat) {
    forall past, es, ip, t0 :: Continues(maxFailures, lockout, past, es, ip, t0) ==>
      Failures(Run(Fresh(maxFailures, lockout), past), es, ip) <= maxFailures
  }

  /** That holds exactly when a round is one failure, or the lockout is no longer than the clock's unit. */
  lemma {:induction false} EveryRunBoundedExact(maxFailures: nat, lockout: nat)
    requires maxFailures > 0
    ensures EveryRunBounded(maxFailures, lockout) <==> maxFailures == 1 || lockout <= 1
  {
    hide Feasible, Run, Failures, HeldOver;
    if maxFailures == 1 || lockout <= 1 {
      forall past, es, ip, t0 | Continues(maxFailures, lockout, past, es, ip, t0)
        ensures Failures(Run(Fresh(maxFailures, lockout), past), es, ip) <= maxFailures
      {
        LockoutBound(maxFailures, lockout, past, es, ip, t0);
      }
    } else {
      hide Continues;
      var past, es, t0 := Exceeds(maxFailures, lockout, "a");
    }
  }
}
