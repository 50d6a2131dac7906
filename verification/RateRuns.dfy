// Every run of the sign-in limiter: what is in flight, how many attempts can
// still fail, and how many fail within one lockout's length.
module RateRuns {
  import opened Common
  import opened RateLimiter

  datatype Ticket = Ticket(id: nat)

  /** An admitted attempt that has not ended; settled once it has failed or succeeded. */
  datatype Attempt = Attempt(ip: string, settled: bool)

  datatype World = World(limiter: State, attempts: map<Ticket, Attempt>)

  datatype Event =
    | Begin(ticket: Ticket, ip: string)
    | Fail(failed: Ticket)
    | Succeed(passed: Ticket)
    | End(ended: Ticket)
    | Clear(cleared: string)
    | Sweep

  datatype Timed = Timed(at: Time, event: Event)

  /** Tickets are fresh, and an admitted attempt fails or succeeds at most once before it ends. */
  predicate Enabled(w: World, e: Event) {
    match e
    case Begin(ticket, _) => ticket !in w.attempts
    case Fail(ticket) => ticket in w.attempts && !w.attempts[ticket].settled
    case Succeed(ticket) => ticket in w.attempts && !w.attempts[ticket].settled
    case End(ticket) => ticket in w.attempts
    case Clear(_) => true
    case Sweep => true
  }

  function Settle(w: World, t: Ticket, limiter: State): World
    requires t in w.attempts
  {
    World(limiter, w.attempts[t := w.attempts[t].(settled := true)])
  }

  function Step(w: World, e: Timed): World
    requires Enabled(w, e.event)
  {
    match e.event
    case Begin(t, ip) =>
      World(Begun(w.limiter, ip, e.at), if Admits(w.limiter, ip, e.at) then w.attempts[t := Attempt(ip, false)]
            else w.attempts)
    case Fail(t) => Settle(w, t, FailureRecorded(w.limiter, w.attempts[t].ip, e.at))
    case Succeed(t) => Settle(w, t, Pardoned(w.limiter, w.attempts[t].ip))
    case End(t) => World(Ended(w.limiter, w.attempts[t].ip), w.attempts - {t})
    case Clear(ip) => w.(limiter := Cleared(w.limiter, ip))
    case Sweep => w.(limiter := Swept(w.limiter, e.at))
  }

  // ---- What is in flight ----

  ghost function Open(w: World, ip: string): set<Ticket> {
    set t | t in w.attempts && w.attempts[t].ip == ip
  }

  ghost function Pending(w: World, ip: string): set<Ticket> {
    set t | t in w.attempts && w.attempts[t].ip == ip && !w.attempts[t].settled
  }

  /** inFlight counts the open attempts, and the failures of the round leave room for every pending one. */
  ghost predicate Balanced(w: World, ip: string) {
    var e := At(w.limiter, ip);
    && e.inFlight == |Open(w, ip)|
    && Round(e, w.limiter.maxFailures) + |Pending(w, ip)| <= w.limiter.maxFailures
  }

  /** While an address is locked none of its attempts is pending. */
  ghost predicate Quiet(w: World, ip: string, now: Time) {
    now < At(w.limiter, ip).lockedUntil ==> Pending(w, ip) == {}
  }

  lemma PendingOpen(w: World, ip: string)
    ensures |Pending(w, ip)| <= |Open(w, ip)|
  {
    SubsetSize(Pending(w, ip), Open(w, ip));
  }

  // How the sets change.

  lemma OneMore(w: World, limiter: State, t: Ticket, ip: string, other: string)
    requires t !in w.attempts
    ensures var w' := World(limiter, w.attempts[t := Attempt(ip, false)]);
            && Open(w', other) == (if other == ip then Open(w, other) + {t} else Open(w, other))
            && Pending(w', other) == (if other == ip then Pending(w, other) + {t} else Pending(w, other))
            && t !in Open(w, other) && t !in Pending(w, other)
  {
  }

  lemma OneSettled(w: World, limiter: State, t: Ticket, other: string)
    requires t in w.attempts && !w.attempts[t].settled
    ensures var w' := Settle(w, t, limiter);
            && Open(w', other) == Open(w, other)
            && Pending(w', other) == (if other == w.attempts[t].ip then Pending(w, other) - {t} else Pending(w, other))
            && (other == w.attempts[t].ip ==> t in Pending(w, other))
  {
  }

  lemma OneEnded(w: World, limiter: State, t: Ticket, other: string)
    requires t in w.attempts
    ensures var w' := World(limiter, w.attempts - {t});
            && Open(w', other) == (if other == w.attempts[t].ip then Open(w, other) - {t} else Open(w, other))
            && Pending(w', other) == Pending(w, other) - {t}
            && (other == w.attempts[t].ip ==> t in Open(w, other))
  {
  }

  lemma SameAttempts(w: World, limiter: State, ip: string)
    ensures Open(w.(limiter := limiter), ip) == Open(w, ip) && Pending(w.(limiter := limiter), ip) == Pending(w, ip)
  {
  }

  lemma BeginBalanced(w: World, t: Ticket, a: string, now: Time, ip: string)
    requires t !in w.attempts && Balanced(w, ip)
    ensures Balanced(Step(w, Timed(now, Begin(t, a))), ip)
  {
    hide Open, Pending;
    PendingOpen(w, ip);
    OneMore(w, Begun(w.limiter, a, now), t, a, ip);
    SameAttempts(w, Begun(w.limiter, a, now), ip);
  }

  /** A failure moves one from pending to counted, or starts a lockout or a new round. */
  lemma CountedRound(e: LoginEntry, now: Time, maxFailures: nat, lockout: nat)
    requires maxFailures > 0
    ensures Round(Counted(e, now, maxFailures, lockout), maxFailures) <= Round(e, maxFailures) + 1
  {
  }

  lemma FailBalanced(w: World, t: Ticket, now: Time, ip: string)
    requires Enabled(w, Fail(t)) && w.limiter.maxFailures > 0 && Balanced(w, ip)
    ensures Balanced(Step(w, Timed(now, Fail(t))), ip)
  {
    hide Open, Pending, Counted, Round;
    var a := w.attempts[t].ip;
    OneSettled(w, FailureRecorded(w.limiter, a, now), t, ip);
    CountedRound(At(w.limiter, a), now, w.limiter.maxFailures, w.limiter.lockout);
    CountedFlight(At(w.limiter, a), now, w.limiter.maxFailures, w.limiter.lockout);
    if ip == a {
      assert |Pending(w, ip) - {t}| == |Pending(w, ip)| - 1;
    }
  }

  lemma CountedFlight(e: LoginEntry, now: Time, maxFailures: nat, lockout: nat)
    ensures Counted(e, now, maxFailures, lockout).inFlight == e.inFlight
  {
  }

  lemma PardonBalanced(w: World, limiter: State, a: string, ip: string)
    requires w.limiter.maxFailures > 0 && Balanced(w, ip)
    requires limiter == Pardoned(w.limiter, a) || limiter == Cleared(w.limiter, a)
    ensures Balanced(w.(limiter := limiter), ip)
  {
    hide Open, Pending;
    SameAttempts(w, limiter, ip);
    PendingOpen(w, ip);
  }

  lemma SucceedBalanced(w: World, t: Ticket, now: Time, ip: string)
    requires Enabled(w, Succeed(t)) && w.limiter.maxFailures > 0 && Balanced(w, ip)
    ensures Balanced(Step(w, Timed(now, Succeed(t))), ip)
  {
    var limiter := Pardoned(w.limiter, w.attempts[t].ip);
    PardonBalanced(w, limiter, w.attempts[t].ip, ip);
    hide Open, Pending, Pardoned, Round;
    SameAttempts(w, limiter, ip);
    OneSettled(w, limiter, t, ip);
    SubsetSize(Pending(w, ip) - {t}, Pending(w, ip));
  }

  lemma EndBalanced(w: World, t: Ticket, now: Time, ip: string)
    requires Enabled(w, End(t)) && Balanced(w, ip)
    ensures Balanced(Step(w, Timed(now, End(t))), ip)
  {
    hide Open, Pending;
    OneEnded(w, Ended(w.limiter, w.attempts[t].ip), t, ip);
    SubsetSize(Pending(w, ip) - {t}, Pending(w, ip));
    if ip == w.attempts[t].ip {
      assert |Open(w, ip) - {t}| == |Open(w, ip)| - 1;
    }
  }

  lemma SweepBalanced(w: World, now: Time, ip: string)
    requires Balanced(w, ip) && w.limiter.maxFailures > 0
    ensures Balanced(Step(w, Timed(now, Sweep)), ip)
  {
    hide Open, Pending;
    SameAttempts(w, Swept(w.limiter, now), ip);
    PendingOpen(w, ip);
  }

  /** Every step keeps every address balanced, and the limits. */
  lemma {:induction false} StepBalanced(w: World, e: Timed, ip: string)
    requires Enabled(w, e.event) && w.limiter.maxFailures > 0 && Balanced(w, ip)
    ensures Balanced(Step(w, e), ip)
    ensures Step(w, e).limiter.maxFailures == w.limiter.maxFailures && Step(w, e).limiter.lockout == w.limiter.lockout
  {
    hide Balanced;
    match e.event
    case Begin(t, a) => BeginBalanced(w, t, a, e.at, ip);
    case Fail(t) => FailBalanced(w, t, e.at, ip);
    case Succeed(t) => SucceedBalanced(w, t, e.at, ip);
    case End(t) => EndBalanced(w, t, e.at, ip);
    case Clear(a) => PardonBalanced(w, Cleared(w.limiter, a), a, ip);
    case Sweep => SweepBalanced(w, e.at, ip);
  }

  // ---- While locked ----

  /** A failure of the address falls on the very instant its lockout ends. */
  predicate OnTheDot(w: World, e: Timed, ip: string) {
    && e.event.Fail? && e.event.failed in w.attempts && w.attempts[e.event.failed].ip == ip
    && At(w.limiter, ip).failures >= w.limiter.maxFailures && e.at == At(w.limiter, ip).lockedUntil
  }

  /** Only a failure that fills the round locks an address, and then nothing else is pending. */
  lemma {:induction false} StepQuiet(w: World, e: Timed, ip: string, before: Time)
    requires Enabled(w, e.event) && w.limiter.maxFailures > 0 && Balanced(w, ip) && Quiet(w, ip, before)
             && before <= e.at
    requires !OnTheDot(w, e, ip)
    ensures Quiet(Step(w, e), ip, e.at)
  {
    hide Open, Pending;
    match e.event
    case Begin(t, a) =>
      OneMore(w, Begun(w.limiter, a, e.at), t, a, ip);
      SameAttempts(w, Begun(w.limiter, a, e.at), ip);
    case Fail(t) => FailQuiet(w, t, e.at, ip, before);
    case Succeed(t) => OneSettled(w, Pardoned(w.limiter, w.attempts[t].ip), t, ip);
    case End(t) => OneEnded(w, Ended(w.limiter, w.attempts[t].ip), t, ip);
    case Clear(a) => SameAttempts(w, Cleared(w.limiter, a), ip);
    case Sweep => SameAttempts(w, Swept(w.limiter, e.at), ip);
  }

  lemma FailQuiet(w: World, t: Ticket, now: Time, ip: string, before: Time)
    requires Enabled(w, Fail(t)) && w.limiter.maxFailures > 0 && Balanced(w, ip) && Quiet(w, ip, before)
             && before <= now
    requires !OnTheDot(w, Timed(now, Fail(t)), ip)
    ensures Quiet(Step(w, Timed(now, Fail(t))), ip, now)
  {
    hide Open, Pending;
    var a := w.attempts[t].ip;
    OneSettled(w, FailureRecorded(w.limiter, a, now), t, ip);
    if ip == a {
      assert |Pending(w, ip) - {t}| == |Pending(w, ip)| - 1;
    }
  }

  /** A locked address has filled its round, and fewer attempts than a round are pending. */
  ghost predicate Filled(w: World, ip: string, now: Time) {
    now < At(w.limiter, ip).lockedUntil ==>
      At(w.limiter, ip).failures >= w.limiter.maxFailures && |Pending(w, ip)| < w.limiter.maxFailures
  }

  lemma {:induction false} StepFilled(w: World, e: Timed, ip: string, before: Time)
    requires Enabled(w, e.event) && w.limiter.maxFailures > 0
    requires Balanced(w, ip) && Filled(w, ip, before) && before <= e.at
    ensures Filled(Step(w, e), ip, e.at)
  {
    match e.event
    case Fail(t) => FailFilled(w, t, e.at, ip, before);
    case _ => OtherFilled(w, e, ip, before);
  }

  /** No attempt begins while locked, and nothing but a failure locks. */
  lemma OtherFilled(w: World, e: Timed, ip: string, before: Time)
    requires Enabled(w, e.event) && !e.event.Fail? && w.limiter.maxFailures > 0 && Filled(w, ip, before)
             && before <= e.at
    ensures Filled(Step(w, e), ip, e.at)
  {
    hide Open, Pending, Filled;
    NeverLocks(w, e, ip);
    match e.event {
      case Begin(t, a) =>
        OneMore(w, Begun(w.limiter, a, e.at), t, a, ip);
        SameAttempts(w, Begun(w.limiter, a, e.at), ip);
      case Succeed(t) => OneSettled(w, Pardoned(w.limiter, w.attempts[t].ip), t, ip);
      case End(t) => OneEnded(w, Ended(w.limiter, w.attempts[t].ip), t, ip);
      case Clear(a) => SameAttempts(w, Cleared(w.limiter, a), ip);
      case Sweep => SameAttempts(w, Swept(w.limiter, e.at), ip);
    }
    assert e.at < At(Step(w, e).limiter, ip).lockedUntil ==> Pending(Step(w, e), ip) <= Pending(w, ip);
    FilledShrinks(w, Step(w, e), ip, before, e.at);
  }

  lemma NeverLocks(w: World, e: Timed, ip: string)
    requires Enabled(w, e.event) && !e.event.Fail?
    ensures Step(w, e).limiter.maxFailures == w.limiter.maxFailures
    ensures var was, now := At(w.limiter, ip), At(Step(w, e).limiter, ip);
            now.lockedUntil <= e.at || (now.lockedUntil == was.lockedUntil && now.failures == was.failures)
  {
  }

  lemma FilledShrinks(w: World, w': World, ip: string, before: Time, now: Time)
    requires Filled(w, ip, before) && before <= now && w'.limiter.maxFailures == w.limiter.maxFailures
    requires now < At(w'.limiter, ip).lockedUntil ==> Pending(w', ip) <= Pending(w, ip)
    requires var was, after := At(w.limiter, ip), At(w'.limiter, ip);
             after.lockedUntil <= now || (after.lockedUntil == was.lockedUntil && after.failures == was.failures)
    ensures Filled(w', ip, now)
  {
    hide Pending;
    if now < At(w'.limiter, ip).lockedUntil {
      SubsetSize(Pending(w', ip), Pending(w, ip));
    }
  }

  lemma FailFilled(w: World, t: Ticket, now: Time, ip: string, before: Time)
    requires Enabled(w, Fail(t)) && w.limiter.maxFailures > 0
    requires Balanced(w, ip) && Filled(w, ip, before) && before <= now
    ensures Filled(Step(w, Timed(now, Fail(t))), ip, now)
  {
    hide Open, Pending;
    var a := w.attempts[t].ip;
    OneSettled(w, FailureRecorded(w.limiter, a, now), t, ip);
    if ip == a {
      assert |Pending(w, ip) - {t}| == |Pending(w, ip)| - 1;
    }
  }
}
