// The limiter over whole runs: bookkeeping that never drifts, and how many
// failures one address gets within the length of a lockout.
module RateTheorems {
  import opened Common
  import opened RateLimiter
  import opened RateRuns

  predicate Feasible(w: World, es: seq<Timed>)
    decreases |es|
  {
    es == [] || (Enabled(w, es[0].event) && Feasible(Step(w, es[0]), es[1..]))
  }

  function Run(w: World, es: seq<Timed>): World
    requires Feasible(w, es)
    decreases |es|
  {
    if es == [] then w else Run(Step(w, es[0]), es[1..])
  }

  /** For fixed limits, in any interleaving and whatever the clock does, inFlight is the attempts admitted and not
      ended, and the round's failures leave room for every attempt that can still fail. */
  lemma {:induction false} RunBalanced(w: World, es: seq<Timed>, ip: string)
    requires Feasible(w, es) && w.limiter.maxFailures > 0 && Balanced(w, ip)
    ensures Balanced(Run(w, es), ip)
    decreases |es|
  {
    hide Balanced, Step, Enabled;
    if es != [] {
      StepBalanced(w, es[0], ip);
      RunBalanced(Step(w, es[0]), es[1..], ip);
    }
  }

  function Fresh(maxFailures: nat, lockout: nat): World {
    World(State(map[], maxFailures, lockout), map[])
  }

  lemma FreshBalanced(maxFailures: nat, lockout: nat, ip: string, now: Time)
    ensures Balanced(Fresh(maxFailures, lockout), ip) && Quiet(Fresh(maxFailures, lockout), ip, now)
    ensures Filled(Fresh(maxFailures, lockout), ip, now)
  {
    var w := Fresh(maxFailures, lockout);
    assert Open(w, ip) == {} && Pending(w, ip) == {};
  }

  // ---- Failures within one lockout's length ----

  ghost predicate Ordered(es: seq<Timed>, from: Time) {
    es == [] || (from <= es[0].at && Ordered(es[1..], es[0].at))
  }

  /** No failure of the address falls on the instant its lockout ends. */
  ghost predicate OffTheDot(w: World, es: seq<Timed>, ip: string)
    requires Feasible(w, es)
    decreases |es|
  {
    es == [] || (!OnTheDot(w, es[0], ip) && OffTheDot(Step(w, es[0]), es[1..], ip))
  }

  predicate Pardons(w: World, e: Event, ip: string)
    requires Enabled(w, e)
  {
    (e.Succeed? && w.attempts[e.passed].ip == ip) || (e.Clear? && e.cleared == ip)
  }

  /** Nobody signs in from the address, and no admin clears it. */
  ghost predicate Unpardoned(w: World, es: seq<Timed>, ip: string)
    requires Feasible(w, es)
    decreases |es|
  {
    es == [] || (!Pardons(w, es[0].event, ip) && Unpardoned(Step(w, es[0]), es[1..], ip))
  }

  function FailsFor(w: World, e: Event, ip: string): nat
    requires Enabled(w, e)
  {
    if e.Fail? && w.attempts[e.failed].ip == ip then 1 else 0
  }

  function Failures(w: World, es: seq<Timed>, ip: string): nat
    requires Feasible(w, es)
    decreases |es|
  {
    if es == [] then 0 else FailsFor(w, es[0].event, ip) + Failures(Step(w, es[0]), es[1..], ip)
  }

  /** The attempts still pending while the address is locked at t0, when that lockout ends within the next lockout's
      length. */
  ghost function HeldOver(w: World, ip: string, t0: Time): nat {
    if t0 < At(w.limiter, ip).lockedUntil < t0 + w.limiter.lockout then |Pending(w, ip)| else 0
  }

  /** Where the address stands after r failures since t0, k of them from attempts held over: serving an older lockout
      or past it, counting a round, or locked past the window. */
  ghost predicate Phase(w: World, ip: string, r: nat, k: nat, t0: Time, now: Time) {
    var e, max, pending := At(w.limiter, ip), w.limiter.maxFailures, |Pending(w, ip)|;
    if e.lockedUntil >= t0 + w.limiter.lockout then r + pending <= k + max
    else if e.failures >= max then r <= k && (now < e.lockedUntil ==> r + pending <= k)
    else r <= k + if e.lastFailure >= t0 then e.failures else 0
  }

  /** What every reachable state of an address keeps. */
  ghost predicate Sound(w: World, ip: string, now: Time) {
    w.limiter.maxFailures > 0 && Balanced(w, ip) && Filled(w, ip, now)
  }

  lemma StepSound(w: World, e: Timed, ip: string, before: Time)
    requires Enabled(w, e.event) && Sound(w, ip, before) && before <= e.at
    ensures Sound(Step(w, e), ip, e.at)
    ensures Step(w, e).limiter.maxFailures == w.limiter.maxFailures && Step(w, e).limiter.lockout == w.limiter.lockout
  {
    hide Balanced, Filled;
    StepBalanced(w, e, ip);
    StepFilled(w, e, ip, before);
  }

  lemma PhaseStep(w: World, e: Timed, ip: string, r: nat, k: nat, t0: Time, before: Time)
    requires Enabled(w, e.event) && Sound(w, ip, before) && before <= e.at
    requires !Pardons(w, e.event, ip) && t0 <= e.at < t0 + w.limiter.lockout
    requires Phase(w, ip, r, k, t0, before)
    ensures Phase(Step(w, e), ip, r + FailsFor(w, e.event, ip), k, t0, e.at)
  {
    hide Open, Pending, Balanced;
    match e.event
    case Begin(t, a) => PhaseBegin(w, t, a, e.at, ip, r, k, t0, before);
    case Fail(t) => PhaseFail(w, t, e.at, ip, r, k, t0, before);
    case Succeed(t) => OneSettled(w, Pardoned(w.limiter, w.attempts[t].ip), t, ip);
    case End(t) =>
      OneEnded(w, Ended(w.limiter, w.attempts[t].ip), t, ip);
      SubsetSize(Pending(w, ip) - {t}, Pending(w, ip));
    case Clear(a) => SameAttempts(w, Cleared(w.limiter, a), ip);
    case Sweep => SameAttempts(w, Swept(w.limiter, e.at), ip);
  }

  lemma PhaseBegin(w: World, t: Ticket, a: string, now: Time, ip: string, r: nat, k: nat, t0: Time, before: Time)
    requires t !in w.attempts && t0 <= now < t0 + w.limiter.lockout && before <= now && Phase(w, ip, r, k, t0, before)
    ensures Phase(Step(w, Timed(now, Begin(t, a))), ip, r, k, t0, now)
  {
    hide Open, Pending;
    OneMore(w, Begun(w.limiter, a, now), t, a, ip);
    SameAttempts(w, Begun(w.limiter, a, now), ip);
  }

  lemma PhaseFail(w: World, t: Ticket, now: Time, ip: string, r: nat, k: nat, t0: Time, before: Time)
    requires Enabled(w, Fail(t)) && Sound(w, ip, before) && before <= now && t0 <= now < t0 + w.limiter.lockout
    requires Phase(w, ip, r, k, t0, before)
    ensures Phase(Step(w, Timed(now, Fail(t))), ip, r + FailsFor(w, Fail(t), ip), k, t0, now)
  {
    hide Open, Pending;
    var a := w.attempts[t].ip;
    OneSettled(w, FailureRecorded(w.limiter, a, now), t, ip);
    if ip == a {
      assert |Pending(w, ip) - {t}| == |Pending(w, ip)| - 1;
    }
  }

  ghost predicate Before(es: seq<Timed>, end: int) {
    forall i :: 0 <= i < |es| ==> es[i].at < end
  }

  lemma {:induction false} WindowFrom(w: World, es: seq<Timed>, ip: string, r: nat, k: nat, t0: Time, from: Time)
    requires Feasible(w, es) && Sound(w, ip, from) && t0 <= from && Phase(w, ip, r, k, t0, from)
    requires Ordered(es, from) && Unpardoned(w, es, ip) && Before(es, t0 + w.limiter.lockout)
    ensures r + Failures(w, es, ip) <= k + w.limiter.maxFailures
    decreases |es|
  {
    hide Sound, Step, Enabled, Pardons, FailsFor;
    if es != [] {
      StepSound(w, es[0], ip, from);
      PhaseStep(w, es[0], ip, r, k, t0, from);
      hide Phase;
      WindowFrom(Step(w, es[0]), es[1..], ip, r + FailsFor(w, es[0].event, ip), k, t0, es[0].at);
    }
  }

  /** In the length of one lockout from t0, with no sign-in and no clearing, an address fails at most a round and
      what was held over. */
  lemma {:induction false} WindowBound(w: World, es: seq<Timed>, ip: string, t0: Time)
    requires Feasible(w, es) && Sound(w, ip, t0)
    requires Ordered(es, t0) && Unpardoned(w, es, ip) && Before(es, t0 + w.limiter.lockout)
    ensures Failures(w, es, ip) <= w.limiter.maxFailures + HeldOver(w, ip, t0)
  {
    WindowFrom(w, es, ip, 0, HeldOver(w, ip, t0), t0, t0);
  }

  /** Less than a round can be held over, and nothing when a round is one failure. */
  lemma HeldOverSmall(w: World, ip: string, t0: Time)
    requires Sound(w, ip, t0)
    ensures HeldOver(w, ip, t0) < w.limiter.maxFailures
    ensures HeldOver(w, ip, t0) > 0 ==> w.limiter.lockout > 1
  {
  }

  // ---- From a fresh limiter ----

  lemma {:induction false} RunSound(w: World, es: seq<Timed>, ip: string, before: Time, until: Time)
    requires Feasible(w, es) && Sound(w, ip, before)
    requires Ordered(es, before) && before <= until && Before(es, until + 1)
    ensures Sound(Run(w, es), ip, until)
    ensures Run(w, es).limiter.maxFailures == w.limiter.maxFailures && Run(w, es).limiter.lockout == w.limiter.lockout
    decreases |es|
  {
    hide Step, Enabled;
    if es != [] {
      StepSound(w, es[0], ip, before);
      hide Sound;
      RunSound(Step(w, es[0]), es[1..], ip, es[0].at, until);
    }
  }

  lemma {:induction false} RunQuiet(w: World, es: seq<Timed>, ip: string, before: Time, until: Time)
    requires Feasible(w, es) && w.limiter.maxFailures > 0 && Balanced(w, ip) && Quiet(w, ip, before)
    requires Ordered(es, before) && OffTheDot(w, es, ip) && before <= until && Before(es, until + 1)
    ensures Quiet(Run(w, es), ip, until)
    decreases |es|
  {
    hide Balanced, Step, Enabled, OnTheDot;
    if es != [] {
      StepBalanced(w, es[0], ip);
      StepQuiet(w, es[0], ip, before);
      hide Quiet;
      RunQuiet(Step(w, es[0]), es[1..], ip, es[0].at, until);
    }
  }

  /** The past is any run of a fresh limiter up to t0; es any continuation within one lockout's length in which nobody
      signs in from the address and no admin clears it. */
  ghost predicate Continues(maxFailures: nat, lockout: nat, past: seq<Timed>, es: seq<Timed>, ip: string, t0: Time) {
    && Feasible(Fresh(maxFailures, lockout), past) && Ordered(past, 0) && Before(past, t0 + 1)
    && var w := Run(Fresh(maxFailures, lockout), past);
       Feasible(w, es) && Unpardoned(w, es, ip) && Ordered(es, t0) && Before(es, t0 + lockout)
  }

  lemma PastSound(maxFailures: nat, lockout: nat, past: seq<Timed>, ip: string, t0: Time)
    requires maxFailures > 0 && Feasible(Fresh(maxFailures, lockout), past) && Ordered(past, 0) && Before(past, t0 + 1)
    ensures var w := Run(Fresh(maxFailures, lockout), past);
            Sound(w, ip, t0) && w.limiter.maxFailures == maxFailures && w.limiter.lockout == lockout
  {
    hide Feasible, Run, Ordered, Before;
    FreshBalanced(maxFailures, lockout, ip, 0);
    RunSound(Fresh(maxFailures, lockout), past, ip, 0, t0);
  }

  /**
   * After any past, within any stretch as long as a lockout, an address fails
   * at most maxFailures times, and once more for each attempt held over from
   * a lockout that ends in the stretch; so fewer than twice maxFailures times
   * in every run.
   */
  lemma {:induction false} LockoutBound(maxFailures: nat, lockout: nat, past: seq<Timed>, es: seq<Timed>, ip: string,
    t0: Time)
    requires maxFailures > 0 && Continues(maxFailures, lockout, past, es, ip, t0)
    ensures var w := Run(Fresh(maxFailures, lockout), past);
            && Failures(w, es, ip) <= maxFailures + HeldOver(w, ip, t0)
            && Failures(w, es, ip) <= 2 * maxFailures - 1
            && (maxFailures == 1 || lockout <= 1 ==> Failures(w, es, ip) <= maxFailures)
  {
    hide Sound, Feasible, Run, Ordered, Before, Unpardoned, Failures, HeldOver;
    PastSound(maxFailures, lockout, past, ip, t0);
    var w := Run(Fresh(maxFailures, lockout), past);
    WindowBound(w, es, ip, t0);
    HeldOverSmall(w, ip, t0);
  }

  /** Nothing is held over when no failure of the address fell on the instant a lockout ended. */
  lemma {:induction false} OffTheDotBound(maxFailures: nat, lockout: nat, past: seq<Timed>, es: seq<Timed>, ip: string,
    t0: Time)
    requires maxFailures > 0 && Continues(maxFailures, lockout, past, es, ip, t0)
             && OffTheDot(Fresh(maxFailures, lockout), past, ip)
    ensures Failures(Run(Fresh(maxFailures, lockout), past), es, ip) <= maxFailures
  {
    hide Sound, Feasible, Run, Ordered, Before, Unpardoned, Failures, OffTheDot, Pending;
    LockoutBound(maxFailures, lockout, past, es, ip, t0);
    FreshBalanced(maxFailures, lockout, ip, 0);
    RunQuiet(Fresh(maxFailures, lockout), past, ip, 0, t0);
  }

  // ---- After a sign-in or a clearing ----

  /** An address without failures was never locked, or has been pardoned since. */
  ghost predicate Clean(w: World, ip: string) {
    At(w.limiter, ip).failures == 0 ==> At(w.limiter, ip).lockedUntil == 0
  }

  /** What a sign-in or a clearing leaves: no failure and no lockout, and the attempts in progress. */
  lemma {:induction false} PardonForgets(w: World, e: Timed, ip: string)
    requires Enabled(w, e.event) && Pardons(w, e.event, ip) && Clean(w, ip)
    ensures var was, now := At(w.limiter, ip), At(Step(w, e).limiter, ip);
            now.failures == 0 && now.lockedUntil == 0 && now.inFlight == was.inFlight
    ensures if e.event.Clear? && At(w.limiter, ip).failures == 0 then Step(w, e).limiter == w.limiter
            else ip in Step(w, e).limiter.entries <==> At(w.limiter, ip).inFlight > 0
    ensures Step(w, e).limiter.entries - {ip} == w.limiter.entries - {ip}
  {
  }

  lemma StepClean(w: World, e: Timed, ip: string)
    requires Enabled(w, e.event) && w.limiter.maxFailures > 0 && Clean(w, ip)
    ensures Clean(Step(w, e), ip) && Step(w, e).limiter.maxFailures == w.limiter.maxFailures
  {
  }

  /** So long as fewer than a round of failures follow, the address is not locked. */
  lemma StepRoom(w: World, e: Timed, ip: string, r: nat)
    requires Enabled(w, e.event) && r + FailsFor(w, e.event, ip) < w.limiter.maxFailures
    requires At(w.limiter, ip).failures <= r && At(w.limiter, ip).lockedUntil == 0
    ensures At(Step(w, e).limiter, ip).failures <= r + FailsFor(w, e.event, ip)
    ensures At(Step(w, e).limiter, ip).lockedUntil == 0 && Step(w, e).limiter.maxFailures == w.limiter.maxFailures
  {
  }

  lemma {:induction false} RunClean(w: World, es: seq<Timed>, ip: string)
    requires Feasible(w, es) && w.limiter.maxFailures > 0 && Clean(w, ip)
    ensures Clean(Run(w, es), ip)
    decreases |es|
  {
    hide Clean, Step, Enabled;
    if es != [] {
      StepClean(w, es[0], ip);
      RunClean(Step(w, es[0]), es[1..], ip);
    }
  }

  lemma {:induction false} RunRoom(w: World, es: seq<Timed>, ip: string, r: nat)
    requires Feasible(w, es) && r + Failures(w, es, ip) < w.limiter.maxFailures
    requires At(w.limiter, ip).failures <= r && At(w.limiter, ip).lockedUntil == 0
    ensures At(Run(w, es).limiter, ip).lockedUntil == 0
    decreases |es|
  {
    hide Step, Enabled, FailsFor;
    if es != [] {
      StepRoom(w, es[0], ip, r);
      RunRoom(Step(w, es[0]), es[1..], ip, r + FailsFor(w, es[0].event, ip));
    }
  }

  /** After a sign-in from the address or an admin's clearing, whatever came before, it fails maxFailures - 1 more times
      without being locked. */
  lemma {:induction false} PardonedRoom(maxFailures: nat, lockout: nat, past: seq<Timed>, e: Timed, es: seq<Timed>,
    ip: string)
    requires maxFailures > 0 && Feasible(Fresh(maxFailures, lockout), past)
    requires var w := Run(Fresh(maxFailures, lockout), past);
             && Enabled(w, e.event) && Pardons(w, e.event, ip) && Feasible(Step(w, e), es)
             && Failures(Step(w, e), es, ip) < maxFailures
    ensures var w := Run(Fresh(maxFailures, lockout), past); At(Run(Step(w, e), es).limiter, ip).lockedUntil == 0
  {
    hide Feasible, Run, Failures, Step, Enabled, Clean, Pardons;
    var w := Run(Fresh(maxFailures, lockout), past);
    assert Clean(Fresh(maxFailures, lockout), ip) by { FreshClean(maxFailures, lockout, ip); }
    RunClean(Fresh(maxFailures, lockout), past, ip);
    RunLimits(Fresh(maxFailures, lockout), past);
    PardonForgets(w, e, ip);
    StepClean(w, e, ip);
    RunRoom(Step(w, e), es, ip, 0);
  }

  lemma FreshClean(maxFailures: nat, lockout: nat, ip: string)
    ensures Clean(Fresh(maxFailures, lockout), ip)
  {
  }

  lemma {:induction false} RunLimits(w: World, es: seq<Timed>)
    requires Feasible(w, es) && w.limiter.maxFailures > 0
    ensures Run(w, es).limiter.maxFailures == w.limiter.maxFailures
    decreases |es|
  {
    hide Enabled;
    if es != [] { RunLimits(Step(w, es[0]), es[1..]); }
  }

  /** The sweep forgets an address with nothing in progress once its lockout is served, or its last failure is further
      back than a lockout; every other one it keeps as it is. */
  lemma {:induction false} SweepForgets(s: State, ip: string, now: Time)
    requires ip in s.entries && now - s.entries[ip].lastFailure <= 0x7FFF_FFFF_FFFF_FFFF
    ensures var e := s.entries[ip];
            if e.inFlight == 0 && e.failures >= s.maxFailures && now > e.lockedUntil then ip !in Swept(s, now).entries
            else if e.inFlight == 0 && e.failures < s.maxFailures && now > e.lastFailure + s.lockout then
              ip !in Swept(s, now).entries
            else ip in Swept(s, now).entries && Swept(s, now).entries[ip] == e
  {
  }
}
