// The sign-in limiter: failures, attempts in progress and lockouts per
// address.
module RateLimiter {
  import opened Common

  /** Nanoseconds since the zero time. */
  type Time = nat

  const ZERO_TIME: Time := 0
  const DEFAULT_MAX_FAILURES: nat := 3
  const DEFAULT_LOCKOUT: nat := 10 * 60 * 1_000_000_000
  const MAX_DURATION: int := 0x7FFF_FFFF_FFFF_FFFF

  datatype LoginEntry = LoginEntry(failures: nat, inFlight: nat, lockedUntil: Time, lastFailure: Time)

  datatype State = State(entries: map<string, LoginEntry>, maxFailures: nat, lockout: nat)

  const BLANK: LoginEntry := LoginEntry(0, 0, ZERO_TIME, ZERO_TIME)

  function Get(entries: map<string, LoginEntry>, ip: string): LoginEntry {
    if ip in entries then entries[ip] else BLANK
  }

  function At(s: State, ip: string): LoginEntry {
    Get(s.entries, ip)
  }

  /** Time between two instants, as far as a duration reaches. */
  function Elapsed(now: Time, since: Time): int {
    if now - since > MAX_DURATION then MAX_DURATION
    else if now - since < -MAX_DURATION - 1 then -MAX_DURATION - 1
    else now - since
  }

  // ---- The operations as functions of the state ----

  /** Failures that count against the next attempt: a served lockout counts none. */
  function Round(e: LoginEntry, maxFailures: nat): nat {
    if e.failures >= maxFailures then 0 else e.failures
  }

  predicate Admits(s: State, ip: string, now: Time) {
    !(now < At(s, ip).lockedUntil) && Round(At(s, ip), s.maxFailures) + At(s, ip).inFlight < s.maxFailures
  }

  function Begun(s: State, ip: string, now: Time): State {
    var e := At(s, ip);
    s.(entries := s.entries[ip := if Admits(s, ip, now) then e.(inFlight := e.inFlight + 1) else e])
  }

  /** One more failure, in a new round when the lockout has been served. */
  function Counted(e: LoginEntry, now: Time, maxFailures: nat, lockout: nat): LoginEntry {
    var failures := (if e.failures >= maxFailures && now > e.lockedUntil then 0 else e.failures) + 1;
    LoginEntry(failures, e.inFlight, if failures >= maxFailures then now + lockout else e.lockedUntil, now)
  }

  function FailureRecorded(s: State, ip: string, now: Time): State {
    var e := At(s, ip);
    s.(entries := s.entries[ip := if now < e.lockedUntil then e else Counted(e, now, s.maxFailures, s.lockout)])
  }

  function Ended(s: State, ip: string): State {
    if ip in s.entries && s.entries[ip].inFlight > 0 then
      s.(entries := s.entries[ip := s.entries[ip].(inFlight := s.entries[ip].inFlight - 1)])
    else s
  }

  /** Forget failures and lockout but not the attempts in progress. */
  function Pardoned(s: State, ip: string): State {
    if ip !in s.entries then s
    else if s.entries[ip].inFlight > 0 then s.(entries := s.entries[ip := BLANK.(inFlight := s.entries[ip].inFlight)])
    else s.(entries := s.entries - {ip})
  }

  function Cleared(s: State, ip: string): State {
    if ip in s.entries && s.entries[ip].failures > 0 then Pardoned(s, ip) else s
  }

  /** The periodic cleanup drops this entry. */
  predicate Stale(e: LoginEntry, now: Time, maxFailures: nat, lockout: nat) {
    && e.inFlight == 0
    && (if e.failures >= maxFailures then now > e.lockedUntil else Elapsed(now, e.lastFailure) > lockout)
  }

  function Swept(s: State, now: Time): State {
    s.(entries := map ip | ip in s.entries && !Stale(s.entries[ip], now, s.maxFailures, s.lockout) :: s.entries[ip])
  }

  // ---- The limiter ----

  class RateLimiter {
    var entries: map<string, LoginEntry>
    var maxFailures: nat
    var lockoutDuration: nat

    ghost function Contents(): State
      reads this
    {
      State(entries, maxFailures, lockoutDuration)
    }

    constructor ()
      ensures Contents() == State(map[], 3, 600_000_000_000)
    {
      entries, maxFailures, lockoutDuration := map[], DEFAULT_MAX_FAILURES, DEFAULT_LOCKOUT;
    }

    method SetLimits(failures: int, lockout: int)
      modifies this
      ensures entries == old(entries) && maxFailures > 0 && lockoutDuration > 0
      ensures maxFailures == if failures > 0 then failures else 3
      ensures lockoutDuration == if lockout > 0 then lockout else 600_000_000_000
    {
      maxFailures := if failures <= 0 then DEFAULT_MAX_FAILURES else failures;
      lockoutDuration := if lockout <= 0 then DEFAULT_LOCKOUT else lockout;
    }

    method RecordFailure(ip: string, now: Time) returns (locked: bool)
      modifies this`entries
      ensures Contents() == FailureRecorded(old(Contents()), ip, now)
      ensures locked <==> now < old(At(Contents(), ip)).lockedUntil || At(Contents(), ip).failures >= maxFailures
    {
      if ip !in entries {
        entries := entries[ip := BLANK];
      }
      var e := entries[ip];
      if now < e.lockedUntil {
        return true;
      }
      if e.failures >= maxFailures && now > e.lockedUntil {
        e := e.(failures := 0);
      }
      e := e.(failures := e.failures + 1, lastFailure := now);
      if e.failures >= maxFailures {
        e := e.(lockedUntil := now + lockoutDuration);
        entries := entries[ip := e];
        return true;
      }
      entries := entries[ip := e];
      return false;
    }

    method TryBegin(ip: string, now: Time) returns (admitted: bool)
      modifies this`entries
      ensures admitted == Admits(old(Contents()), ip, now)
      ensures Contents() == Begun(old(Contents()), ip, now)
    {
      if ip !in entries {
        entries := entries[ip := BLANK];
      }
      var e := entries[ip];
      if now < e.lockedUntil {
        return false;
      }
      var failures := e.failures;
      if failures >= maxFailures {
        failures := 0;
      }
      if failures + e.inFlight >= maxFailures {
        return false;
      }
      entries := entries[ip := e.(inFlight := e.inFlight + 1)];
      return true;
    }

    method End(ip: string)
      modifies this`entries
      ensures Contents() == Ended(old(Contents()), ip)
    {
      if ip in entries && entries[ip].inFlight > 0 {
        entries := entries[ip := entries[ip].(inFlight := entries[ip].inFlight - 1)];
      }
    }

    method Reset(ip: string)
      modifies this`entries
      ensures Contents() == Pardoned(old(Contents()), ip)
    {
      if ip !in entries {
        return;
      }
      var e := entries[ip];
      if e.inFlight > 0 {
        entries := entries[ip := LoginEntry(0, e.inFlight, ZERO_TIME, ZERO_TIME)];
        return;
      }
      entries := entries - {ip};
    }

    method Clear(ip: string) returns (cleared: bool)
      modifies this`entries
      ensures cleared <==> old(At(Contents(), ip)).failures > 0
      ensures Contents() == Cleared(old(Contents()), ip)
    {
      if ip !in entries || entries[ip].failures == 0 {
        return false;
      }
      var e := entries[ip];
      if e.inFlight > 0 {
        entries := entries[ip := LoginEntry(0, e.inFlight, ZERO_TIME, ZERO_TIME)];
        return true;
      }
      entries := entries - {ip};
      return true;
    }

    method Cleanup(now: Time)
      modifies this`entries
      ensures Contents() == Swept(old(Contents()), now)
    {
      var todo := entries.Keys;
      while todo != {}
        invariant todo <= old(entries).Keys
        invariant forall ip ::
                  ip in entries
                  <==> ip in old(entries) && (ip in todo || !Stale(old(entries)[ip], now, maxFailures, lockoutDuration))
        invariant forall ip :: ip in entries ==> entries[ip] == old(entries)[ip]
        decreases todo
      {
        var ip :| ip in todo;
        todo := todo - {ip};
        var e := entries[ip];
        if e.inFlight > 0 {
          continue;
        }
        if e.failures >= maxFailures {
          if now > e.lockedUntil {
            entries := entries - {ip};
          }
        } else if Elapsed(now, e.lastFailure) > lockoutDuration {
          entries := entries - {ip};
        }
      }
    }
  }
}
