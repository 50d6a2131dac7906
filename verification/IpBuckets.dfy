// Requests per address per minute, with a bounded table of addresses.
module IpBuckets {
  import opened Common

  /** Nanoseconds. */
  type Time = int

  const WINDOW: int := 60 * 1_000_000_000

  datatype Bucket = Bucket(windowStart: Time, count: nat)

  datatype State = State(rpm: nat, maxBuckets: nat, buckets: map<string, Bucket>, lastSweep: Time)

  // ---- One request ----

  function Swept(s: State, now: Time): State {
    if now - s.lastSweep >= WINDOW then
      s.(buckets := map ip | ip in s.buckets && now - s.buckets[ip].windowStart < WINDOW :: s.buckets[ip],
         lastSweep := now)
    else s
  }

  /** The address's bucket when its request is counted: new, restarted or running. */
  function Current(s: State, ip: string, now: Time): Bucket {
    if ip !in s.buckets || now - s.buckets[ip].windowStart >= WINDOW then Bucket(now, 0) else s.buckets[ip]
  }

  predicate Tracked(s: State, ip: string) {
    ip in s.buckets || |s.buckets| < s.maxBuckets
  }

  predicate Admits(s: State, ip: string, now: Time) {
    var t := Swept(s, now);
    Tracked(t, ip) && Current(t, ip, now).count < t.rpm
  }

  function After(s: State, ip: string, now: Time): State {
    var t := Swept(s, now);
    if !Tracked(t, ip) then t
    else
      var b := Current(t, ip, now);
      t.(buckets := t.buckets[ip := if b.count < t.rpm then b.(count := b.count + 1) else b])
  }

  class IpRateLimit {
    const rpm: nat
    const maxBuckets: nat
    var buckets: map<string, Bucket>
    var lastSweep: Time

    ghost function Contents(): State
      reads this
    {
      State(rpm, maxBuckets, buckets, lastSweep)
    }

    constructor (rpm: nat, maxBuckets: nat, zero: Time)
      ensures Contents() == State(rpm, maxBuckets, map[], zero)
    {
      this.rpm, this.maxBuckets, buckets, lastSweep := rpm, maxBuckets, map[], zero;
    }

    method Sweep(now: Time)
      requires now - lastSweep >= WINDOW
      modifies this
      ensures Contents() == Swept(old(Contents()), now)
    {
      var todo := buckets.Keys;
      while todo != {}
        invariant todo <= old(buckets).Keys && lastSweep == old(lastSweep)
        invariant forall ip ::
                  ip in buckets <==> ip in old(buckets) && (ip in todo || now - old(buckets)[ip].windowStart < WINDOW)
        invariant forall ip :: ip in buckets ==> buckets[ip] == old(buckets)[ip]
        decreases todo
      {
        var ip :| ip in todo;
        if now - buckets[ip].windowStart >= WINDOW {
          buckets := buckets - {ip};
        }
        todo := todo - {ip};
      }
      lastSweep := now;
    }

    method Handle(ip: string, now: Time) returns (admitted: bool)
      modifies this
      ensures admitted == Admits(old(Contents()), ip, now)
      ensures Contents() == After(old(Contents()), ip, now)
    {
      if now - lastSweep >= WINDOW {
        Sweep(now);
      }
      if ip !in buckets {
        if |buckets| >= maxBuckets {
          return false;
        }
        buckets := buckets[ip := Bucket(now, 0)];
      }
      var b := buckets[ip];
      if now - b.windowStart >= WINDOW {
        b := Bucket(now, 0);
        buckets := buckets[ip := b];
      }
      if b.count >= rpm {
        return false;
      }
      buckets := buckets[ip := b.(count := b.count + 1)];
      return true;
    }
  }

  // ---- The table stays bounded ----

  ghost predicate Bounded(s: State) {
    && |s.buckets| <= s.maxBuckets
    && forall ip :: ip in s.buckets ==> s.buckets[ip].count <= s.rpm
  }

  lemma Fewer(m: map<string, Bucket>, n: map<string, Bucket>)
    requires n.Keys <= m.Keys
    ensures |n| <= |m|
  {
    SubsetSize(n.Keys, m.Keys);
  }

  lemma SweptBounded(s: State, now: Time)
    requires Bounded(s)
    ensures Bounded(Swept(s, now))
  {
    Fewer(s.buckets, Swept(s, now).buckets);
  }

  lemma StepBounded(s: State, ip: string, now: Time)
    requires Bounded(s)
    ensures Bounded(After(s, ip, now)) && After(s, ip, now).rpm == s.rpm && After(s, ip, now).maxBuckets == s.maxBuckets
  {
    SweptBounded(s, now);
    var t := Swept(s, now);
    hide Swept;
    if Tracked(t, ip) {
      var b := After(s, ip, now).buckets[ip];
      assert t.buckets[ip := b].Keys == t.buckets.Keys + {ip};
    }
  }

  // ---- Runs ----

  datatype Request = Request(ip: string, at: Time)

  function Run(s: State, rs: seq<Request>): State
    decreases |rs|
  {
    if rs == [] then s else Run(After(s, rs[0].ip, rs[0].at), rs[1..])
  }

  function Admitted(s: State, rs: seq<Request>, ip: string): nat
    decreases |rs|
  {
    if rs == [] then 0
    else
      (if rs[0].ip == ip && Admits(s, rs[0].ip, rs[0].at) then 1 else 0)
        + Admitted(After(s, rs[0].ip, rs[0].at), rs[1..], ip)
  }

  ghost predicate Ordered(rs: seq<Request>, from: Time)
    decreases |rs|
  {
    rs == [] || (from <= rs[0].at && Ordered(rs[1..], rs[0].at))
  }

  /** The table never tracks more addresses than it may, whatever the clock does. */
  lemma {:induction false} RunBounded(s: State, rs: seq<Request>)
    requires Bounded(s)
    ensures Bounded(Run(s, rs)) && Run(s, rs).rpm == s.rpm && Run(s, rs).maxBuckets == s.maxBuckets
    decreases |rs|
  {
    hide Bounded, After;
    if rs != [] {
      StepBounded(s, rs[0].ip, rs[0].at);
      RunBounded(After(s, rs[0].ip, rs[0].at), rs[1..]);
    }
  }

  /** Where an address stands after r admissions since t0: all of them in the running window when it began by t0,
      at most a full window's more when it began later. */
  ghost predicate Phase(s: State, ip: string, r: nat, t0: Time, last: Time) {
    if ip !in s.buckets then r <= s.rpm && (r > 0 ==> last > t0)
    else
      var b := s.buckets[ip];
      && b.windowStart <= last
      && (b.windowStart <= t0 ==> r <= b.count && (r > 0 ==> t0 - b.windowStart < WINDOW))
      && (b.windowStart > t0 ==> r <= s.rpm + b.count)
  }

  lemma SweptPhase(s: State, ip: string, r: nat, t0: Time, last: Time, now: Time)
    requires Bounded(s) && Phase(s, ip, r, t0, last) && last <= now && t0 <= now <= t0 + WINDOW
    ensures Phase(Swept(s, now), ip, r, t0, now)
  {
  }

  lemma PhaseStep(s: State, q: Request, ip: string, r: nat, t0: Time, last: Time)
    requires Bounded(s) && Phase(s, ip, r, t0, last) && last <= q.at && t0 <= q.at <= t0 + WINDOW
    ensures Phase(After(s, q.ip, q.at), ip, r + (if q.ip == ip && Admits(s, q.ip, q.at) then 1 else 0), t0, q.at)
  {
    SweptPhase(s, ip, r, t0, last, q.at);
    SweptBounded(s, q.at);
    hide Swept;
  }

  lemma {:induction false} WindowAdmits(s: State, rs: seq<Request>, ip: string, r: nat, t0: Time, last: Time)
    requires Bounded(s) && Phase(s, ip, r, t0, last) && Ordered(rs, last) && t0 <= last
    requires forall i :: 0 <= i < |rs| ==> rs[i].at <= t0 + WINDOW
    ensures r + Admitted(s, rs, ip) <= 2 * s.rpm
    decreases |rs|
  {
    hide After, Admits;
    if rs != [] {
      StepBounded(s, rs[0].ip, rs[0].at);
      PhaseStep(s, rs[0], ip, r, t0, last);
      WindowAdmits(After(s, rs[0].ip, rs[0].at), rs[1..], ip,
        r + (if rs[0].ip == ip && Admits(s, rs[0].ip, rs[0].at) then 1 else 0), t0, rs[0].at);
    }
  }

  /** No bucket was started in the future. */
  ghost predicate Started(s: State, now: Time) {
    forall ip :: ip in s.buckets ==> s.buckets[ip].windowStart <= now
  }

  lemma {:induction false} RunStarted(s: State, rs: seq<Request>, from: Time, until: Time)
    requires Started(s, from) && Ordered(rs, from) && from <= until && forall i :: 0 <= i < |rs| ==> rs[i].at <= until
    ensures Started(Run(s, rs), until)
    decreases |rs|
  {
    if rs != [] {
      RunStarted(After(s, rs[0].ip, rs[0].at), rs[1..], rs[0].at, until);
    }
  }

  /**
   * From an empty table, after any past, no address is admitted more than
   * twice its allowance within any minute, ends included, sweeps and
   * restarted buckets included.
   */
  lemma {:induction false} AtMostTwice(rpm: nat, maxBuckets: nat, zero: Time, past: seq<Request>, rs: seq<Request>,
    ip: string, t0: Time)
    requires Ordered(past, zero) && zero <= t0 && forall i :: 0 <= i < |past| ==> past[i].at <= t0
    requires Ordered(rs, t0) && forall i :: 0 <= i < |rs| ==> rs[i].at <= t0 + 60_000_000_000
    ensures Admitted(Run(State(rpm, maxBuckets, map[], zero), past), rs, ip) <= 2 * rpm
  {
    var start := State(rpm, maxBuckets, map[], zero);
    RunBounded(start, past);
    RunStarted(start, past, zero, t0);
    hide Run, Bounded;
    WindowAdmits(Run(start, past), rs, ip, 0, t0, t0);
  }

  /** n requests from one address at one instant. */
  function Burst(ip: string, at: Time, n: nat): seq<Request> {
    if n == 0 then [] else [Request(ip, at)] + Burst(ip, at, n - 1)
  }

  /** An address whose count in the window starting now leaves room is admitted that often. */
  lemma {:induction false} BurstAdmitted(s: State, ip: string, now: Time, count: nat, n: nat)
    requires s.lastSweep == now && s.buckets == map[ip := Bucket(now, count)] && count + n <= s.rpm
    ensures Admitted(s, Burst(ip, now, n), ip) == n
    ensures Run(s, Burst(ip, now, n)) == s.(buckets := map[ip := Bucket(now, count + n)])
    decreases n
  {
    if n > 0 {
      var rs, t := Burst(ip, now, n), After(s, ip, now);
      assert rs[0] == Request(ip, now) && rs[1..] == Burst(ip, now, n - 1);
      assert t == s.(buckets := map[ip := Bucket(now, count + 1)]);
      BurstAdmitted(t, ip, now, count + 1, n - 1);
    }
  }

  /** A burst that finds no bucket running: the first request sweeps or starts the bucket, the others follow. */
  lemma {:induction false} FreshBurst(s: State, ip: string, now: Time)
    requires s.rpm > 0 && s.maxBuckets > 0
             && After(s, ip, now) == State(s.rpm, s.maxBuckets, map[ip := Bucket(now, 1)], now)
    requires Admits(s, ip, now)
    ensures Admitted(s, Burst(ip, now, s.rpm), ip) == s.rpm
    ensures Run(s, Burst(ip, now, s.rpm)) == State(s.rpm, s.maxBuckets, map[ip := Bucket(now, s.rpm)], now)
  {
    hide After, Admits;
    var rs := Burst(ip, now, s.rpm);
    assert rs[0] == Request(ip, now) && rs[1..] == Burst(ip, now, s.rpm - 1);
    BurstAdmitted(After(s, ip, now), ip, now, 1, s.rpm - 1);
  }

  lemma {:induction false} AdmittedTogether(s: State, a: seq<Request>, b: seq<Request>, ip: string)
    ensures Admitted(s, a + b, ip) == Admitted(s, a, ip) + Admitted(Run(s, a), b, ip)
    decreases |a|
  {
    hide After, Admits;
    if a == [] {
      assert a + b == b;
    } else {
      assert (a + b)[0] == a[0] && (a + b)[1..] == a[1..] + b;
      AdmittedTogether(After(s, a[0].ip, a[0].at), a[1..], b, ip);
    }
  }

  lemma {:induction false} BurstOrdered(ip: string, at: Time, n: nat, from: Time)
    requires from <= at
    ensures Ordered(Burst(ip, at, n), from) && forall i :: 0 <= i < |Burst(ip, at, n)| ==> Burst(ip, at, n)[i].at == at
  {
    if n > 0 {
      assert Burst(ip, at, n)[1..] == Burst(ip, at, n - 1);
      BurstOrdered(ip, at, n - 1, at);
    }
  }

  lemma {:induction false} OrderedTogether(a: seq<Request>, b: seq<Request>, from: Time, mid: Time)
    requires Ordered(a, from) && from <= mid && (forall i :: 0 <= i < |a| ==> a[i].at <= mid) && Ordered(b, mid)
    ensures Ordered(a + b, from)
    decreases |a|
  {
    if a == [] {
      assert a + b == b;
    } else {
      assert (a + b)[0] == a[0] && (a + b)[1..] == a[1..] + b;
      OrderedTogether(a[1..], b, a[0].at, mid);
    }
  }

  /** The bound is met whatever the limits: a full allowance as a window starts, and another as it ends, one minute
      apart. */
  lemma {:induction false} TwiceReached(rpm: nat, maxBuckets: nat, zero: Time, ip: string)
    requires rpm > 0 && maxBuckets > 0
    ensures var rs := Burst(ip, zero, rpm) + Burst(ip, zero + 60_000_000_000, rpm);
            && Ordered(rs, zero) && (forall i :: 0 <= i < |rs| ==> rs[i].at <= zero + 60_000_000_000)
            && Admitted(State(rpm, maxBuckets, map[], zero), rs, ip) == 2 * rpm
  {
    var s := State(rpm, maxBuckets, map[], zero);
    var a, b := Burst(ip, zero, rpm), Burst(ip, zero + WINDOW, rpm);
    assert Swept(s, zero).buckets == map[];
    FreshBurst(s, ip, zero);
    var t := Run(s, a);
    assert Swept(t, zero + WINDOW).buckets == map[];
    FreshBurst(t, ip, zero + WINDOW);
    hide Run, Admitted, After, Admits, Ordered;
    AdmittedTogether(s, a, b, ip);
    BurstOrdered(ip, zero, rpm, zero);
    BurstOrdered(ip, zero + WINDOW, rpm, zero);
    BurstOrdered(ip, zero + WINDOW, rpm, zero + WINDOW);
    OrderedTogether(a, b, zero, zero + WINDOW);
  }
}
