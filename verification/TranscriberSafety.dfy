// What holds in every reachable state of the transcriber, and what follows for
// the jobs it accepted.
module TranscriberSafety {
  import opened Common
  import opened Transcriber
  import opened TranscriberRuns

  // ---- One pool ----

  ghost predicate SafePool(p: Pool) {
    && |p.workers| > 0
    && (forall w :: 0 <= w < |p.workers| ==> p.workers[w].Exited? ==> p.cancelled)
    && (p.closed ==> forall w :: 0 <= w < |p.workers| ==> p.workers[w].Exited?)
    && (forall w :: 0 <= w < |p.workers| && p.workers[w].Trying? ==> p.workers[w].attempt <= MAX_RETRIES)
    && (forall w :: 0 <= w < |p.workers| && p.workers[w].Waiting? ==> 0 < p.workers[w].attempt <= MAX_RETRIES)
    && (p.pump.NoPump? ==> p.jobs == [] && p.results == [] && forall w :: 0 <= w < |p.workers| ==>
        p.workers[w].Idle? || p.workers[w].Exited?)
    && |p.jobs| <= Capacity(p) && |p.results| <= Capacity(p)
  }

  /** Only the current pool, or the one being pinged, has not been cancelled; jobs only go where a pump reads. */
  ghost predicate Safe(s: System) {
    && (forall i :: 0 <= i < |s.pools| ==> SafePool(s.pools[i]))
    && (forall i :: 0 <= i < |s.pools| && !s.pools[i].cancelled ==> s.current == Some(i) || s.lock == Pinging(i))
    && (s.current.Some? ==> s.lock.Free? && s.current.value < |s.pools| && !s.pools[s.current.value].pump.NoPump?)
    && (s.lock.Pinging? ==> s.lock.pool < |s.pools| && s.pools[s.lock.pool].pump.NoPump?)
    && (forall j :: j in s.submitting ==> s.submitting[j] < |s.pools| && !s.pools[s.submitting[j]].pump.NoPump?)
    && (s.appDone ==> forall i :: 0 <= i < |s.pools| ==> s.pools[i].cancelled)
    && (forall k :: 0 <= k < |s.dropped| ==> s.dropped[k].1 < |s.pools| && s.pools[s.dropped[k].1].cancelled)
    && |s.out| <= MANAGER_BUFFER
  }

  /** A pool after one of its own steps: still safe, cancelled or not as before, and with a pump if it had one. */
  ghost predicate Succeeds(p: Pool, p': Pool) {
    && SafePool(p') && (p.cancelled ==> p'.cancelled) && (!p.pump.NoPump? ==> !p'.pump.NoPump?)
  }

  lemma PoolReplaced(s: System, i: nat, p: Pool)
    requires Safe(s) && i < |s.pools| && Succeeds(s.pools[i], p) && (p.pump.NoPump? <==> s.pools[i].pump.NoPump?)
    ensures Safe(SetPool(s, i, p))
  {
    hide SafePool;
  }

  /** No worker ever finds its pool's results channel closed when it sends. */
  lemma {:induction false} NeverSendsOnClosed(s: System, i: nat, w: nat)
    requires Safe(s) && Enabled(s, Send(i, w))
    ensures !s.pools[i].closed
  {
    assert SafePool(s.pools[i]);
  }

  lemma WorkerSafe(p: Pool, w: nat, state: Worker)
    requires SafePool(p) && w < |p.workers| && !p.workers[w].Exited? && !p.pump.NoPump?
    requires !state.Exited? && (state.Trying? ==> state.attempt <= MAX_RETRIES)
             && (state.Waiting? ==> 0 < state.attempt <= MAX_RETRIES)
    ensures Succeeds(p, SetWorker(p, w, state))
  {
  }

  lemma {:induction false} StepSafe(s: System, a: Action)
    requires Safe(s) && Enabled(s, a)
    ensures Safe(Step(s, a))
  {
    hide SafePool, Safe, Succeeds;
    match a
    case SetMinDuration(ms) => SamePoolsSafe(s, Step(s, a));
    case Submit(job) => SubmitSafe(s, job);
    case Enqueue(job) => EnqueueSafe(s, job);
    case GiveUp(job) => SamePoolsSafe(s, Step(s, a));
    case Take(i, w) => TakeSafe(s, i, w);
    case Exit(i, w) => ExitSafe(s, i, w);
    case Answer(i, w, reply) => WorkerStepSafe(s, a, i, w);
    case Retry(i, w) => WorkerStepSafe(s, a, i, w);
    case Interrupt(i, w) => WorkerStepSafe(s, a, i, w);
    case Send(i, w) => SendSafe(s, i, w);
    case Drop(i, w) => DropSafe(s, i, w);
    case Close(i) => PumpSafe(s, a, i);
    case Pull(i) => PumpSafe(s, a, i);
    case Forward(i) => PumpSafe(s, a, i);
    case PumpStops(i) => PumpStopsSafe(s, i);
    case PumpEnds(i) => PumpSafe(s, a, i);
    case Consume => SamePoolsSafe(s, Step(s, a));
    case _ => ReloadSafe(s, a);
  }

  lemma SamePoolsSafe(s: System, s': System)
    requires Safe(s) && s'.pools == s.pools && s'.current == s.current && s'.lock == s.lock && s'.appDone == s.appDone
    requires s'.submitting.Keys <= s.submitting.Keys
             && (forall j :: j in s'.submitting ==> s'.submitting[j] == s.submitting[j])
    requires s'.dropped == s.dropped && |s'.out| <= |s.out|
    ensures Safe(s')
  {
    hide SafePool;
  }

  lemma SubmitSafe(s: System, job: Job)
    requires Safe(s) && Enabled(s, Submit(job))
    ensures Safe(Step(s, Submit(job)))
  {
    hide SafePool;
  }

  lemma EnqueueSafe(s: System, job: Job)
    requires Safe(s) && Enabled(s, Enqueue(job))
    ensures Safe(Step(s, Enqueue(job)))
  {
    var i := s.submitting[job];
    var p := s.pools[i].(jobs := s.pools[i].jobs + [job]);
    assert SafePool(s.pools[i]);
    assert Succeeds(s.pools[i], p);
    PoolReplaced(s, i, p);
    hide SafePool, Safe;
    SamePoolsSafe(SetPool(s, i, p), Step(s, Enqueue(job)));
  }

  /** A busy worker moved on to another busy or idle state. */
  lemma WorkerReplaced(s: System, i: nat, w: nat, state: Worker)
    requires Safe(s) && HasWorker(s, i, w) && !s.pools[i].workers[w].Exited? && !s.pools[i].pump.NoPump?
    requires !state.Exited? && (state.Trying? ==> state.attempt <= MAX_RETRIES)
             && (state.Waiting? ==> 0 < state.attempt <= MAX_RETRIES)
    ensures Safe(SetPool(s, i, SetWorker(s.pools[i], w, state)))
  {
    assert SafePool(s.pools[i]);
    WorkerSafe(s.pools[i], w, state);
    hide SafePool, Succeeds;
    PoolReplaced(s, i, SetWorker(s.pools[i], w, state));
  }

  lemma BusyMeansPump(s: System, i: nat, w: nat)
    requires Safe(s) && HasWorker(s, i, w)
    ensures s.pools[i].workers[w].Trying? || s.pools[i].workers[w].Waiting? || s.pools[i].workers[w].Sending? ==>
            !s.pools[i].pump.NoPump?
    ensures s.pools[i].workers[w].Trying? || s.pools[i].workers[w].Waiting? ==>
            s.pools[i].workers[w].attempt <= MAX_RETRIES
    ensures s.pools[i].workers[w].Waiting? ==> 0 < s.pools[i].workers[w].attempt
    ensures s.pools[i].jobs != [] ==> !s.pools[i].pump.NoPump?
  {
    assert SafePool(s.pools[i]);
  }

  lemma WorkerStepSafe(s: System, a: Action, i: nat, w: nat)
    requires Safe(s) && Enabled(s, a)
    requires (a.Answer? && a.pool == i && a.worker == w) || a == Retry(i, w) || a == Interrupt(i, w)
    ensures Safe(Step(s, a))
  {
    hide SafePool, Safe;
    BusyMeansPump(s, i, w);
    var state := Step(s, a).pools[i].workers[w];
    WorkerReplaced(s, i, w, state);
    SamePoolsSafe(SetPool(s, i, SetWorker(s.pools[i], w, state)), Step(s, a));
  }

  lemma TakeSafe(s: System, i: nat, w: nat)
    requires Safe(s) && Enabled(s, Take(i, w))
    ensures Safe(Step(s, Take(i, w)))
  {
    hide SafePool, Safe;
    BusyMeansPump(s, i, w);
    var p := s.pools[i].(jobs := s.pools[i].jobs[1..]);
    FewerJobs(s, i);
    WorkerReplaced(SetPool(s, i, p), i, w, Trying(s.pools[i].jobs[0], 0));
    assert SetPool(SetPool(s, i, p), i, SetWorker(p, w, Trying(s.pools[i].jobs[0], 0))).pools
      == Step(s, Take(i, w)).pools;
    SamePoolsSafe(SetPool(SetPool(s, i, p), i, SetWorker(p, w, Trying(s.pools[i].jobs[0], 0))), Step(s, Take(i, w)));
  }

  lemma FewerJobs(s: System, i: nat)
    requires Safe(s) && i < |s.pools| && s.pools[i].jobs != [] && !s.pools[i].pump.NoPump?
    ensures Safe(SetPool(s, i, s.pools[i].(jobs := s.pools[i].jobs[1..])))
  {
    var p := s.pools[i].(jobs := s.pools[i].jobs[1..]);
    assert SafePool(s.pools[i]) && SafePool(p);
    hide SafePool;
    PoolReplaced(s, i, p);
  }

  lemma MoreResults(s: System, i: nat, r: Result)
    requires Safe(s) && i < |s.pools| && |s.pools[i].results| < Capacity(s.pools[i]) && !s.pools[i].pump.NoPump?
    ensures Safe(SetPool(s, i, s.pools[i].(results := s.pools[i].results + [r])))
  {
    var p := s.pools[i].(results := s.pools[i].results + [r]);
    assert SafePool(s.pools[i]) && SafePool(p);
    hide SafePool;
    PoolReplaced(s, i, p);
  }

  lemma SendSafe(s: System, i: nat, w: nat)
    requires Safe(s) && Enabled(s, Send(i, w))
    ensures Safe(Step(s, Send(i, w)))
  {
    hide SafePool, Safe;
    BusyMeansPump(s, i, w);
    var p := s.pools[i].(results := s.pools[i].results + [s.pools[i].workers[w].result]);
    MoreResults(s, i, s.pools[i].workers[w].result);
    WorkerReplaced(SetPool(s, i, p), i, w, Idle);
    assert SetPool(SetPool(s, i, p), i, SetWorker(p, w, Idle)).pools == Step(s, Send(i, w)).pools;
    SamePoolsSafe(SetPool(SetPool(s, i, p), i, SetWorker(p, w, Idle)), Step(s, Send(i, w)));
  }

  lemma ExitSafe(s: System, i: nat, w: nat)
    requires Safe(s) && Enabled(s, Exit(i, w))
    ensures Safe(Step(s, Exit(i, w)))
  {
    assert SafePool(s.pools[i]);
    assert Succeeds(s.pools[i], SetWorker(s.pools[i], w, Exited));
    PoolReplaced(s, i, SetWorker(s.pools[i], w, Exited));
  }

  lemma DropSafe(s: System, i: nat, w: nat)
    requires Safe(s) && Enabled(s, Drop(i, w))
    ensures Safe(Step(s, Drop(i, w)))
  {
    assert SafePool(s.pools[i]);
    WorkerSafe(s.pools[i], w, Idle);
    PoolReplaced(s, i, SetWorker(s.pools[i], w, Idle));
    hide SafePool;
  }

  lemma PumpSafe(s: System, a: Action, i: nat)
    requires Safe(s) && Enabled(s, a) && (a == Close(i) || a == Pull(i) || a == Forward(i) || a == PumpEnds(i))
    ensures Safe(Step(s, a))
  {
    var p := s.pools[i];
    var p' := Step(s, a).pools[i];
    assert SafePool(p) && Succeeds(p, p') by {
      assert SafePool(s.pools[i]);
      if a.Close? { ClosedSafe(p); } else { ReadSafe(p, p'); }
    }
    hide SafePool, Succeeds;
    PoolReplaced(s, i, p');
    hide Safe;
    assert |s.out| <= MANAGER_BUFFER by { OutBounded(s); }
    PumpedSystem(s, a, i);
  }

  lemma OutBounded(s: System)
    requires Safe(s)
    ensures |s.out| <= MANAGER_BUFFER
  {
  }

  lemma ClosedSafe(p: Pool)
    requires SafePool(p) && forall w :: 0 <= w < |p.workers| ==> p.workers[w].Exited?
    ensures Succeeds(p, p.(closed := true))
  {
  }

  lemma ReadSafe(p: Pool, p': Pool)
    requires SafePool(p) && !p.pump.NoPump? && !p'.pump.NoPump? && |p'.results| <= |p.results|
    requires p' == p.(pump := p'.pump, results := p'.results)
    ensures Succeeds(p, p')
  {
  }

  lemma PumpedSystem(s: System, a: Action, i: nat)
    requires Enabled(s, a) && (a == Close(i) || a == Pull(i) || a == Forward(i) || a == PumpEnds(i))
    requires Safe(SetPool(s, i, Step(s, a).pools[i]))
    ensures Safe(Step(s, a))
  {
    hide SafePool;
  }

  lemma PumpStopsSafe(s: System, i: nat)
    requires Safe(s) && Enabled(s, PumpStops(i))
    ensures Safe(Step(s, PumpStops(i)))
  {
    assert SafePool(s.pools[i]);
    PoolReplaced(s, i, s.pools[i].(pump := Stopped));
    hide SafePool;
  }

  lemma ReloadSafe(s: System, a: Action)
    requires Safe(s) && Enabled(s, a)
    requires a.ReloadStops? || a.ReloadGivesUp? || a.ReloadStarts? || a.PingOk? || a.PingFails? || a.AppStops?
    ensures Safe(Step(s, a))
  {
    hide SafePool, Safe;
    match a
    case ReloadStops => StopsSafe(s);
    case ReloadGivesUp => FreedSafe(s);
    case ReloadStarts => StartsSafe(s);
    case PingOk => PingOkSafe(s);
    case PingFails => PingFailsSafe(s);
    case AppStops => AppStopsSafe(s);
  }

  lemma StopsSafe(s: System)
    requires Safe(s) && Enabled(s, ReloadStops)
    ensures Safe(Step(s, ReloadStops))
  {
    hide SafePool;
    if s.current.Some? { CancelledSafe(s.pools[s.current.value]); }
  }

  lemma FreedSafe(s: System)
    requires Safe(s) && Enabled(s, ReloadGivesUp)
    ensures Safe(Step(s, ReloadGivesUp))
  {
    hide SafePool;
  }

  lemma StartsSafe(s: System)
    requires Safe(s) && Enabled(s, ReloadStarts)
    ensures Safe(Step(s, ReloadStarts))
  {
    hide SafePool;
    NewPoolSafe(RELOAD_WORKERS, s.appDone);
  }

  lemma PingOkSafe(s: System)
    requires Safe(s) && Enabled(s, PingOk)
    ensures Safe(Step(s, PingOk))
  {
    hide SafePool;
    PumpedSafe(s.pools[s.lock.pool]);
  }

  lemma PingFailsSafe(s: System)
    requires Safe(s) && Enabled(s, PingFails)
    ensures Safe(Step(s, PingFails))
  {
    hide SafePool;
    CancelledSafe(s.pools[s.lock.pool]);
  }

  lemma AppStopsSafe(s: System)
    requires Safe(s)
    ensures Safe(Step(s, AppStops))
  {
    hide SafePool;
    forall i | 0 <= i < |s.pools|
      ensures SafePool(s.pools[i].(cancelled := true))
    {
      CancelledSafe(s.pools[i]);
    }
  }

  lemma CancelledSafe(p: Pool)
    requires SafePool(p)
    ensures SafePool(p.(cancelled := true))
  {
  }

  lemma PumpedSafe(p: Pool)
    requires SafePool(p)
    ensures SafePool(p.(pump := Reading))
  {
  }

  lemma NewPoolSafe(workers: nat, cancelled: bool)
    requires workers > 0
    ensures SafePool(NewPool(workers, cancelled))
  {
  }
}
