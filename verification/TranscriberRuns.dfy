// No step of the transcriber loses or doubles a job.
module TranscriberRuns {
  import opened Common
  import opened Transcriber

  // ---- How often a job is somewhere ----

  function One(b: bool): nat {
    if b then 1 else 0
  }

  function Holds(w: Worker, j: Job): nat {
    match w
    case Trying(job, _) => One(job == j)
    case Waiting(job, _) => One(job == j)
    case Sending(result) => One(result.job == j)
    case _ => 0
  }

  function InHands(ws: seq<Worker>, j: Job): nat {
    if ws == [] then 0 else Holds(ws[0], j) + InHands(ws[1..], j)
  }

  function InQueue(jobs: seq<Job>, j: Job): nat {
    if jobs == [] then 0 else One(jobs[0] == j) + InQueue(jobs[1..], j)
  }

  function InResults(rs: seq<Result>, j: Job): nat {
    if rs == [] then 0 else One(rs[0].job == j) + InResults(rs[1..], j)
  }

  function InPump(p: Pump, j: Job): nat {
    if p.Forwarding? then One(p.result.job == j) else 0
  }

  function InPool(p: Pool, j: Job): nat {
    InQueue(p.jobs, j) + InHands(p.workers, j) + InResults(p.results, j) + InPump(p.pump, j)
  }

  function InPools(ps: seq<Pool>, j: Job): nat {
    if ps == [] then 0 else InPool(ps[0], j) + InPools(ps[1..], j)
  }

  function InDropped(d: seq<(Job, nat)>, j: Job): nat {
    if d == [] then 0 else One(d[0].0 == j) + InDropped(d[1..], j)
  }

  /** An accepted job is in exactly one place, and no other job is anywhere. */
  ghost predicate Conserved(s: System, j: Job) {
    && InPools(s.pools, j) + InResults(s.out, j) + InResults(s.consumed, j) + InDropped(s.dropped, j)
       == One(j in s.accepted)
    && (j in s.submitting ==> j !in s.accepted)
  }

  // ---- How the counts change ----

  lemma {:induction false} HandsUpdate(ws: seq<Worker>, i: nat, w: Worker, j: Job)
    requires i < |ws|
    ensures InHands(ws[i := w], j) + Holds(ws[i], j) == InHands(ws, j) + Holds(w, j)
  {
    hide Holds;
    if i == 0 {
      assert ws[0 := w][1..] == ws[1..];
    } else {
      assert ws[i := w][1..] == ws[1..][i - 1 := w];
      HandsUpdate(ws[1..], i - 1, w, j);
    }
  }

  lemma {:induction false} QueueAppend(jobs: seq<Job>, job: Job, j: Job)
    ensures InQueue(jobs + [job], j) == InQueue(jobs, j) + One(job == j)
  {
    if jobs == [] {
      assert [job][1..] == [];
    } else {
      assert (jobs + [job])[1..] == jobs[1..] + [job];
      QueueAppend(jobs[1..], job, j);
    }
  }

  lemma {:induction false} ResultsAppend(rs: seq<Result>, r: Result, j: Job)
    ensures InResults(rs + [r], j) == InResults(rs, j) + One(r.job == j)
  {
    if rs == [] {
      assert [r][1..] == [];
    } else {
      assert (rs + [r])[1..] == rs[1..] + [r];
      ResultsAppend(rs[1..], r, j);
    }
  }

  lemma {:induction false} DroppedAppend(d: seq<(Job, nat)>, e: (Job, nat), j: Job)
    ensures InDropped(d + [e], j) == InDropped(d, j) + One(e.0 == j)
  {
    if d == [] {
      assert [e][1..] == [];
    } else {
      assert (d + [e])[1..] == d[1..] + [e];
      DroppedAppend(d[1..], e, j);
    }
  }

  lemma {:induction false} PoolsUpdate(ps: seq<Pool>, i: nat, p: Pool, j: Job)
    requires i < |ps|
    ensures InPools(ps[i := p], j) + InPool(ps[i], j) == InPools(ps, j) + InPool(p, j)
  {
    hide InPool;
    if i == 0 {
      assert ps[0 := p][1..] == ps[1..];
    } else {
      assert ps[i := p][1..] == ps[1..][i - 1 := p];
      PoolsUpdate(ps[1..], i - 1, p, j);
    }
  }

  lemma {:induction false} PoolsAppend(ps: seq<Pool>, p: Pool, j: Job)
    ensures InPools(ps + [p], j) == InPools(ps, j) + InPool(p, j)
  {
    hide InPool;
    if ps == [] {
      assert [p][1..] == [];
    } else {
      assert (ps + [p])[1..] == ps[1..] + [p];
      PoolsAppend(ps[1..], p, j);
    }
  }

  lemma {:induction false} CancelledHold(ps: seq<Pool>, j: Job)
    ensures InPools(CancelAll(ps), j) == InPools(ps, j)
  {
    if ps != [] {
      CancelledHold(ps[1..], j);
      assert CancelAll(ps)[1..] == CancelAll(ps[1..]);
    }
  }

  lemma {:induction false} IdleHold(n: nat, j: Job)
    ensures InHands(seq(n, _ => Idle), j) == 0
  {
    if n > 0 {
      IdleHold(n - 1, j);
      assert seq(n, _ => Idle)[1..] == seq(n - 1, _ => Idle);
    }
  }

  // ---- Conservation, step by step ----

  /** A pool took in so many and gave out so many of a job. */
  lemma PoolStep(s: System, i: nat, p: Pool, j: Job)
    requires i < |s.pools|
    ensures InPools(SetPool(s, i, p).pools, j) == InPools(s.pools, j) + InPool(p, j) - InPool(s.pools[i], j)
  {
    hide InPool, InPools;
    PoolsUpdate(s.pools, i, p, j);
  }

  lemma WorkerStep(s: System, i: nat, w: nat, state: Worker, j: Job)
    requires HasWorker(s, i, w)
    ensures var p := s.pools[i];
            && InHands(p.workers[w := state], j) == InHands(p.workers, j) + Holds(state, j) - Holds(p.workers[w], j)
            && InPools(SetPool(s, i, SetWorker(p, w, state)).pools, j)
               == InPools(s.pools, j) + Holds(state, j) - Holds(p.workers[w], j)
  {
    hide Holds, InHands, InPools, InQueue, InResults, InPump;
    HandsUpdate(s.pools[i].workers, w, state, j);
    PoolStep(s, i, SetWorker(s.pools[i], w, state), j);
  }

  lemma TakeConserves(s: System, i: nat, w: nat, j: Job)
    requires Conserved(s, j) && Enabled(s, Take(i, w))
    ensures Conserved(Step(s, Take(i, w)), j)
  {
    hide InHands, InPools, InResults, InPump;
    var p := s.pools[i];
    WorkerStep(s, i, w, Trying(p.jobs[0], 0), j);
    PoolStep(s, i, SetWorker(p.(jobs := p.jobs[1..]), w, Trying(p.jobs[0], 0)), j);
  }

  lemma SendConserves(s: System, i: nat, w: nat, j: Job)
    requires Conserved(s, j) && Enabled(s, Send(i, w))
    ensures Conserved(Step(s, Send(i, w)), j)
  {
    hide InHands, InPools, InQueue, InResults, InPump;
    var p := s.pools[i];
    WorkerStep(s, i, w, Idle, j);
    ResultsAppend(p.results, p.workers[w].result, j);
    PoolStep(s, i, SetWorker(p.(results := p.results + [p.workers[w].result]), w, Idle), j);
  }

  lemma WorkerConserves(s: System, i: nat, w: nat, state: Worker, j: Job)
    requires Conserved(s, j) && HasWorker(s, i, w) && Holds(state, j) == Holds(s.pools[i].workers[w], j)
    ensures Conserved(SetPool(s, i, SetWorker(s.pools[i], w, state)), j)
  {
    hide Holds, InHands, InPools, InResults;
    WorkerStep(s, i, w, state, j);
  }

  lemma DropConserves(s: System, i: nat, w: nat, j: Job)
    requires Conserved(s, j) && Enabled(s, Drop(i, w))
    ensures Conserved(Step(s, Drop(i, w)), j)
  {
    hide InHands, InPools, InResults, InDropped;
    WorkerStep(s, i, w, Idle, j);
    DroppedAppend(s.dropped, (s.pools[i].workers[w].result.job, i), j);
  }

  lemma PullConserves(s: System, i: nat, j: Job)
    requires Conserved(s, j) && Enabled(s, Pull(i))
    ensures Conserved(Step(s, Pull(i)), j)
  {
    hide InHands, InPools, InQueue, InDropped;
    var p := s.pools[i];
    PoolStep(s, i, p.(results := p.results[1..], pump := Forwarding(p.results[0])), j);
  }

  lemma ForwardConserves(s: System, i: nat, j: Job)
    requires Conserved(s, j) && Enabled(s, Forward(i))
    ensures Conserved(Step(s, Forward(i)), j)
  {
    hide InHands, InPools, InQueue, InDropped, InResults;
    PoolStep(s, i, s.pools[i].(pump := Reading), j);
    ResultsAppend(s.out, s.pools[i].pump.result, j);
  }

  lemma PumpStopsConserves(s: System, i: nat, j: Job)
    requires Conserved(s, j) && Enabled(s, PumpStops(i))
    ensures Conserved(Step(s, PumpStops(i)), j)
  {
    hide InHands, InPools, InQueue, InDropped, InResults;
    PoolStep(s, i, s.pools[i].(pump := Stopped), j);
    DroppedAppend(s.dropped, (s.pools[i].pump.result.job, i), j);
  }

  lemma CloseConserves(s: System, a: Action, i: nat, j: Job)
    requires Conserved(s, j) && Enabled(s, a) && (a == Close(i) || a == PumpEnds(i))
    ensures Conserved(Step(s, a), j)
  {
    hide InHands, InPools, InQueue, InDropped, InResults;
    PoolStep(s, i, Step(s, a).pools[i], j);
  }

  lemma EnqueueConserves(s: System, job: Job, j: Job)
    requires Conserved(s, j) && Conserved(s, job) && Enabled(s, Enqueue(job))
    ensures Conserved(Step(s, Enqueue(job)), j)
  {
    hide InHands, InPools, InQueue, InResults, InDropped;
    var i := s.submitting[job];
    var p := s.pools[i];
    QueueAppend(p.jobs, job, j);
    PoolStep(s, i, p.(jobs := p.jobs + [job]), j);
  }

  lemma ConsumeConserves(s: System, j: Job)
    requires Conserved(s, j) && s.out != []
    ensures Conserved(Step(s, Consume), j)
  {
    hide InPools, InDropped;
    ResultsAppend(s.consumed, s.out[0], j);
  }

  lemma ReloadConserves(s: System, a: Action, j: Job)
    requires Conserved(s, j) && Enabled(s, a)
    requires a.ReloadStops? || a.ReloadGivesUp? || a.ReloadStarts? || a.PingOk? || a.PingFails? || a.AppStops?
    requires a.PingOk? ==> s.pools[s.lock.pool].pump.NoPump?
    ensures Conserved(Step(s, a), j)
  {
    hide InHands, InPools, InQueue, InResults, InDropped;
    match a
    case ReloadStops =>
      if s.current.Some? && s.current.value < |s.pools| {
        PoolStep(s, s.current.value, s.pools[s.current.value].(cancelled := true), j);
      }
    case ReloadStarts =>
      PoolsAppend(s.pools, NewPool(RELOAD_WORKERS, s.appDone), j);
      NewPoolEmpty(RELOAD_WORKERS, s.appDone, j);
    case PingOk => PoolStep(s, s.lock.pool, s.pools[s.lock.pool].(pump := Reading), j);
    case PingFails => PoolStep(s, s.lock.pool, s.pools[s.lock.pool].(cancelled := true), j);
    case AppStops => CancelledHold(s.pools, j);
    case _ =>
  }

  lemma NewPoolEmpty(workers: nat, cancelled: bool, j: Job)
    ensures InPool(NewPool(workers, cancelled), j) == 0
  {
    IdleHold(workers, j);
  }

  /** Whatever goroutines meet, no step loses or doubles a job. */
  lemma {:induction false} StepConserves(s: System, a: Action, j: Job)
    requires Enabled(s, a) && (a.PingOk? ==> s.pools[s.lock.pool].pump.NoPump?)
    requires Conserved(s, j) && (a.Enqueue? ==> Conserved(s, a.queued))
    ensures Conserved(Step(s, a), j)
  {
    hide Conserved, Called;
    match a
    case SetMinDuration(ms) => SamePlaces(s, Step(s, a), j);
    case Submit(job) => SubmitConserves(s, job, j);
    case Enqueue(job) => EnqueueConserves(s, job, j);
    case GiveUp(job) => SamePlaces(s, Step(s, a), j);
    case Take(i, w) => TakeConserves(s, i, w, j);
    case Exit(i, w) => WorkerConserves(s, i, w, Exited, j);
    case Answer(i, w, reply) =>
      WorkerConserves(s, i, w, AfterReply(s.pools[i].workers[w].job, s.pools[i].workers[w].attempt, reply), j);
    case Retry(i, w) => RetryConserves(s, i, w, j);
    case Interrupt(i, w) => WorkerConserves(s, i, w, Sending(Result(s.pools[i].workers[w].job, false)), j);
    case Send(i, w) => SendConserves(s, i, w, j);
    case Drop(i, w) => DropConserves(s, i, w, j);
    case Close(i) => CloseConserves(s, a, i, j);
    case Pull(i) => PullConserves(s, i, j);
    case Forward(i) => ForwardConserves(s, i, j);
    case PumpStops(i) => PumpStopsConserves(s, i, j);
    case PumpEnds(i) => CloseConserves(s, a, i, j);
    case Consume => ConsumeConserves(s, j);
    case _ => ReloadConserves(s, a, j);
  }

  lemma RetryConserves(s: System, i: nat, w: nat, j: Job)
    requires Conserved(s, j) && Enabled(s, Retry(i, w))
    ensures Conserved(Step(s, Retry(i, w)), j)
  {
    hide Conserved;
    var t := s.pools[i].workers[w];
    var s' := SetPool(s, i, SetWorker(s.pools[i], w, Trying(t.job, t.attempt)));
    WorkerConserves(s, i, w, Trying(t.job, t.attempt), j);
    SamePlaces(s', Called(s', t.job), j);
  }

  lemma SubmitConserves(s: System, job: Job, j: Job)
    requires Conserved(s, j) && Enabled(s, Submit(job))
    ensures Conserved(Step(s, Submit(job)), j)
  {
    hide InPools, InResults, InDropped;
  }

  lemma SamePlaces(s: System, s': System, j: Job)
    requires Conserved(s, j) && s'.pools == s.pools && s'.out == s.out && s'.consumed == s.consumed
             && s'.dropped == s.dropped
    requires s'.accepted == s.accepted && s'.submitting.Keys <= s.submitting.Keys
    ensures Conserved(s', j)
  {
  }
}
