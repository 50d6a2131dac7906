// Runs of the transcriber: each accepted job gives at most one result, costs
// at most four requests, and is only given up with a stopped pool.
module TranscriberTheorems {
  import opened Common
  import opened Transcriber
  import opened TranscriberRuns
  import opened TranscriberSafety

  // ---- Requests a job may still cost ----

  const MAX_REQUESTS: nat := MAX_RETRIES + 1

  function Credit(w: Worker, j: Job): int {
    match w
    case Trying(job, attempt) => if job == j then MAX_RETRIES - attempt else 0
    case Waiting(job, attempt) => if job == j then MAX_REQUESTS - attempt else 0
    case _ => 0
  }

  function HandsCredit(ws: seq<Worker>, j: Job): int {
    if ws == [] then 0 else Credit(ws[0], j) + HandsCredit(ws[1..], j)
  }

  function PoolCredit(p: Pool, j: Job): int {
    MAX_REQUESTS * InQueue(p.jobs, j) + HandsCredit(p.workers, j)
  }

  function PoolsCredit(ps: seq<Pool>, j: Job): int {
    if ps == [] then 0 else PoolCredit(ps[0], j) + PoolsCredit(ps[1..], j)
  }

  /** Requests made and requests still possible stay within the allowance of an accepted job. */
  ghost predicate Budgeted(s: System, j: Job) {
    CallsOf(s, j) + PoolsCredit(s.pools, j) <= MAX_REQUESTS * One(j in s.accepted)
  }

  lemma {:induction false} HandsCreditUpdate(ws: seq<Worker>, i: nat, w: Worker, j: Job)
    requires i < |ws|
    ensures HandsCredit(ws[i := w], j) + Credit(ws[i], j) == HandsCredit(ws, j) + Credit(w, j)
  {
    hide Credit;
    if i == 0 {
      assert ws[0 := w][1..] == ws[1..];
    } else {
      assert ws[i := w][1..] == ws[1..][i - 1 := w];
      HandsCreditUpdate(ws[1..], i - 1, w, j);
    }
  }

  lemma {:induction false} PoolsCreditUpdate(ps: seq<Pool>, i: nat, p: Pool, j: Job)
    requires i < |ps|
    ensures PoolsCredit(ps[i := p], j) + PoolCredit(ps[i], j) == PoolsCredit(ps, j) + PoolCredit(p, j)
  {
    hide PoolCredit;
    if i == 0 {
      assert ps[0 := p][1..] == ps[1..];
    } else {
      assert ps[i := p][1..] == ps[1..][i - 1 := p];
      PoolsCreditUpdate(ps[1..], i - 1, p, j);
    }
  }

  lemma {:induction false} PoolsCreditAppend(ps: seq<Pool>, p: Pool, j: Job)
    ensures PoolsCredit(ps + [p], j) == PoolsCredit(ps, j) + PoolCredit(p, j)
  {
    hide PoolCredit;
    if ps == [] {
      assert [p][1..] == [];
    } else {
      assert (ps + [p])[1..] == ps[1..] + [p];
      PoolsCreditAppend(ps[1..], p, j);
    }
  }

  lemma {:induction false} CancelledCredit(ps: seq<Pool>, j: Job)
    ensures PoolsCredit(CancelAll(ps), j) == PoolsCredit(ps, j)
  {
    if ps != [] {
      CancelledCredit(ps[1..], j);
      assert CancelAll(ps)[1..] == CancelAll(ps[1..]);
    }
  }

  lemma {:induction false} IdleCredit(n: nat, j: Job)
    ensures HandsCredit(seq(n, _ => Idle), j) == 0
  {
    if n > 0 {
      IdleCredit(n - 1, j);
      assert seq(n, _ => Idle)[1..] == seq(n - 1, _ => Idle);
    }
  }

  /** Replacing a pool changes the credit by the difference. */
  lemma CreditStep(s: System, i: nat, p: Pool, j: Job)
    requires i < |s.pools|
    ensures PoolsCredit(SetPool(s, i, p).pools, j) == PoolsCredit(s.pools, j)
            + PoolCredit(p, j) - PoolCredit(s.pools[i], j)
  {
    hide PoolCredit, PoolsCredit;
    PoolsCreditUpdate(s.pools, i, p, j);
  }

  lemma WorkerCredit(p: Pool, w: nat, state: Worker, j: Job)
    requires w < |p.workers|
    ensures PoolCredit(SetWorker(p, w, state), j) == PoolCredit(p, j) + Credit(state, j) - Credit(p.workers[w], j)
  {
    hide Credit, HandsCredit, InQueue;
    HandsCreditUpdate(p.workers, w, state, j);
  }

  /** A worker's step that makes no request and gains no credit. */
  lemma WorkerBudgeted(s: System, i: nat, w: nat, state: Worker, j: Job)
    requires Budgeted(s, j) && HasWorker(s, i, w) && Credit(state, j) <= Credit(s.pools[i].workers[w], j)
    ensures Budgeted(SetPool(s, i, SetWorker(s.pools[i], w, state)), j)
  {
    hide PoolCredit, PoolsCredit, Credit;
    WorkerCredit(s.pools[i], w, state, j);
    CreditStep(s, i, SetWorker(s.pools[i], w, state), j);
  }

  /** A pool changed, but not its queue or its workers. */
  lemma PoolBudgeted(s: System, i: nat, p: Pool, j: Job)
    requires Budgeted(s, j) && i < |s.pools| && p.jobs == s.pools[i].jobs && p.workers == s.pools[i].workers
    ensures Budgeted(SetPool(s, i, p), j)
  {
    hide PoolsCredit, HandsCredit, InQueue;
    CreditStep(s, i, p, j);
  }

  lemma SameBudget(s: System, s': System, j: Job)
    requires Budgeted(s, j) && s'.pools == s.pools && s'.calls == s.calls && s'.accepted == s.accepted
    ensures Budgeted(s', j)
  {
  }

  lemma TakeBudgeted(s: System, i: nat, w: nat, j: Job)
    requires Budgeted(s, j) && Enabled(s, Take(i, w))
    ensures Budgeted(Step(s, Take(i, w)), j)
  {
    var p := s.pools[i];
    var q := p.(jobs := p.jobs[1..]);
    WorkerCredit(q, w, Trying(p.jobs[0], 0), j);
    CreditStep(s, i, SetWorker(q, w, Trying(p.jobs[0], 0)), j);
    hide HandsCredit, PoolsCredit;
  }

  lemma RetryBudgeted(s: System, i: nat, w: nat, j: Job)
    requires Budgeted(s, j) && Enabled(s, Retry(i, w))
    ensures Budgeted(Step(s, Retry(i, w)), j)
  {
    var p := s.pools[i];
    var t := p.workers[w];
    WorkerCredit(p, w, Trying(t.job, t.attempt), j);
    CreditStep(s, i, SetWorker(p, w, Trying(t.job, t.attempt)), j);
    hide HandsCredit, PoolsCredit, InQueue;
  }

  lemma EnqueueBudgeted(s: System, job: Job, j: Job)
    requires Budgeted(s, j) && Conserved(s, job) && Enabled(s, Enqueue(job))
    ensures Budgeted(Step(s, Enqueue(job)), j)
  {
    var i := s.submitting[job];
    var p := s.pools[i];
    QueueAppend(p.jobs, job, j);
    CreditStep(s, i, p.(jobs := p.jobs + [job]), j);
    hide HandsCredit, PoolsCredit, InQueue, InPools, InResults, InDropped;
  }

  lemma SendBudgeted(s: System, i: nat, w: nat, j: Job)
    requires Budgeted(s, j) && Enabled(s, Send(i, w))
    ensures Budgeted(Step(s, Send(i, w)), j)
  {
    hide Budgeted;
    var p := s.pools[i];
    var q := SetWorker(p, w, Idle);
    WorkerBudgeted(s, i, w, Idle, j);
    PoolBudgeted(SetPool(s, i, q), i, q.(results := p.results + [p.workers[w].result]), j);
    SameBudget(SetPool(SetPool(s, i, q), i, q.(results := p.results + [p.workers[w].result])), Step(s, Send(i, w)), j);
  }

  lemma WorkersBudgeted(s: System, a: Action, i: nat, w: nat, j: Job)
    requires Budgeted(s, j) && Enabled(s, a)
    requires a == Exit(i, w) || (a.Answer? && a.pool == i && a.worker == w) || a == Interrupt(i, w) || a == Drop(i, w)
    requires s.pools[i].workers[w].Waiting? ==> s.pools[i].workers[w].attempt <= MAX_RETRIES
    requires s.pools[i].workers[w].Trying? ==> s.pools[i].workers[w].attempt <= MAX_RETRIES
    ensures Budgeted(Step(s, a), j)
  {
    var state := Step(s, a).pools[i].workers[w];
    WorkerBudgeted(s, i, w, state, j);
    hide Budgeted;
    SameBudget(SetPool(s, i, SetWorker(s.pools[i], w, state)), Step(s, a), j);
  }

  lemma PumpBudgeted(s: System, a: Action, i: nat, j: Job)
    requires Budgeted(s, j) && Enabled(s, a)
    requires a == Close(i) || a == Pull(i) || a == Forward(i) || a == PumpStops(i) || a == PumpEnds(i)
    ensures Budgeted(Step(s, a), j)
  {
    hide Budgeted;
    PoolBudgeted(s, i, Step(s, a).pools[i], j);
    SameBudget(SetPool(s, i, Step(s, a).pools[i]), Step(s, a), j);
  }

  lemma ReloadBudgeted(s: System, a: Action, j: Job)
    requires Budgeted(s, j) && Enabled(s, a)
    requires a.ReloadStops? || a.ReloadGivesUp? || a.ReloadStarts? || a.PingOk? || a.PingFails? || a.AppStops?
    ensures Budgeted(Step(s, a), j)
  {
    hide PoolsCredit, InQueue;
    match a
    case ReloadStops =>
      if s.current.Some? && s.current.value < |s.pools| {
        PoolBudgeted(s, s.current.value, s.pools[s.current.value].(cancelled := true), j);
      }
    case ReloadStarts => StartBudgeted(s, j);
    case PingOk => PoolBudgeted(s, s.lock.pool, s.pools[s.lock.pool].(pump := Reading), j);
    case PingFails => PoolBudgeted(s, s.lock.pool, s.pools[s.lock.pool].(cancelled := true), j);
    case AppStops => CancelledCredit(s.pools, j);
    case _ =>
  }

  lemma StartBudgeted(s: System, j: Job)
    requires Budgeted(s, j) && Enabled(s, ReloadStarts)
    ensures Budgeted(Step(s, ReloadStarts), j)
  {
    PoolsCreditAppend(s.pools, NewPool(RELOAD_WORKERS, s.appDone), j);
    IdleCredit(RELOAD_WORKERS, j);
    hide PoolsCredit;
  }

  lemma StepBudgeted(s: System, a: Action, j: Job)
    requires Safe(s) && Enabled(s, a) && Budgeted(s, j) && (a.Enqueue? ==> Conserved(s, a.queued))
    ensures Budgeted(Step(s, a), j)
  {
    hide Budgeted, Safe, Conserved;
    match a
    case SetMinDuration(ms) => SameBudget(s, Step(s, a), j);
    case Submit(job) => SameBudget(s, Step(s, a), j);
    case Enqueue(job) => EnqueueBudgeted(s, job, j);
    case GiveUp(job) => SameBudget(s, Step(s, a), j);
    case Take(i, w) => TakeBudgeted(s, i, w, j);
    case Exit(i, w) => BusyMeansPump(s, i, w); WorkersBudgeted(s, a, i, w, j);
    case Answer(i, w, reply) => BusyMeansPump(s, i, w); WorkersBudgeted(s, a, i, w, j);
    case Retry(i, w) => RetryBudgeted(s, i, w, j);
    case Interrupt(i, w) => BusyMeansPump(s, i, w); WorkersBudgeted(s, a, i, w, j);
    case Send(i, w) => SendBudgeted(s, i, w, j);
    case Drop(i, w) => BusyMeansPump(s, i, w); WorkersBudgeted(s, a, i, w, j);
    case Close(i) => PumpBudgeted(s, a, i, j);
    case Pull(i) => PumpBudgeted(s, a, i, j);
    case Forward(i) => PumpBudgeted(s, a, i, j);
    case PumpStops(i) => PumpBudgeted(s, a, i, j);
    case PumpEnds(i) => PumpBudgeted(s, a, i, j);
    case Consume => SameBudget(s, Step(s, a), j);
    case _ => ReloadBudgeted(s, a, j);
  }

  // ---- Runs ----

  predicate Feasible(s: System, run: seq<Action>)
    decreases |run|
  {
    run == [] || (Enabled(s, run[0]) && Feasible(Step(s, run[0]), run[1..]))
  }

  function Run(s: System, run: seq<Action>): System
    requires Feasible(s, run)
    decreases |run|
  {
    if run == [] then s else Run(Step(s, run[0]), run[1..])
  }

  ghost predicate Inv(s: System) {
    Safe(s) && forall j: Job :: Conserved(s, j) && Budgeted(s, j)
  }

  lemma StepInv(s: System, a: Action)
    requires Inv(s) && Enabled(s, a)
    ensures Inv(Step(s, a))
  {
    hide Conserved, Budgeted, Step;
    StepSafe(s, a);
    PingPump(s, a);
    hide Safe;
    forall j: Job
      ensures Conserved(Step(s, a), j) && Budgeted(Step(s, a), j)
    {
      if a.Enqueue? { assert Conserved(s, a.queued); }
      assert Conserved(s, j) && Budgeted(s, j);
      StepConserves(s, a, j);
      StepBudgeted(s, a, j);
    }
  }

  lemma PingPump(s: System, a: Action)
    requires Safe(s) && Enabled(s, a)
    ensures a.PingOk? ==> s.pools[s.lock.pool].pump.NoPump?
  {
  }

  lemma StartInv(workers: nat)
    ensures Inv(Start(workers))
  {
    var s := Start(workers);
    if workers > 0 { NewPoolSafe(workers, false); PumpedSafe(NewPool(workers, false)); }
    forall j: Job
      ensures Conserved(s, j) && Budgeted(s, j)
    {
      StartCounts(workers, j);
    }
  }

  lemma StartCounts(workers: nat, j: Job)
    ensures Conserved(Start(workers), j) && Budgeted(Start(workers), j)
  {
    if workers > 0 {
      IdleHold(workers, j);
      IdleCredit(workers, j);
      assert Start(workers).pools[1..] == [];
    }
  }

  lemma {:induction false} RunInv(s: System, run: seq<Action>)
    requires Inv(s) && Feasible(s, run)
    ensures Inv(Run(s, run))
    decreases |run|
  {
    hide Inv, Step, Enabled;
    if run != [] {
      StepInv(s, run[0]);
      RunInv(Step(s, run[0]), run[1..]);
    }
  }

  // ---- What it means for the jobs ----

  function Delivered(s: System, j: Job): nat {
    InResults(s.out, j) + InResults(s.consumed, j)
  }

  lemma {:induction false} CreditPositive(ps: seq<Pool>, j: Job)
    requires forall i :: 0 <= i < |ps| ==> SafePool(ps[i])
    ensures PoolsCredit(ps, j) >= 0
  {
    hide SafePool, PoolCredit;
    if ps != [] {
      WorkersPositive(ps[0], |ps[0].workers|, j);
      CreditPositive(ps[1..], j);
    }
  }

  lemma {:induction false} WorkersPositive(p: Pool, n: nat, j: Job)
    requires SafePool(p) && n <= |p.workers|
    ensures HandsCredit(p.workers[|p.workers| - n..], j) >= 0 && (n == |p.workers| ==> PoolCredit(p, j) >= 0)
  {
    var ws := p.workers[|p.workers| - n..];
    if n > 0 {
      WorkersPositive(p, n - 1, j);
      assert ws[1..] == p.workers[|p.workers| - (n - 1)..] && ws[0] == p.workers[|p.workers| - n];
    }
    assert p.workers[0..] == p.workers;
  }

  /**
   * In every interleaving of submits, workers, cancellations and reloads: a
   * job puts at most one result on the manager's channel, and none unless it
   * was accepted; it costs at most four requests; and no worker that is about
   * to send finds its results channel closed.
   */
  lemma {:induction false} EveryRun(workers: nat, run: seq<Action>, j: Job)
    requires Feasible(Start(workers), run)
    ensures var s := Run(Start(workers), run);
            && Delivered(s, j) <= One(j in s.accepted)
            && CallsOf(s, j) <= 4
            && (j !in s.accepted ==> CallsOf(s, j) == 0)
            && |s.out| <= 16
            && (forall i: nat, w: nat :: HasWorker(s, i, w) && s.pools[i].workers[w].Sending? ==> !s.pools[i].closed)
  {
    hide Start, Run, Feasible;
    StartInv(workers);
    RunInv(Start(workers), run);
    var s := Run(Start(workers), run);
    InvMeans(s, j);
    forall i: nat, w: nat | HasWorker(s, i, w) && s.pools[i].workers[w].Sending?
      ensures !s.pools[i].closed
    {
      assert SafePool(s.pools[i]);
    }
  }

  lemma InvMeans(s: System, j: Job)
    requires Inv(s)
    ensures Conserved(s, j) && Budgeted(s, j) && PoolsCredit(s.pools, j) >= 0 && Delivered(s, j) <= One(j in s.accepted)
  {
    assert Conserved(s, j) && Budgeted(s, j);
    CreditPositive(s.pools, j);
    hide InPools, InResults, InDropped, PoolsCredit;
  }

  lemma {:induction false} DroppedPool(d: seq<(Job, nat)>, j: Job)
    requires InDropped(d, j) > 0
    ensures exists k :: 0 <= k < |d| && d[k].0 == j
  {
    if d[0].0 != j {
      DroppedPool(d[1..], j);
      var k :| 0 <= k < |d[1..]| && d[1..][k].0 == j;
      assert d[k + 1].0 == j;
    }
  }

  /** A job that is in no pool any more was delivered, or given up by a pool that has been stopped. */
  lemma {:induction false} DeliveredOrStopped(workers: nat, run: seq<Action>, j: Job)
    requires Feasible(Start(workers), run)
    requires var s := Run(Start(workers), run); j in s.accepted && InPools(s.pools, j) == 0
    ensures var s := Run(Start(workers), run);
            Delivered(s, j) == 1 || exists k ::
              0 <= k < |s.dropped| && s.dropped[k].0 == j && s.dropped[k].1 < |s.pools|
              && s.pools[s.dropped[k].1].cancelled
  {
    hide Start, Run, Feasible;
    StartInv(workers);
    RunInv(Start(workers), run);
    var s := Run(Start(workers), run);
    assert Conserved(s, j);
    if Delivered(s, j) == 0 {
      DroppedPool(s.dropped, j);
    }
  }

  /** At most one pool is running at any time: the current one, or the one a reload is trying out. */
  lemma {:induction false} OneRunningPool(workers: nat, run: seq<Action>, a: nat, b: nat)
    requires Feasible(Start(workers), run)
    requires var s := Run(Start(workers), run);
             a < |s.pools| && b < |s.pools| && !s.pools[a].cancelled && !s.pools[b].cancelled
    ensures a == b
  {
    hide Start, Run, Feasible, Conserved, Budgeted, SafePool;
    StartInv(workers);
    RunInv(Start(workers), run);
  }
}
