// What a delivered result says: it is a success exactly when the last request
// for its job was answered with one, however the result travelled.
module TranscriberAnswers {
  import opened Common
  import opened Transcriber
  import opened TranscriberRuns
  import opened TranscriberSafety
  import opened TranscriberTheorems

  // ---- The history of replies ----

  /** The step is the reply to a request for this job. */
  predicate Answers(s: System, a: Action, j: Job)
    requires Enabled(s, a)
  {
    a.Answer? && s.pools[a.pool].workers[a.worker].job == j
  }

  /** The last reply of the run to a request for this job, or the one before the run. */
  function LastReply(s: System, run: seq<Action>, j: Job, before: Option<Reply>): Option<Reply>
    requires Feasible(s, run)
    decreases |run|
  {
    if run == [] then before
    else LastReply(Step(s, run[0]), run[1..], j, if Answers(s, run[0], j) then Some(run[0].reply) else before)
  }

  // ---- What every result says ----

  ghost predicate ResultTells(r: Result, j: Job, last: Option<Reply>) {
    r.job == j ==> (r.ok <==> last == Some(Success))
  }

  ghost predicate ResultsTell(rs: seq<Result>, j: Job, last: Option<Reply>) {
    forall k :: 0 <= k < |rs| ==> ResultTells(rs[k], j, last)
  }

  ghost predicate WorkerTells(w: Worker, j: Job, last: Option<Reply>) {
    && (w.Sending? ==> ResultTells(w.result, j, last))
    && (w.Waiting? && w.job == j ==> last == Some(Transient))
  }

  ghost predicate PoolTells(p: Pool, j: Job, last: Option<Reply>) {
    && (forall w :: 0 <= w < |p.workers| ==> WorkerTells(p.workers[w], j, last))
    && ResultsTell(p.results, j, last)
    && (p.pump.Forwarding? ==> ResultTells(p.pump.result, j, last))
  }

  ghost predicate Told(s: System, j: Job, last: Option<Reply>) {
    && (forall i :: 0 <= i < |s.pools| ==> PoolTells(s.pools[i], j, last))
    && ResultsTell(s.out, j, last) && ResultsTell(s.consumed, j, last)
  }

  // ---- A job is in one place only ----

  lemma {:induction false} PoolsZero(ps: seq<Pool>, j: Job)
    requires InPools(ps, j) == 0
    ensures forall i :: 0 <= i < |ps| ==> InPool(ps[i], j) == 0
  {
    hide InPool;
    if ps != [] { PoolsZero(ps[1..], j); }
  }

  lemma {:induction false} HandsZero(ws: seq<Worker>, j: Job)
    requires InHands(ws, j) == 0
    ensures forall w :: 0 <= w < |ws| ==> Holds(ws[w], j) == 0
  {
    hide Holds;
    if ws != [] { HandsZero(ws[1..], j); }
  }

  lemma {:induction false} ResultsZero(rs: seq<Result>, j: Job)
    requires InResults(rs, j) == 0
    ensures forall k :: 0 <= k < |rs| ==> rs[k].job != j
  {
    if rs != [] { ResultsZero(rs[1..], j); }
  }

  lemma {:induction false} QueueZero(jobs: seq<Job>, j: Job)
    ensures InQueue(jobs, j) == 0 <==> j !in jobs
  {
    if jobs != [] {
      QueueZero(jobs[1..], j);
      assert jobs == [jobs[0]] + jobs[1..];
    }
  }

  /** A pool that does not have the job says nothing of it. */
  lemma AbsentPool(p: Pool, j: Job, last: Option<Reply>)
    requires InPool(p, j) == 0
    ensures PoolTells(p, j, last) && j !in p.jobs && forall w :: 0 <= w < |p.workers| ==> Holds(p.workers[w], j) == 0
  {
    HandsZero(p.workers, j);
    ResultsZero(p.results, j);
    QueueZero(p.jobs, j);
  }

  /** A job in a worker's hands is nowhere else: without that worker, no pool and no channel has it. */
  lemma OnlyHere(s: System, i: nat, w: nat, j: Job, last: Option<Reply>)
    requires Conserved(s, j) && HasWorker(s, i, w) && Holds(s.pools[i].workers[w], j) == 1
    ensures var s' := SetPool(s, i, SetWorker(s.pools[i], w, Idle));
            && Told(s', j, last) && j in s.accepted
            && (forall k :: 0 <= k < |s'.pools| ==>
                  j !in s'.pools[k].jobs
                  && forall v :: 0 <= v < |s'.pools[k].workers| ==> Holds(s'.pools[k].workers[v], j) == 0)
  {
    hide InPools, InHands, InResults, InQueue, InPump, InDropped, PoolTells;
    var s' := SetPool(s, i, SetWorker(s.pools[i], w, Idle));
    WorkerStep(s, i, w, Idle, j);
    PoolsZero(s'.pools, j);
    forall k | 0 <= k < |s'.pools|
      ensures PoolTells(s'.pools[k], j, last) && j !in s'.pools[k].jobs
      ensures forall v :: 0 <= v < |s'.pools[k].workers| ==> Holds(s'.pools[k].workers[v], j) == 0
    {
      AbsentPool(s'.pools[k], j, last);
    }
    ResultsZero(s.out, j);
    ResultsZero(s.consumed, j);
  }

  // ---- Steps ----

  lemma PoolReplacedTold(s: System, i: nat, p: Pool, j: Job, last: Option<Reply>)
    requires Told(s, j, last) && i < |s.pools| && PoolTells(p, j, last)
    ensures Told(SetPool(s, i, p), j, last)
  {
    hide PoolTells, ResultsTell;
  }

  /** The reply to this job's request: what comes of it is the only thing said of the job. */
  lemma AnswerTold(s: System, i: nat, w: nat, reply: Reply, j: Job)
    requires Conserved(s, j) && Enabled(s, Answer(i, w, reply)) && s.pools[i].workers[w].job == j
    ensures Told(Step(s, Answer(i, w, reply)), j, Some(reply))
  {
    var t, p := s.pools[i].workers[w], s.pools[i];
    OnlyHere(s, i, w, j, Some(reply));
    hide Conserved, ResultsTell;
    var next := AfterReply(t.job, t.attempt, reply);
    assert WorkerTells(next, j, Some(reply));
    var idle := SetPool(s, i, SetWorker(p, w, Idle));
    assert idle.pools[i] == SetWorker(p, w, Idle);
    hide WorkerTells, AfterReply;
    WorkerReplacedTells(SetWorker(p, w, Idle), w, next, j, Some(reply));
    assert SetWorker(SetWorker(p, w, Idle), w, next) == SetWorker(p, w, next);
    PoolReplacedTold(idle, i, SetWorker(p, w, next), j, Some(reply));
    assert SetPool(idle, i, SetWorker(p, w, next)) == SetPool(s, i, SetWorker(p, w, next));
  }

  lemma WorkerReplacedTells(p: Pool, w: nat, next: Worker, j: Job, last: Option<Reply>)
    requires PoolTells(p, j, last) && w < |p.workers| && WorkerTells(next, j, last)
    ensures PoolTells(SetWorker(p, w, next), j, last)
  {
    hide WorkerTells, ResultsTell;
  }

  lemma ResultsMore(rs: seq<Result>, r: Result, j: Job, last: Option<Reply>)
    requires ResultsTell(rs, j, last) && ResultTells(r, j, last)
    ensures ResultsTell(rs + [r], j, last)
  {
    hide ResultTells;
  }

  lemma ResultsLess(rs: seq<Result>, j: Job, last: Option<Reply>)
    requires ResultsTell(rs, j, last) && rs != []
    ensures ResultsTell(rs[1..], j, last) && ResultTells(rs[0], j, last)
  {
    hide ResultTells;
  }

  /** Any other step of a worker, but for the reply to this job's request. */
  lemma WorkerTold(s: System, a: Action, i: nat, w: nat, j: Job, last: Option<Reply>)
    requires Enabled(s, a) && Told(s, j, last) && !Answers(s, a, j) && HasWorker(s, i, w)
    requires a == Take(i, w) || a == Exit(i, w) || (a.Answer? && a.pool == i && a.worker == w) || a == Retry(i, w)
             || a == Interrupt(i, w) || a == Send(i, w) || a == Drop(i, w)
    ensures Told(Step(s, a), j, last)
  {
    var p := s.pools[i];
    assert PoolTells(p, j, last) && WorkerTells(p.workers[w], j, last);
    var p' := Step(s, a).pools[i];
    if a.Send? { ResultsMore(p.results, p.workers[w].result, j, last); }
    hide ResultsTell;
    assert WorkerTells(p'.workers[w], j, last);
    hide WorkerTells;
    assert PoolTells(p', j, last);
    PoolReplacedTold(s, i, p', j, last);
    hide PoolTells;
    var t := SetPool(s, i, p');
    assert Step(s, a).pools == t.pools && Step(s, a).out == t.out && Step(s, a).consumed == t.consumed;
  }

  lemma PumpTold(s: System, a: Action, i: nat, j: Job, last: Option<Reply>)
    requires Enabled(s, a) && Told(s, j, last) && i < |s.pools|
    requires a == Close(i) || a == Pull(i) || a == Forward(i) || a == PumpStops(i) || a == PumpEnds(i)
    ensures Told(Step(s, a), j, last)
  {
    var p, p' := s.pools[i], Step(s, a).pools[i];
    assert PoolTells(p, j, last);
    if a.Pull? { ResultsLess(p.results, j, last); }
    if a.Forward? { ResultsMore(s.out, p.pump.result, j, last); }
    hide ResultsTell, WorkerTells;
    assert PoolTells(p', j, last);
    PoolReplacedTold(s, i, p', j, last);
    hide PoolTells;
    assert Step(s, a).pools == SetPool(s, i, p').pools;
  }

  lemma PoolsTold(s: System, a: Action, j: Job, last: Option<Reply>)
    requires Enabled(s, a) && Told(s, j, last)
    requires a.ReloadStops? || a.ReloadGivesUp? || a.ReloadStarts? || a.PingOk? || a.PingFails? || a.AppStops?
             || a.Enqueue?
    ensures Told(Step(s, a), j, last)
  {
    hide ResultsTell, WorkerTells;
    forall i | 0 <= i < |Step(s, a).pools|
      ensures PoolTells(Step(s, a).pools[i], j, last)
    {
      if i < |s.pools| {
        assert PoolTells(s.pools[i], j, last);
      } else {
        NewPoolTells(s.appDone, j, last);
      }
    }
    hide PoolTells;
  }

  lemma NewPoolTells(cancelled: bool, j: Job, last: Option<Reply>)
    ensures PoolTells(NewPool(RELOAD_WORKERS, cancelled), j, last)
  {
  }

  lemma {:induction false} StepTold(s: System, a: Action, j: Job, last: Option<Reply>)
    requires Enabled(s, a) && Conserved(s, j) && Told(s, j, last)
    ensures Told(Step(s, a), j, if Answers(s, a, j) then Some(a.reply) else last)
  {
    hide Conserved;
    if Answers(s, a, j) {
      AnswerTold(s, a.pool, a.worker, a.reply, j);
    } else {
      hide Told;
      match a
      case SetMinDuration(ms) => SameTold(s, Step(s, a), j, last);
      case Submit(job) => SameTold(s, Step(s, a), j, last);
      case GiveUp(job) => SameTold(s, Step(s, a), j, last);
      case Take(i, w) => WorkerTold(s, a, i, w, j, last);
      case Exit(i, w) => WorkerTold(s, a, i, w, j, last);
      case Answer(i, w, reply) => WorkerTold(s, a, i, w, j, last);
      case Retry(i, w) => WorkerTold(s, a, i, w, j, last);
      case Interrupt(i, w) => WorkerTold(s, a, i, w, j, last);
      case Send(i, w) => WorkerTold(s, a, i, w, j, last);
      case Drop(i, w) => WorkerTold(s, a, i, w, j, last);
      case Close(i) => PumpTold(s, a, i, j, last);
      case Pull(i) => PumpTold(s, a, i, j, last);
      case Forward(i) => PumpTold(s, a, i, j, last);
      case PumpStops(i) => PumpTold(s, a, i, j, last);
      case PumpEnds(i) => PumpTold(s, a, i, j, last);
      case Consume => ConsumeTold(s, j, last);
      case _ => PoolsTold(s, a, j, last);
    }
  }

  lemma SameTold(s: System, s': System, j: Job, last: Option<Reply>)
    requires Told(s, j, last) && s'.pools == s.pools && s'.out == s.out && s'.consumed == s.consumed
    ensures Told(s', j, last)
  {
    hide PoolTells, ResultsTell;
  }

  lemma ConsumeTold(s: System, j: Job, last: Option<Reply>)
    requires Told(s, j, last) && s.out != []
    ensures Told(Step(s, Consume), j, last)
  {
    ResultsLess(s.out, j, last);
    ResultsMore(s.consumed, s.out[0], j, last);
    hide PoolTells, ResultsTell;
  }

  // ---- Runs ----

  lemma {:induction false} RunTold(s: System, run: seq<Action>, j: Job, last: Option<Reply>)
    requires Feasible(s, run) && Inv(s) && Told(s, j, last)
    ensures Told(Run(s, run), j, LastReply(s, run, j, last))
    decreases |run|
  {
    hide Told, Step, Enabled, Safe, Conserved, Budgeted;
    if run != [] {
      assert Conserved(s, j);
      StepTold(s, run[0], j, last);
      StepInv(s, run[0]);
      hide Inv;
      RunTold(Step(s, run[0]), run[1..], j, if Answers(s, run[0], j) then Some(run[0].reply) else last);
    }
  }

  lemma StartTold(workers: nat, j: Job)
    ensures Told(Start(workers), j, None)
  {
  }

  /** In every run, a result on the manager's channel or taken from it is a success exactly when the last request for
      its job was answered with one. */
  lemma {:induction false} OkExactly(workers: nat, run: seq<Action>, r: Result)
    requires Feasible(Start(workers), run)
    requires var s := Run(Start(workers), run); r in s.out || r in s.consumed
    ensures r.ok <==> LastReply(Start(workers), run, r.job, None) == Some(Success)
  {
    hide Start, Run, Feasible, LastReply, PoolTells, Inv;
    StartInv(workers);
    StartTold(workers, r.job);
    RunTold(Start(workers), run, r.job, None);
    var s := Run(Start(workers), run);
    if r in s.out {
      var k :| 0 <= k < |s.out| && s.out[k] == r;
    } else {
      var k :| 0 <= k < |s.consumed| && s.consumed[k] == r;
    }
  }

  // ---- Jobs that are given up ----

  /** No request for the job is under way or to come. */
  ghost predicate Over(s: System, j: Job) {
    && j in s.accepted
    && forall i :: 0 <= i < |s.pools| ==> PoolOver(s.pools[i], j)
  }

  ghost predicate PoolOver(p: Pool, j: Job) {
    && j !in p.jobs
    && forall w :: 0 <= w < |p.workers| ==> WorkerOver(p.workers[w], j)
  }

  predicate WorkerOver(w: Worker, j: Job) {
    !(w.Trying? && w.job == j) && !(w.Waiting? && w.job == j)
  }

  /** A back-off cut short ends the job's requests. */
  lemma InterruptOver(s: System, i: nat, w: nat)
    requires Enabled(s, Interrupt(i, w)) && Conserved(s, s.pools[i].workers[w].job)
    ensures Over(Step(s, Interrupt(i, w)), s.pools[i].workers[w].job)
  {
    var j := s.pools[i].workers[w].job;
    var s' := Step(s, Interrupt(i, w));
    OnlyHere(s, i, w, j, None);
    hide Conserved, Told;
    var idle := SetPool(s, i, SetWorker(s.pools[i], w, Idle));
    forall k | 0 <= k < |s'.pools|
      ensures PoolOver(s'.pools[k], j)
    {
      assert idle.pools[k].jobs == s'.pools[k].jobs;
      forall v | 0 <= v < |s'.pools[k].workers|
        ensures WorkerOver(s'.pools[k].workers[v], j)
      {
        assert Holds(idle.pools[k].workers[v], j) == 0;
      }
    }
  }

  lemma {:induction false} StepOver(s: System, a: Action, j: Job)
    requires Enabled(s, a) && Over(s, j) && (a.Enqueue? ==> Conserved(s, a.queued))
    ensures Over(Step(s, a), j) && !Answers(s, a, j)
  {
    if a.Answer? { assert WorkerOver(s.pools[a.pool].workers[a.worker], j); }
    hide Conserved;
    var s' := Step(s, a);
    assert j in s'.accepted;
    forall i | 0 <= i < |s'.pools|
      ensures PoolOver(s'.pools[i], j)
    {
      if i < |s.pools| {
        assert PoolOver(s.pools[i], j);
        PoolStaysOver(s, a, i, j);
      }
    }
  }

  lemma PoolStaysOver(s: System, a: Action, i: nat, j: Job)
    requires Enabled(s, a) && i < |s.pools| && PoolOver(s.pools[i], j) && j in s.accepted
    requires a.Enqueue? ==> Conserved(s, a.queued)
    ensures i < |Step(s, a).pools| && PoolOver(Step(s, a).pools[i], j)
  {
    JobsStayOver(s, a, i, j);
    hide Conserved;
    forall w | 0 <= w < |Step(s, a).pools[i].workers|
      ensures WorkerOver(Step(s, a).pools[i].workers[w], j)
    {
      WorkerStaysOver(s, a, i, j, w);
    }
  }

  lemma JobsStayOver(s: System, a: Action, i: nat, j: Job)
    requires Enabled(s, a) && i < |s.pools| && PoolOver(s.pools[i], j) && j in s.accepted
    requires a.Enqueue? ==> Conserved(s, a.queued)
    ensures i < |Step(s, a).pools| && j !in Step(s, a).pools[i].jobs
  {
    hide InPools, InResults, InDropped, WorkerOver;
  }

  predicate MovesWorker(a: Action) {
    a.Take? || a.Exit? || a.Answer? || a.Retry? || a.Interrupt? || a.Send? || a.Drop?
  }

  lemma WorkersKept(s: System, a: Action, i: nat)
    requires Enabled(s, a) && !MovesWorker(a) && i < |s.pools|
    ensures i < |Step(s, a).pools| && Step(s, a).pools[i].workers == s.pools[i].workers
  {
    hide Capacity, Short, NewPool, AfterReply;
  }

  lemma WorkerMoved(s: System, a: Action, i: nat, j: Job, w: nat)
    requires Enabled(s, a) && MovesWorker(a) && i < |s.pools| && PoolOver(s.pools[i], j)
    requires w < |Step(s, a).pools[i].workers|
    ensures WorkerOver(Step(s, a).pools[i].workers[w], j)
  {
    hide Capacity, Short, NewPool;
    assert WorkerOver(s.pools[i].workers[w], j);
  }

  lemma WorkerStaysOver(s: System, a: Action, i: nat, j: Job, w: nat)
    requires Enabled(s, a) && i < |s.pools| && PoolOver(s.pools[i], j)
    requires i < |Step(s, a).pools| && w < |Step(s, a).pools[i].workers|
    ensures WorkerOver(Step(s, a).pools[i].workers[w], j)
  {
    if MovesWorker(a) { WorkerMoved(s, a, i, j, w); } else { WorkersKept(s, a, i); }
    hide Enabled, Step, WorkerOver;
  }

  lemma {:induction false} RunOver(s: System, run: seq<Action>, j: Job, last: Option<Reply>)
    requires Feasible(s, run) && Inv(s) && Over(s, j)
    ensures LastReply(s, run, j, last) == last
    decreases |run|
  {
    hide Over, Step, Enabled, Answers, Safe, Conserved, Budgeted;
    if run != [] {
      if run[0].Enqueue? { assert Conserved(s, run[0].queued); }
      StepOver(s, run[0], j);
      StepInv(s, run[0]);
      hide Inv;
      RunOver(Step(s, run[0]), run[1..], j, last);
    }
  }

  /** A job whose back-off was cut short is never delivered as a success, whatever happens next. */
  lemma {:induction false} InterruptedFails(workers: nat, before: seq<Action>, i: nat, w: nat, after: seq<Action>,
    r: Result)
    requires Feasible(Start(workers), before)
    requires var s := Run(Start(workers), before);
             && Enabled(s, Interrupt(i, w)) && Feasible(Step(s, Interrupt(i, w)), after)
             && r.job == s.pools[i].workers[w].job
             && var t := Run(Step(s, Interrupt(i, w)), after);
                r in t.out || r in t.consumed
    ensures !r.ok
  {
    hide Start, Run, Feasible, LastReply, Safe, Budgeted, Conserved;
    StartInv(workers);
    StartTold(workers, r.job);
    RunInv(Start(workers), before);
    RunTold(Start(workers), before, r.job, None);
    var s, last := Run(Start(workers), before), LastReply(Start(workers), before, r.job, None);
    assert Conserved(s, r.job);
    assert WorkerTells(s.pools[i].workers[w], r.job, last);
    var s' := Step(s, Interrupt(i, w));
    InterruptOver(s, i, w);
    StepTold(s, Interrupt(i, w), r.job, last);
    StepInv(s, Interrupt(i, w));
    hide Inv, Over, Step;
    RunTold(s', after, r.job, last);
    RunOver(s', after, r.job, last);
    var t := Run(s', after);
    hide PoolTells, Enabled;
    if r in t.out {
      var k :| 0 <= k < |t.out| && t.out[k] == r;
    } else {
      var k :| 0 <= k < |t.consumed| && t.consumed[k] == r;
    }
  }

  /** A job that was refused, or given up with its pool, is not delivered at all. */
  lemma {:induction false} GivenUpSilent(workers: nat, run: seq<Action>, r: Result)
    requires Feasible(Start(workers), run)
    requires var s := Run(Start(workers), run);
             r.job !in s.accepted || exists k :: 0 <= k < |s.dropped| && s.dropped[k].0 == r.job
    ensures var s := Run(Start(workers), run); r !in s.out && r !in s.consumed
  {
    hide Start, Run, Feasible, Safe, Budgeted, InPools;
    StartInv(workers);
    RunInv(Start(workers), run);
    var s := Run(Start(workers), run);
    assert Conserved(s, r.job);
    if k :| 0 <= k < |s.dropped| && s.dropped[k].0 == r.job { DroppedCounted(s.dropped, k); }
    hide Inv, InDropped, InResults;
    ResultsZero(s.out, r.job);
    ResultsZero(s.consumed, r.job);
  }

  lemma {:induction false} DroppedCounted(d: seq<(Job, nat)>, k: nat)
    requires k < |d|
    ensures InDropped(d, d[k].0) > 0
  {
    if k > 0 { DroppedCounted(d[1..], k - 1); }
  }
}
