// What the run theorems count: requests as they are made, which jobs the
// minimum length keeps out, how far the queues fill, and runs that get through
// every kind of step.
module TranscriberRequests {
  import opened Common
  import opened Transcriber
  import opened TranscriberRuns
  import opened TranscriberSafety
  import opened TranscriberTheorems

  // ---- Requests ----

  /** The step sends a request for this job: a worker takes it up, or its back-off ends. */
  predicate Requests(s: System, a: Action, j: Job)
    requires Enabled(s, a)
  {
    || (a.Take? && s.pools[a.pool].jobs[0] == j)
    || (a.Retry? && s.pools[a.pool].workers[a.worker].job == j)
  }

  function RequestsIn(s: System, run: seq<Action>, j: Job): nat
    requires Feasible(s, run)
    decreases |run|
  {
    if run == [] then 0
    else (if Requests(s, run[0], j) then 1 else 0) + RequestsIn(Step(s, run[0]), run[1..], j)
  }

  lemma StepRequests(s: System, a: Action, j: Job)
    requires Enabled(s, a)
    ensures CallsOf(Step(s, a), j) == CallsOf(s, j) + (if Requests(s, a, j) then 1 else 0)
  {
    hide Capacity, Short, NewPool, AfterReply;
  }

  lemma {:induction false} RunRequests(s: System, run: seq<Action>, j: Job)
    requires Feasible(s, run)
    ensures CallsOf(Run(s, run), j) == CallsOf(s, j) + RequestsIn(s, run, j)
    decreases |run|
  {
    hide Requests, Enabled, Step, CallsOf;
    if run != [] {
      StepRequests(s, run[0], j);
      RunRequests(Step(s, run[0]), run[1..], j);
    }
  }

  /** In every run at most four requests are made for a job, and none for one that was not accepted. */
  lemma {:induction false} FourRequests(workers: nat, run: seq<Action>, j: Job)
    requires Feasible(Start(workers), run)
    ensures RequestsIn(Start(workers), run, j) <= 4
    ensures j !in Run(Start(workers), run).accepted ==> RequestsIn(Start(workers), run, j) == 0
  {
    RunRequests(Start(workers), run, j);
    EveryRun(workers, run, j);
  }

  // ---- The minimum length ----

  /** Forced, of unknown length, or not shorter than the minimum in milliseconds. */
  predicate LongEnough(job: Job, ms: int) {
    job.force || ms <= 0 || job.durationMs <= 0 || ms <= job.durationMs
  }

  lemma {:induction false} LongEnoughStays(s: System, run: seq<Action>)
    requires Feasible(s, run) && forall k :: 0 <= k < |run| ==> !run[k].SetMinDuration?
    requires forall j :: j in s.submitting || j in s.accepted ==> LongEnough(j, s.minDurationMs)
    ensures Run(s, run).minDurationMs == s.minDurationMs
    ensures forall j :: j in Run(s, run).accepted ==> LongEnough(j, s.minDurationMs)
    decreases |run|
  {
    hide LongEnough;
    if run != [] {
      StepLongEnough(s, run[0]);
      hide Enabled, Step;
      assert forall k :: 0 <= k < |run[1..]| ==> run[1..][k] == run[k + 1];
      LongEnoughStays(Step(s, run[0]), run[1..]);
    }
  }

  lemma StepLongEnough(s: System, a: Action)
    requires Enabled(s, a) && !a.SetMinDuration?
    requires forall j :: j in s.submitting || j in s.accepted ==> LongEnough(j, s.minDurationMs)
    ensures Step(s, a).minDurationMs == s.minDurationMs
    ensures forall j :: j in Step(s, a).submitting || j in Step(s, a).accepted ==> LongEnough(j, s.minDurationMs)
  {
    hide Capacity, NewPool, AfterReply;
    if a.Submit? { SubmitExactly(s, a.job); }
    hide Short, LongEnough;
  }

  /** A job handed in goes to the pool there is, if there is one and the job is long enough. */
  lemma {:induction false} SubmitExactly(s: System, job: Job)
    requires Enabled(s, Submit(job))
    ensures Step(s, Submit(job)) == if s.current.Some? && LongEnough(job, s.minDurationMs)
                                    then s.(submitting := s.submitting[job := s.current.value]) else s
  {
  }

  /** Under a minimum length, no shorter job of known length is ever queued unless it is forced. */
  lemma {:induction false} ShortNeverQueued(workers: nat, ms: int, run: seq<Action>, j: Job)
    requires Feasible(Start(workers), [SetMinDuration(ms)] + run)
    requires forall k :: 0 <= k < |run| ==> !run[k].SetMinDuration?
    ensures j in Run(Start(workers), [SetMinDuration(ms)] + run).accepted ==> LongEnough(j, ms)
  {
    var s := Step(Start(workers), SetMinDuration(ms));
    assert ([SetMinDuration(ms)] + run)[1..] == run;
    LongEnoughStays(s, run);
  }

  // ---- The queues ----

  ghost predicate Fits(p: Pool) {
    |p.jobs| <= 4 * |p.workers| && |p.results| <= 4 * |p.workers|
  }

  lemma StepFits(s: System, a: Action, i: nat)
    requires Enabled(s, a) && i < |Step(s, a).pools| && (i < |s.pools| ==> Fits(s.pools[i]))
    ensures Fits(Step(s, a).pools[i])
    ensures i < |s.pools| ==> |Step(s, a).pools[i].workers| == |s.pools[i].workers|
    ensures i >= |s.pools| ==> |Step(s, a).pools[i].workers| == 2
  {
    hide Short, AfterReply;
  }

  lemma {:induction false} RunFits(s: System, run: seq<Action>, i: nat)
    requires Feasible(s, run) && i < |Run(s, run).pools| && (i < |s.pools| ==> Fits(s.pools[i]))
    ensures Fits(Run(s, run).pools[i])
    ensures if i < |s.pools| then |Run(s, run).pools[i].workers| == |s.pools[i].workers|
            else |Run(s, run).pools[i].workers| == 2
    decreases |run|
  {
    hide Fits, Enabled, Step;
    if run != [] {
      if i < |Step(s, run[0]).pools| { StepFits(s, run[0], i); }
      PoolsStay(s, run[0]);
      RunFits(Step(s, run[0]), run[1..], i);
    }
  }

  lemma PoolsStay(s: System, a: Action)
    requires Enabled(s, a)
    ensures |Step(s, a).pools| >= |s.pools|
  {
  }

  /** In every run a pool of n workers holds at most 4 n jobs and 4 n results; a reload starts two workers. */
  lemma {:induction false} QueuesBounded(workers: nat, run: seq<Action>, i: nat)
    requires Feasible(Start(workers), run) && i < |Run(Start(workers), run).pools|
    ensures var p := Run(Start(workers), run).pools[i];
            && |p.workers| == (if i == 0 && workers > 0 then workers else 2)
            && |p.jobs| <= 4 * |p.workers| && |p.results| <= 4 * |p.workers|
  {
    RunFits(Start(workers), run, i);
  }

  // ---- Whole journeys ----

  lemma More(s: System, run: seq<Action>, a: Action, s': System, rest: seq<Action>)
    requires run == [a] + rest && Enabled(s, a) && s' == Step(s, a) && Feasible(s', rest)
    ensures Feasible(s, run) && Run(s, run) == Run(s', rest)
  {
    hide Enabled, Step;
    assert run[1..] == rest;
  }

  lemma Done(s: System)
    ensures Feasible(s, []) && Run(s, []) == s
  {
  }

  /** A pool of one worker with its pump reading, and nothing else in it. */
  function OneWorker(w: Worker): Pool {
    Pool(false, [], [w], [], false, Reading)
  }

  /** The only pool is current, so many requests were made for the job, and these results are at the manager. */
  function With(p: Pool, j: Job, requests: nat, out: seq<Result>, consumed: seq<Result>): System {
    System([p], Some(0), Free, false, 0, map[], out, consumed, {j}, map[j := requests], [])
  }

  lemma SamePool(s: System, t: System)
    requires |s.pools| == 1 == |t.pools|
    requires var p, q := s.pools[0], t.pools[0];
             && p.cancelled == q.cancelled && p.jobs == q.jobs && p.workers == q.workers && p.results == q.results
             && p.closed == q.closed && p.pump == q.pump
    requires s.current == t.current && s.lock == t.lock && s.appDone == t.appDone && s.minDurationMs == t.minDurationMs
    requires s.submitting == t.submitting && s.out == t.out && s.consumed == t.consumed && s.accepted == t.accepted
    requires s.calls == t.calls && s.dropped == t.dropped
    ensures s == t
  {
    assert s.pools == [s.pools[0]] && t.pools == [t.pools[0]];
  }

  /** From hand-in to a failed first request. */
  lemma FirstTry(j: Job)
    ensures var run := [Submit(j), Enqueue(j), Take(0, 0), Answer(0, 0, Transient)];
            Feasible(Start(1), run) && Run(Start(1), run) == With(OneWorker(Waiting(j, 1)), j, 1, [], [])
  {
    var s0 := Start(1);
    var s1, s2, s3, s4 := Handed(j), Queued(j), With(OneWorker(Trying(j, 0)), j, 1, [], []),
      With(OneWorker(Waiting(j, 1)), j, 1, [], []);
    StepHanded(j);
    StepQueued(j);
    StepTaken(j);
    StepFailed(j);
    hide Enabled, Step, Start, With, OneWorker, Feasible, Run;
    Done(s4);
    var r4: seq<Action> := [];
    var r3 := [Answer(0, 0, Transient)] + r4;
    More(s3, r3, Answer(0, 0, Transient), s4, r4);
    var r2 := [Take(0, 0)] + r3;
    More(s2, r2, Take(0, 0), s3, r3);
    var r1 := [Enqueue(j)] + r2;
    More(s1, r1, Enqueue(j), s2, r2);
    var r0 := [Submit(j)] + r1;
    More(s0, r0, Submit(j), s1, r1);
    assert r0 == [Submit(j), Enqueue(j), Take(0, 0), Answer(0, 0, Transient)];
  }

  function Handed(j: Job): System {
    System([OneWorker(Idle)], Some(0), Free, false, 0, map[j := 0], [], [], {}, map[], [])
  }

  function Queued(j: Job): System {
    System([OneWorker(Idle).(jobs := [j])], Some(0), Free, false, 0, map[], [], [], {j}, map[], [])
  }

  lemma StepHanded(j: Job)
    ensures Enabled(Start(1), Submit(j)) && Handed(j) == Step(Start(1), Submit(j))
  {
    SamePool(Handed(j), Step(Start(1), Submit(j)));
  }

  lemma StepQueued(j: Job)
    ensures Enabled(Handed(j), Enqueue(j)) && Queued(j) == Step(Handed(j), Enqueue(j))
  {
    SamePool(Queued(j), Step(Handed(j), Enqueue(j)));
  }

  lemma StepTaken(j: Job)
    ensures Enabled(Queued(j), Take(0, 0))
    ensures With(OneWorker(Trying(j, 0)), j, 1, [], []) == Step(Queued(j), Take(0, 0))
  {
    SamePool(With(OneWorker(Trying(j, 0)), j, 1, [], []), Step(Queued(j), Take(0, 0)));
  }

  lemma StepFailed(j: Job)
    ensures Enabled(With(OneWorker(Trying(j, 0)), j, 1, [], []), Answer(0, 0, Transient))
    ensures With(OneWorker(Waiting(j, 1)), j, 1, [], [])
            == Step(With(OneWorker(Trying(j, 0)), j, 1, [], []), Answer(0, 0, Transient))
  {
    var s := With(OneWorker(Trying(j, 0)), j, 1, [], []);
    SamePool(With(OneWorker(Waiting(j, 1)), j, 1, [], []), Step(s, Answer(0, 0, Transient)));
  }

  /** From a back-off to the result taken from the manager. */
  lemma SecondTry(j: Job)
    ensures var run := [Retry(0, 0), Answer(0, 0, Success), Send(0, 0), Pull(0), Forward(0), Consume];
            var s := With(OneWorker(Waiting(j, 1)), j, 1, [], []);
            Feasible(s, run) && Run(s, run) == With(OneWorker(Idle), j, 2, [], [Result(j, true)])
  {
    var r := Result(j, true);
    var s0, s1, s2 := With(OneWorker(Waiting(j, 1)), j, 1, [], []), With(OneWorker(Trying(j, 1)), j, 2, [], []),
      With(OneWorker(Sending(r)), j, 2, [], []);
    var s3, s4 := With(OneWorker(Idle).(results := [r]), j, 2, [], []),
      With(OneWorker(Idle).(pump := Forwarding(r)), j, 2, [], []);
    var s5, s6 := With(OneWorker(Idle), j, 2, [r], []), With(OneWorker(Idle), j, 2, [], [r]);
    StepRetried(j);
    StepWorked(j);
    StepSent(j);
    StepPulled(j);
    StepForwarded(j);
    StepConsumed(j);
    hide Enabled, Step, With, OneWorker, Feasible, Run;
    Done(s6);
    var r6: seq<Action> := [];
    var r5 := [Consume] + r6;
    More(s5, r5, Consume, s6, r6);
    var r4 := [Forward(0)] + r5;
    More(s4, r4, Forward(0), s5, r5);
    var r3 := [Pull(0)] + r4;
    More(s3, r3, Pull(0), s4, r4);
    var r2 := [Send(0, 0)] + r3;
    More(s2, r2, Send(0, 0), s3, r3);
    var r1 := [Answer(0, 0, Success)] + r2;
    More(s1, r1, Answer(0, 0, Success), s2, r2);
    var r0 := [Retry(0, 0)] + r1;
    More(s0, r0, Retry(0, 0), s1, r1);
    assert r0 == [Retry(0, 0), Answer(0, 0, Success), Send(0, 0), Pull(0), Forward(0), Consume];
  }

  lemma StepRetried(j: Job)
    ensures Enabled(With(OneWorker(Waiting(j, 1)), j, 1, [], []), Retry(0, 0))
    ensures With(OneWorker(Trying(j, 1)), j, 2, [], [])
            == Step(With(OneWorker(Waiting(j, 1)), j, 1, [], []), Retry(0, 0))
  {
    var s := With(OneWorker(Waiting(j, 1)), j, 1, [], []);
    SamePool(With(OneWorker(Trying(j, 1)), j, 2, [], []), Step(s, Retry(0, 0)));
  }

  lemma StepWorked(j: Job)
    ensures Enabled(With(OneWorker(Trying(j, 1)), j, 2, [], []), Answer(0, 0, Success))
    ensures With(OneWorker(Sending(Result(j, true))), j, 2, [], [])
            == Step(With(OneWorker(Trying(j, 1)), j, 2, [], []), Answer(0, 0, Success))
  {
    var s := With(OneWorker(Trying(j, 1)), j, 2, [], []);
    SamePool(With(OneWorker(Sending(Result(j, true))), j, 2, [], []), Step(s, Answer(0, 0, Success)));
  }

  lemma StepSent(j: Job)
    ensures Enabled(With(OneWorker(Sending(Result(j, true))), j, 2, [], []), Send(0, 0))
    ensures With(OneWorker(Idle).(results := [Result(j, true)]), j, 2, [], [])
            == Step(With(OneWorker(Sending(Result(j, true))), j, 2, [], []), Send(0, 0))
  {
    var s := With(OneWorker(Sending(Result(j, true))), j, 2, [], []);
    SamePool(With(OneWorker(Idle).(results := [Result(j, true)]), j, 2, [], []), Step(s, Send(0, 0)));
  }

  lemma StepPulled(j: Job)
    ensures Enabled(With(OneWorker(Idle).(results := [Result(j, true)]), j, 2, [], []), Pull(0))
    ensures With(OneWorker(Idle).(pump := Forwarding(Result(j, true))), j, 2, [], [])
            == Step(With(OneWorker(Idle).(results := [Result(j, true)]), j, 2, [], []), Pull(0))
  {
    var s := With(OneWorker(Idle).(results := [Result(j, true)]), j, 2, [], []);
    SamePool(With(OneWorker(Idle).(pump := Forwarding(Result(j, true))), j, 2, [], []), Step(s, Pull(0)));
  }

  lemma StepForwarded(j: Job)
    ensures Enabled(With(OneWorker(Idle).(pump := Forwarding(Result(j, true))), j, 2, [], []), Forward(0))
    ensures With(OneWorker(Idle), j, 2, [Result(j, true)], [])
            == Step(With(OneWorker(Idle).(pump := Forwarding(Result(j, true))), j, 2, [], []), Forward(0))
  {
    var s := With(OneWorker(Idle).(pump := Forwarding(Result(j, true))), j, 2, [], []);
    SamePool(With(OneWorker(Idle), j, 2, [Result(j, true)], []), Step(s, Forward(0)));
  }

  lemma StepConsumed(j: Job)
    ensures Enabled(With(OneWorker(Idle), j, 2, [Result(j, true)], []), Consume)
    ensures With(OneWorker(Idle), j, 2, [], [Result(j, true)])
            == Step(With(OneWorker(Idle), j, 2, [Result(j, true)], []), Consume)
  {
    var s := With(OneWorker(Idle), j, 2, [Result(j, true)], []);
    SamePool(With(OneWorker(Idle), j, 2, [], [Result(j, true)]), Step(s, Consume));
  }

  /** The same pool cancelled, and no current one. */
  function Cancelled(w: Worker, closed: bool, pump: Pump, dropped: seq<(Job, nat)>, j: Job): System {
    System([Pool(true, [], [w], [], closed, pump)], None, Stopping, false, 0, map[], [], [], {j}, map[j := 1], dropped)
  }

  /** From a back-off through a reload to a new pool. */
  lemma CutShort(j: Job)
    ensures var run := [ReloadStops, Interrupt(0, 0), Drop(0, 0), Exit(0, 0), Close(0), PumpEnds(0)];
            var s := With(OneWorker(Waiting(j, 1)), j, 1, [], []);
            Feasible(s, run) && Run(s, run) == Cancelled(Exited, true, Stopped, [(j, 0)], j)
  {
    var s0, s1 := With(OneWorker(Waiting(j, 1)), j, 1, [], []), Cancelled(Waiting(j, 1), false, Reading, [], j);
    var s2, s3 := Cancelled(Sending(Result(j, false)), false, Reading, [], j),
      Cancelled(Idle, false, Reading, [(j, 0)], j);
    var s4, s5, s6 := Cancelled(Exited, false, Reading, [(j, 0)], j), Cancelled(Exited, true, Reading, [(j, 0)], j),
      Cancelled(Exited, true, Stopped, [(j, 0)], j);
    StepStopped(j);
    StepInterrupted(j);
    StepDropped(j);
    StepExited(j);
    StepClosed(j);
    StepEnded(j);
    hide Enabled, Step, With, OneWorker, Cancelled, Feasible, Run;
    Done(s6);
    var r6: seq<Action> := [];
    var r5 := [PumpEnds(0)] + r6;
    More(s5, r5, PumpEnds(0), s6, r6);
    var r4 := [Close(0)] + r5;
    More(s4, r4, Close(0), s5, r5);
    var r3 := [Exit(0, 0)] + r4;
    More(s3, r3, Exit(0, 0), s4, r4);
    var r2 := [Drop(0, 0)] + r3;
    More(s2, r2, Drop(0, 0), s3, r3);
    var r1 := [Interrupt(0, 0)] + r2;
    More(s1, r1, Interrupt(0, 0), s2, r2);
    var r0 := [ReloadStops] + r1;
    More(s0, r0, ReloadStops, s1, r1);
    assert r0 == [ReloadStops, Interrupt(0, 0), Drop(0, 0), Exit(0, 0), Close(0), PumpEnds(0)];
  }

  lemma StepStopped(j: Job)
    ensures Enabled(With(OneWorker(Waiting(j, 1)), j, 1, [], []), ReloadStops)
    ensures Cancelled(Waiting(j, 1), false, Reading, [], j)
            == Step(With(OneWorker(Waiting(j, 1)), j, 1, [], []), ReloadStops)
  {
    var s := With(OneWorker(Waiting(j, 1)), j, 1, [], []);
    SamePool(Cancelled(Waiting(j, 1), false, Reading, [], j), Step(s, ReloadStops));
  }

  lemma StepInterrupted(j: Job)
    ensures Enabled(Cancelled(Waiting(j, 1), false, Reading, [], j), Interrupt(0, 0))
    ensures Cancelled(Sending(Result(j, false)), false, Reading, [], j)
            == Step(Cancelled(Waiting(j, 1), false, Reading, [], j), Interrupt(0, 0))
  {
    var s := Cancelled(Waiting(j, 1), false, Reading, [], j);
    SamePool(Cancelled(Sending(Result(j, false)), false, Reading, [], j), Step(s, Interrupt(0, 0)));
  }

  lemma StepDropped(j: Job)
    ensures Enabled(Cancelled(Sending(Result(j, false)), false, Reading, [], j), Drop(0, 0))
    ensures Cancelled(Idle, false, Reading, [(j, 0)], j)
            == Step(Cancelled(Sending(Result(j, false)), false, Reading, [], j), Drop(0, 0))
  {
    var s := Cancelled(Sending(Result(j, false)), false, Reading, [], j);
    SamePool(Cancelled(Idle, false, Reading, [(j, 0)], j), Step(s, Drop(0, 0)));
  }

  lemma StepExited(j: Job)
    ensures Enabled(Cancelled(Idle, false, Reading, [(j, 0)], j), Exit(0, 0))
    ensures Cancelled(Exited, false, Reading, [(j, 0)], j)
            == Step(Cancelled(Idle, false, Reading, [(j, 0)], j), Exit(0, 0))
  {
    var s := Cancelled(Idle, false, Reading, [(j, 0)], j);
    SamePool(Cancelled(Exited, false, Reading, [(j, 0)], j), Step(s, Exit(0, 0)));
  }

  lemma StepClosed(j: Job)
    ensures Enabled(Cancelled(Exited, false, Reading, [(j, 0)], j), Close(0))
    ensures Cancelled(Exited, true, Reading, [(j, 0)], j)
            == Step(Cancelled(Exited, false, Reading, [(j, 0)], j), Close(0))
  {
    var s := Cancelled(Exited, false, Reading, [(j, 0)], j);
    SamePool(Cancelled(Exited, true, Reading, [(j, 0)], j), Step(s, Close(0)));
  }

  lemma StepEnded(j: Job)
    ensures Enabled(Cancelled(Exited, true, Reading, [(j, 0)], j), PumpEnds(0))
    ensures Cancelled(Exited, true, Stopped, [(j, 0)], j)
            == Step(Cancelled(Exited, true, Reading, [(j, 0)], j), PumpEnds(0))
  {
    var s := Cancelled(Exited, true, Reading, [(j, 0)], j);
    SamePool(Cancelled(Exited, true, Stopped, [(j, 0)], j), Step(s, PumpEnds(0)));
  }

  lemma {:induction false} RunsJoin(s: System, a: seq<Action>, b: seq<Action>)
    requires Feasible(s, a) && Feasible(Run(s, a), b)
    ensures Feasible(s, a + b) && Run(s, a + b) == Run(Run(s, a), b)
    decreases |a|
  {
    hide Enabled, Step;
    if a == [] {
      assert a + b == b;
    } else {
      RunsJoin(Step(s, a[0]), a[1..], b);
      assert (a + b)[1..] == a[1..] + b;
    }
  }

  /** A job whose first request fails for the moment and whose second works is delivered as a success after two
      requests. */
  lemma {:induction false} DeliveredRun(j: Job)
    ensures var run := [Submit(j), Enqueue(j), Take(0, 0), Answer(0, 0, Transient)]
                       + [Retry(0, 0), Answer(0, 0, Success), Send(0, 0), Pull(0), Forward(0), Consume];
            && Feasible(Start(1), run)
            && Run(Start(1), run).consumed == [Result(j, true)] && Run(Start(1), run).calls == map[j := 2]
            && RequestsIn(Start(1), run, j) == 2
  {
    var a, b := [Submit(j), Enqueue(j), Take(0, 0), Answer(0, 0, Transient)],
      [Retry(0, 0), Answer(0, 0, Success), Send(0, 0), Pull(0), Forward(0), Consume];
    FirstTry(j);
    SecondTry(j);
    hide Enabled, Step, Feasible, Run;
    RunsJoin(Start(1), a, b);
    RunRequests(Start(1), a + b, j);
  }

  /** With a reload during the back-off the job is given up, the pool's results are closed once its worker has left, and
      its pump ends. */
  lemma {:induction false} ReloadedRun(j: Job)
    ensures var run := [Submit(j), Enqueue(j), Take(0, 0), Answer(0, 0, Transient)]
                       + [ReloadStops, Interrupt(0, 0), Drop(0, 0), Exit(0, 0), Close(0), PumpEnds(0)];
            && Feasible(Start(1), run)
            && Run(Start(1), run).dropped == [(j, 0)] && Run(Start(1), run).consumed == []
            && Run(Start(1), run).pools == [Pool(true, [], [Exited], [], true, Stopped)]
  {
    var a, b := [Submit(j), Enqueue(j), Take(0, 0), Answer(0, 0, Transient)],
      [ReloadStops, Interrupt(0, 0), Drop(0, 0), Exit(0, 0), Close(0), PumpEnds(0)];
    FirstTry(j);
    CutShort(j);
    hide Enabled, Step, Feasible, Run;
    RunsJoin(Start(1), a, b);
  }
}
