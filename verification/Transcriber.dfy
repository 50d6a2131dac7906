// The transcriber pools and their manager as interleaved steps: submitters,
// workers, the goroutine that closes a pool's results, the pump of each pool
// and hot reload.
module Transcriber {
  import opened Common

  const MAX_RETRIES: nat := 3
  const RELOAD_WORKERS: nat := 2
  const MANAGER_BUFFER: nat := 16

  /** One call to Submit. */
  datatype Job = Job(id: nat, durationMs: int, force: bool)

  /** What one request to the transcription server comes to. */
  datatype Reply = Success | Transient | Permanent

  datatype Result = Result(job: Job, ok: bool)

  // ---- One job in a worker's hands ----

  datatype Worker =
    | Idle
    | Trying(job: Job, attempt: nat)      // a request is under way
    | Waiting(job: Job, attempt: nat)     // backing off before this attempt
    | Sending(result: Result)
    | Exited

  /** Where a worker goes when its request comes back. */
  function AfterReply(job: Job, attempt: nat, reply: Reply): Worker {
    match reply
    case Success => Sending(Result(job, true))
    case Transient => if attempt < MAX_RETRIES then Waiting(job, attempt + 1) else Sending(Result(job, false))
    case Permanent => Sending(Result(job, false))
  }

  // ---- The system ----

  datatype Pump = NoPump | Reading | Forwarding(result: Result) | Stopped

  datatype Pool = Pool(cancelled: bool, jobs: seq<Job>, workers: seq<Worker>, results: seq<Result>, closed: bool,
    pump: Pump)

  /** Reload holds the manager's lock from stopping the old pool to the end of the ping. */
  datatype Lock = Free | Stopping | Pinging(pool: nat)

  /** accepted, calls and dropped record history: jobs queued, requests made per job, results given up with the pool
      they were in. */
  datatype System = System(
    pools: seq<Pool>, current: Option<nat>, lock: Lock, appDone: bool, minDurationMs: int,
    submitting: map<Job, nat>, out: seq<Result>, consumed: seq<Result>,
    accepted: set<Job>, calls: map<Job, nat>, dropped: seq<(Job, nat)>)

  datatype Action =
    | SetMinDuration(ms: int)
    | Submit(job: Job)
    | Enqueue(queued: Job)
    | GiveUp(refused: Job)
    | Take(pool: nat, worker: nat)
    | Exit(pool: nat, worker: nat)
    | Answer(pool: nat, worker: nat, reply: Reply)
    | Retry(pool: nat, worker: nat)
    | Interrupt(pool: nat, worker: nat)
    | Send(pool: nat, worker: nat)
    | Drop(pool: nat, worker: nat)
    | Close(pool: nat)
    | Pull(pool: nat)
    | Forward(pool: nat)
    | PumpStops(pool: nat)
    | PumpEnds(pool: nat)
    | Consume
    | ReloadStops
    | ReloadGivesUp
    | ReloadStarts
    | PingOk
    | PingFails
    | AppStops

  function Capacity(p: Pool): nat {
    4 * |p.workers|
  }

  predicate Short(s: System, job: Job) {
    !job.force && s.minDurationMs > 0 && job.durationMs > 0 && job.durationMs < s.minDurationMs
  }

  predicate HasWorker(s: System, pool: nat, worker: nat) {
    pool < |s.pools| && worker < |s.pools[pool].workers|
  }

  /** The guard of each step; where a select has two ready cases both steps are enabled. */
  predicate Enabled(s: System, a: Action) {
    match a
    case SetMinDuration(ms) => true
    case Submit(job) => s.lock.Free? && job !in s.submitting && job !in s.accepted
    case Enqueue(job) =>
      job in s.submitting && s.submitting[job] < |s.pools|
      && |s.pools[s.submitting[job]].jobs| < Capacity(s.pools[s.submitting[job]])
    case GiveUp(job) => job in s.submitting
    case Take(p, w) => HasWorker(s, p, w) && s.pools[p].workers[w].Idle? && s.pools[p].jobs != []
    case Exit(p, w) => HasWorker(s, p, w) && s.pools[p].workers[w].Idle? && s.pools[p].cancelled
    case Answer(p, w, _) => HasWorker(s, p, w) && s.pools[p].workers[w].Trying?
    case Retry(p, w) => HasWorker(s, p, w) && s.pools[p].workers[w].Waiting?
    case Interrupt(p, w) => HasWorker(s, p, w) && s.pools[p].workers[w].Waiting? && s.pools[p].cancelled
    case Send(p, w) => HasWorker(s, p, w) && s.pools[p].workers[w].Sending?
      && |s.pools[p].results| < Capacity(s.pools[p])
    case Drop(p, w) => HasWorker(s, p, w) && s.pools[p].workers[w].Sending? && s.pools[p].cancelled
    case Close(p) => p < |s.pools| && !s.pools[p].closed && forall w :: 0 <= w < |s.pools[p].workers| ==>
      s.pools[p].workers[w].Exited?
    case Pull(p) => p < |s.pools| && s.pools[p].pump.Reading? && s.pools[p].results != []
    case Forward(p) => p < |s.pools| && s.pools[p].pump.Forwarding? && |s.out| < MANAGER_BUFFER
    case PumpStops(p) => p < |s.pools| && s.pools[p].pump.Forwarding? && s.appDone
    case PumpEnds(p) => p < |s.pools| && s.pools[p].pump.Reading? && s.pools[p].closed && s.pools[p].results == []
    case Consume => s.out != []
    case ReloadStops => s.lock.Free?
    case ReloadGivesUp => s.lock.Stopping?
    case ReloadStarts => s.lock.Stopping?
    case PingOk => s.lock.Pinging? && s.lock.pool < |s.pools|
    case PingFails => s.lock.Pinging? && s.lock.pool < |s.pools|
    case AppStops => true
  }

  function SetPool(s: System, i: nat, p: Pool): System
    requires i < |s.pools|
  {
    s.(pools := s.pools[i := p])
  }

  function SetWorker(p: Pool, w: nat, state: Worker): Pool
    requires w < |p.workers|
  {
    p.(workers := p.workers[w := state])
  }

  function CallsOf(s: System, job: Job): nat {
    if job in s.calls then s.calls[job] else 0
  }

  /** A request goes out for this job. */
  function Called(s: System, job: Job): System {
    s.(calls := s.calls[job := CallsOf(s, job) + 1])
  }

  function NewPool(workers: nat, cancelled: bool): Pool {
    Pool(cancelled, [], seq(workers, _ => Idle), [], false, NoPump)
  }

  function CancelAll(pools: seq<Pool>): (r: seq<Pool>)
    ensures |r| == |pools|
  {
    seq(|pools|, i requires 0 <= i < |pools| => pools[i].(cancelled := true))
  }

  function Step(s: System, a: Action): System
    requires Enabled(s, a)
  {
    match a
    case SetMinDuration(ms) => s.(minDurationMs := if ms < 0 then 0 else ms)
    case Submit(job) => if s.current.None? || Short(s, job) then s
      else s.(submitting := s.submitting[job := s.current.value])
    case Enqueue(job) =>
      var i := s.submitting[job];
      SetPool(s, i, s.pools[i].(jobs := s.pools[i].jobs + [job])).(submitting := s.submitting - {job},
        accepted := s.accepted + {job})
    case GiveUp(job) => s.(submitting := s.submitting - {job})
    case Take(i, w) =>
      var p := s.pools[i];
      Called(SetPool(s, i, SetWorker(p.(jobs := p.jobs[1..]), w, Trying(p.jobs[0], 0))), p.jobs[0])
    case Exit(i, w) => SetPool(s, i, SetWorker(s.pools[i], w, Exited))
    case Answer(i, w, reply) =>
      var t := s.pools[i].workers[w];
      SetPool(s, i, SetWorker(s.pools[i], w, AfterReply(t.job, t.attempt, reply)))
    case Retry(i, w) =>
      var t := s.pools[i].workers[w];
      Called(SetPool(s, i, SetWorker(s.pools[i], w, Trying(t.job, t.attempt))), t.job)
    case Interrupt(i, w) => SetPool(s, i, SetWorker(s.pools[i], w, Sending(Result(s.pools[i].workers[w].job, false))))
    case Send(i, w) =>
      var p := s.pools[i];
      SetPool(s, i, SetWorker(p.(results := p.results + [p.workers[w].result]), w, Idle))
    case Drop(i, w) =>
      SetPool(s, i, SetWorker(s.pools[i], w, Idle)).(dropped := s.dropped + [(s.pools[i].workers[w].result.job, i)])
    case Close(i) => SetPool(s, i, s.pools[i].(closed := true))
    case Pull(i) =>
      var p := s.pools[i];
      SetPool(s, i, p.(results := p.results[1..], pump := Forwarding(p.results[0])))
    case Forward(i) => SetPool(s, i, s.pools[i].(pump := Reading)).(out := s.out + [s.pools[i].pump.result])
    case PumpStops(i) =>
      SetPool(s, i, s.pools[i].(pump := Stopped)).(dropped := s.dropped + [(s.pools[i].pump.result.job, i)])
    case PumpEnds(i) => SetPool(s, i, s.pools[i].(pump := Stopped))
    case Consume => s.(out := s.out[1..], consumed := s.consumed + [s.out[0]])
    case ReloadStops =>
      var stopped := if s.current.Some? && s.current.value < |s.pools| then
                       SetPool(s, s.current.value, s.pools[s.current.value].(cancelled := true)) else s;
      stopped.(current := None, lock := Stopping)
    case ReloadGivesUp => s.(lock := Free)
    case ReloadStarts => s.(pools := s.pools + [NewPool(RELOAD_WORKERS, s.appDone)], lock := Pinging(|s.pools|))
    case PingOk => SetPool(s, s.lock.pool, s.pools[s.lock.pool].(pump := Reading)).(current := Some(s.lock.pool),
      lock := Free)
    case PingFails => SetPool(s, s.lock.pool, s.pools[s.lock.pool].(cancelled := true)).(lock := Free)
    case AppStops => s.(pools := CancelAll(s.pools), appDone := true)
  }

  /** A manager that starts with a pool of so many workers, or with transcription off. */
  function Start(workers: nat): System {
    if workers == 0 then System([], None, Free, false, 0, map[], [], [], {}, map[], [])
    else System([NewPool(workers, false).(pump := Reading)], Some(0), Free, false, 0, map[], [], [], {}, map[], [])
  }

  // ---- The retry loop ----

  /** A worker's steps on one job, given what each request comes to and which back-offs are cut short: what it sends,
      and the requests it made. */
  function Worked(w: Worker, replies: nat -> Reply, interrupted: nat -> bool): (Result, nat)
    requires (w.Trying? || w.Waiting?) && w.attempt <= MAX_RETRIES
    decreases MAX_RETRIES - w.attempt, if w.Waiting? then 1 else 0
  {
    match w
    case Waiting(job, attempt) =>
      if interrupted(attempt) then (Result(job, false), 0) else Worked(Trying(job, attempt), replies, interrupted)
    case Trying(job, attempt) =>
      var next := AfterReply(job, attempt, replies(attempt));
      if next.Sending? then (next.result, 1)
      else var rest := Worked(next, replies, interrupted); (rest.0, rest.1 + 1)
  }

  /** The retry loop of one job does what the worker's steps do; it ends on a reply that is not transient, on the
      last retry, or on a back-off cut short. */
  method Transcribe(job: Job, replies: nat -> Reply, interrupted: nat -> bool) returns (result: Result, requests: nat)
    ensures (result, requests) == Worked(Trying(job, 0), replies, interrupted)
    ensures 1 <= requests <= MAX_RETRIES + 1 && result == Result(job, replies(requests - 1).Success?)
    ensures forall i :: 0 <= i < requests - 1 ==> replies(i).Transient?
    ensures forall i :: 1 <= i < requests ==> !interrupted(i)
    ensures replies(requests - 1).Transient? ==> requests == MAX_RETRIES + 1 || interrupted(requests)
  {
    requests := 0;
    var attempt := 0;
    ghost var all := Worked(Trying(job, 0), replies, interrupted);
    while attempt <= MAX_RETRIES
      invariant attempt == requests <= MAX_RETRIES + 1
      invariant forall i :: 0 <= i < attempt ==> replies(i).Transient?
      invariant forall i :: 1 <= i < attempt ==> !interrupted(i)
      invariant 0 < attempt <= MAX_RETRIES ==>
                  var rest := Worked(Waiting(job, attempt), replies, interrupted); all == (rest.0, rest.1 + attempt)
      invariant attempt == MAX_RETRIES + 1 ==> all == (Result(job, false), attempt)
    {
      if attempt > 0 && interrupted(attempt) {
        return Result(job, false), requests;
      }
      requests := requests + 1;
      var reply := replies(attempt);
      if reply.Success? {
        return Result(job, true), requests;
      }
      if !reply.Transient? {
        break;
      }
      attempt := attempt + 1;
    }
    result := Result(job, false);
  }
}
