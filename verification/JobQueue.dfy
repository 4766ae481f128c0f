/**
 The job queues of worker/docker/docker.go, worker/firecracker/firecracker.go and
 executor/worker_pool.go as one transition system.

 The channels are a bounded queue of jobs, a private one-slot reply channel per job, and, for
 Firecracker, a counting semaphore. Running a job is one step with an arbitrary output. Threads
 interleave freely, and a worker's `select` may choose either ready branch.
 */
module JobQueue {
  import opened Options

  datatype Backend = Docker | Firecracker | Executor

  datatype Setup = Setup(backend: Backend, workers: nat, capacity: nat)

  function WorkersOf(maxWorkers: int): nat {
    if maxWorkers <= 0 then 3 else maxWorkers
  }

  function DockerSetup(maxWorkers: int): Setup {
    Setup(Docker, WorkersOf(maxWorkers), WorkersOf(maxWorkers) * 4)
  }

  function FirecrackerSetup(maxWorkers: int): Setup {
    Setup(Firecracker, WorkersOf(maxWorkers), WorkersOf(maxWorkers) * 10)
  }

  /** Here the queue may have no room at all: a job is then handed straight to a waiting worker. */
  function ExecutorSetup(maxWorkers: nat, maxJobCount: nat): Setup {
    Setup(Executor, maxWorkers, maxJobCount)
  }

  /** `id` stands for the job's private reply channel. */
  datatype Job = Job(id: nat, language: string, code: string)

  /** What came of running `code` in `language`; an error is an output too. */
  datatype Result = Result(language: string, code: string, output: string)

  datatype Phase =
    | Idle                                    // about to look at its channels
    | Parked                                  // waiting in its `select`, which found nothing ready
    | Acquiring(job: Job)                     // Firecracker: received, before the semaphore
    | Running(job: Job)
    | Releasing(job: Job, result: Result)     // Firecracker: done, still holding the semaphore
    | Replying(job: Job, result: Result)
    | Stopped
  {
    function Hand(): Option<Job> {
      if Idle? || Parked? || Stopped? then None else Some(job)
    }
  }

  /** A caller of `ExecuteJob` whose job was accepted. */
  datatype Caller = Counting | Awaiting | Returned(result: Result)

  datatype Pool = Pool(
    queue: seq<Job>,
    workers: seq<Phase>,
    warm: nat,                       // tokens in the semaphore
    shutdown: bool,                  // the shutdown channel is closed
    jobsClosed: bool,                // the executor has closed the job channel too
    waited: bool,                    // wg.Wait has returned
    totalExecuted: nat,
    slots: seq<Option<Result>>,      // the reply channel of each accepted job
    callers: seq<Caller>,
    accepted: seq<Job>,              // history: jobs sent on the channel, in order
    started: seq<Job>,               // history: jobs received from it, in order
    outputs: map<nat, string>,       // history: what running each job put out, by job
    replies: multiset<nat>           // history: replies sent, by job
  )

  datatype CallerAct =
    | Submit(language: string, code: string)
    | HandOver(w: nat, language: string, code: string)
    | Reject(language: string, code: string)
    | Count(i: nat)
    | Receive(i: nat)

  datatype WorkerAct = Take | Park | Acquire | Finish(output: string) | Release | Reply | Stop

  datatype CloserAct = Close | CloseJobs | Wait

  datatype Action = Caller(a: CallerAct) | Worker(w: nat, b: WorkerAct) | Closer(d: CloserAct)

  ghost predicate Initial(c: Setup, s: Pool) {
    && s.queue == [] && s.slots == [] && s.callers == [] && s.accepted == [] && s.started == []
    && s.outputs == map[] && s.replies == multiset{} && s.warm == 0 && s.totalExecuted == 0
    && !s.shutdown && !s.jobsClosed && !s.waited
    && |s.workers| == c.workers && forall w :: 0 <= w < |s.workers| ==> s.workers[w] == Idle
  }

  /** A worker is waiting for a job. Closing the shutdown channel wakes all of them at once. */
  predicate Receiving(s: Pool) {
    !s.shutdown && exists w :: 0 <= w < |s.workers| && s.workers[w] == Parked
  }

  function Accept(c: Setup, s: Pool, job: Job): Pool {
    s.(accepted := s.accepted + [job], slots := s.slots + [None],
       callers := s.callers + [if c.backend == Executor then Awaiting else Counting])
  }

  /** What a worker does first with the job it has received. */
  function Begin(c: Setup, job: Job): Phase {
    if c.backend == Firecracker then Acquiring(job) else Running(job)
  }

  function SetWorker(s: Pool, w: nat, p: Phase): Pool
    requires w < |s.workers|
  {
    s.(workers := s.workers[w := p])
  }

  /** `ExecuteJob`: the sending half, the counter and the receiving half. A waiting worker is given the
      job directly; otherwise it is queued if there is room. Sending on a closed channel panics, so no
      job comes once the job channel is closed. */
  predicate CallerStep(c: Setup, a: CallerAct, s: Pool, t: Pool) {
    match a
    case Submit(language, code) =>
      && !s.jobsClosed && !Receiving(s) && |s.queue| < c.capacity
      && var job := Job(|s.accepted|, language, code);
         t == Accept(c, s, job).(queue := s.queue + [job])
    case HandOver(w, language, code) =>
      && !s.jobsClosed && !s.shutdown && w < |s.workers| && s.workers[w] == Parked
      && var job := Job(|s.accepted|, language, code);
         t == SetWorker(Accept(c, s, job), w, Begin(c, job)).(started := s.started + [job])
    case Reject(_, _) => !s.jobsClosed && !Receiving(s) && |s.queue| >= c.capacity && t == s
    case Count(i) =>
      && i < |s.callers| && s.callers[i] == Counting
      && t == s.(callers := s.callers[i := Awaiting], totalExecuted := s.totalExecuted + 1)
    case Receive(i) =>
      && i < |s.callers| && i < |s.slots| && s.callers[i] == Awaiting && s.slots[i].Some?
      && t == s.(callers := s.callers[i := Returned(s.slots[i].value)], slots := s.slots[i := None])
  }

  predicate WorkerStep(c: Setup, w: nat, a: WorkerAct, s: Pool, t: Pool) {
    && w < |s.workers|
    && var p := s.workers[w];
    match a
    case Take =>
      && p == Idle && s.queue != []
      && t == SetWorker(s, w, Begin(c, s.queue[0])).(queue := s.queue[1..], started := s.started + [s.queue[0]])
    case Park => p == Idle && s.queue == [] && !s.shutdown && t == SetWorker(s, w, Parked)
    case Acquire =>
      p.Acquiring? && s.warm < c.workers && t == SetWorker(s, w, Running(p.job)).(warm := s.warm + 1)
    case Finish(output) =>
      && p.Running?
      && var result := Result(p.job.language, p.job.code, output);
         t == SetWorker(s, w, if c.backend == Firecracker then Releasing(p.job, result) else Replying(p.job, result))
              .(outputs := s.outputs[p.job.id := output])
    case Release =>
      p.Releasing? && s.warm > 0 && t == SetWorker(s, w, Replying(p.job, p.result)).(warm := s.warm - 1)
    case Reply =>
      && p.Replying? && p.job.id < |s.slots| && s.slots[p.job.id] == None
      && t == SetWorker(s, w, Idle).(slots := s.slots[p.job.id := Some(p.result)],
                                      replies := s.replies + multiset{p.job.id})
    case Stop => (p == Idle || p == Parked) && s.shutdown && t == SetWorker(s, w, Stopped)
  }

  predicate AllStopped(s: Pool) {
    forall w :: 0 <= w < |s.workers| ==> s.workers[w] == Stopped
  }

  /** `Shutdown`. The executor closes a second channel. Its `wg.Wait` also counts the monitor, which by
      `PoolTheorems.MonitorNeverEnds` never ends, so for the executor there is no step that returns. */
  predicate CloserStep(c: Setup, a: CloserAct, s: Pool, t: Pool) {
    match a
    case Close => !s.shutdown && t == s.(shutdown := true)
    case CloseJobs => c.backend == Executor && s.shutdown && !s.jobsClosed && t == s.(jobsClosed := true)
    case Wait => c.backend != Executor && s.shutdown && AllStopped(s) && t == s.(waited := true)
  }

  predicate Step(c: Setup, a: Action, s: Pool, t: Pool) {
    match a
    case Caller(b) => CallerStep(c, b, s, t)
    case Worker(w, b) => WorkerStep(c, w, b, s, t)
    case Closer(b) => CloserStep(c, b, s, t)
  }

  ghost predicate Next(c: Setup, s: Pool, t: Pool) {
    exists a :: Step(c, a, s, t)
  }

  ghost predicate StepAt(c: Setup, run: seq<Pool>, i: int)
    requires 0 < i < |run|
  {
    Next(c, run[i - 1], run[i])
  }

  ghost predicate Behaviour(c: Setup, run: seq<Pool>) {
    && run != [] && Initial(c, run[0])
    && forall i :: 0 < i < |run| ==> StepAt(c, run, i)
  }

  // Sums over threads.

  function Total<T>(xs: seq<T>, f: T -> nat): nat {
    if xs == [] then 0 else Total(xs[..|xs| - 1], f) + f(xs[|xs| - 1])
  }

  lemma {:induction false} TotalUpdate<T>(xs: seq<T>, i: nat, x: T, f: T -> nat)
    requires i < |xs|
    ensures Total(xs[i := x], f) + f(xs[i]) == Total(xs, f) + f(x)
  {
    var n := |xs| - 1;
    if i == n {
      assert xs[i := x][..n] == xs[..n];
    } else {
      assert xs[i := x][..n] == xs[..n][i := x];
      TotalUpdate(xs[..n], i, x, f);
    }
  }

  lemma TotalAppend<T>(xs: seq<T>, x: T, f: T -> nat)
    ensures Total(xs + [x], f) == Total(xs, f) + f(x)
  {
    assert (xs + [x])[..|xs|] == xs;
  }

  /** A sum of zeros and ones counts, so it is short of the number of threads by the zeros. */
  lemma {:induction false} TotalBound<T>(xs: seq<T>, f: T -> nat)
    requires forall x :: f(x) <= 1
    ensures Total(xs, f) <= |xs|
    ensures (exists i :: 0 <= i < |xs| && f(xs[i]) == 0) ==> Total(xs, f) < |xs|
    ensures (exists i :: 0 <= i < |xs| && f(xs[i]) == 1) ==> Total(xs, f) > 0
    ensures (forall i :: 0 <= i < |xs| ==> f(xs[i]) == 0) ==> Total(xs, f) == 0
  {
    if xs != [] {
      var n := |xs| - 1;
      TotalBound(xs[..n], f);
      if i :| 0 <= i < |xs| && f(xs[i]) == 0 {
        assert i < n ==> f(xs[..n][i]) == 0;
      }
      if i :| 0 <= i < |xs| && f(xs[i]) == 1 {
        assert i < n ==> f(xs[..n][i]) == 1;
      }
    }
  }

  function Busy(p: Phase): nat {
    if p.Hand().Some? then 1 else 0
  }

  function Unoccupied(p: Phase): nat {
    if p.Hand().Some? then 0 else 1
  }

  function Warm(p: Phase): nat {
    if p.Running? || p.Releasing? then 1 else 0
  }

  function BetweenSendAndCount(c: Caller): nat {
    if c.Counting? then 1 else 0
  }

  /** How many steps a worker still has to do, at most, until it is given another job. */
  function Weight(p: Phase): nat {
    match p
    case Stopped => 0
    case Parked => 1
    case Idle => 2
    case Replying(_, _) => 3
    case Releasing(_, _) => 4
    case Running(_) => 5
    case Acquiring(_) => 6
  }

  function Measure(s: Pool): nat {
    5 * |s.queue| + Total(s.workers, Weight)
  }
}
