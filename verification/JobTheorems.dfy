/** What holds over every run of a job queue. */
module JobTheorems {
  import opened Options
  import opened JobQueue
  import opened JobInvariants

  lemma {:induction false} Reachable(c: Setup, run: seq<Pool>, i: nat)
    requires Behaviour(c, run) && i < |run|
    ensures Inv(c, run[i])
  {
    if i == 0 {
      InitialInv(c, run[0]);
    } else {
      Reachable(c, run, i - 1);
      assert StepAt(c, run, i);
      var s, t := run[i - 1], run[i];
      var a :| Step(c, a, s, t);
      StepKeeps(c, a, s, t);
    }
  }

  function Last(run: seq<Pool>): Pool
    requires run != []
  {
    run[|run| - 1]
  }

  predicate InQueue(s: Pool, i: int) {
    exists k :: 0 <= k < |s.queue| && s.queue[k].id == i
  }

  ghost predicate InHand(s: Pool, i: int) {
    exists w :: Holds(s, w, i)
  }

  /** Conservation: each accepted job is in exactly one of three places: still in the queue, with
      exactly one worker, or answered, and then exactly once. */
  lemma JobConservation(c: Setup, run: seq<Pool>, n: nat, i: nat)
    requires Behaviour(c, run) && n < |run| && i < |run[n].accepted|
    ensures
      var s := run[n];
      && (InQueue(s, i) <==> i >= |s.started|)
      && (InHand(s, i) <==> i < |s.started| && s.replies[i] == 0)
      && (i >= |s.started| ==> s.replies[i] == 0)
      && s.replies[i] <= 1
      && forall v, w :: Holds(s, v, i) && Holds(s, w, i) ==> v == w
  {
    var s := run[n];
    Reachable(c, run, n);
    if i >= |s.started| {
      assert s.queue[i - |s.started|] == s.accepted[i];
    }
    forall k | 0 <= k < |s.queue| ensures s.queue[k].id == |s.started| + k {
      assert s.queue[k] == s.accepted[|s.started| + k];
    }
    assert s.replies[i] == 1 ==> !InHand(s, i);
  }

  /** Jobs are started in the order in which they were accepted. */
  lemma StartedInOrder(c: Setup, run: seq<Pool>, n: nat)
    requires Behaviour(c, run) && n < |run|
    ensures run[n].started <= run[n].accepted
    ensures run[n].queue == run[n].accepted[|run[n].started|..]
  {
    Reachable(c, run, n);
  }

  /** A caller receives a result of its own language and code, with the output of running that job. */
  lemma CallersGetTheirOwnResult(c: Setup, run: seq<Pool>, n: nat, i: nat)
    requires Behaviour(c, run) && n < |run|
    requires i < |run[n].callers| && run[n].callers[i].Returned?
    ensures Own(run[n], i, run[n].callers[i].result)
    ensures run[n].accepted[i].id == i
  {
    Reachable(c, run, n);
  }

  /** At step `m` worker `w` finished running job `i`, and `output` was what came out. */
  predicate RanAt(c: Setup, run: seq<Pool>, m: int, w: nat, i: nat, output: string) {
    && 0 < m < |run| && WorkerStep(c, w, Finish(output), run[m - 1], run[m])
    && run[m - 1].workers[w].job.id == i
  }

  lemma WorkerRecordsItsOutput(c: Setup, w: nat, a: WorkerAct, s: Pool, t: Pool)
    requires WorkerStep(c, w, a, s, t)
    ensures t.accepted == s.accepted
    ensures t.outputs == if a.Finish? && s.workers[w].Running? then s.outputs[s.workers[w].job.id := a.output]
                         else s.outputs
    ensures a.Finish? ==> s.workers[w].Running?
  {
  }

  lemma StepKeepsRecord(c: Setup, a: Action, s: Pool, t: Pool)
    requires RunsOk(s) && Step(c, a, s, t)
    ensures s.accepted <= t.accepted
    ensures forall i :: i in s.outputs ==> i in t.outputs && t.outputs[i] == s.outputs[i]
  {
    match a {
      case Caller(b) => CallerRecordsNoOutput(c, b, s, t);
      case Worker(w, b) => WorkerRecordsItsOutput(c, w, b, s, t);
      case Closer(_) =>
    }
  }

  lemma {:induction false} RecordStays(c: Setup, run: seq<Pool>, m: nat, n: nat)
    requires Behaviour(c, run) && m <= n < |run|
    ensures run[m].accepted <= run[n].accepted
    ensures forall i :: i in run[m].outputs ==> i in run[n].outputs && run[n].outputs[i] == run[m].outputs[i]
  {
    if m < n {
      RecordStays(c, run, m, n - 1);
      Reachable(c, run, n - 1);
      assert StepAt(c, run, n);
      var s, t := run[n - 1], run[n];
      var a :| Step(c, a, s, t);
      StepKeepsRecord(c, a, s, t);
    }
  }

  lemma OnlyFinishRecords(c: Setup, a: Action, s: Pool, t: Pool, i: nat)
    requires Step(c, a, s, t) && i in t.outputs && !(i in s.outputs && s.outputs[i] == t.outputs[i])
    ensures a.Worker? && a.b == Finish(t.outputs[i]) && s.workers[a.w].job.id == i
  {
    match a {
      case Caller(b) => CallerRecordsNoOutput(c, b, s, t);
      case Worker(w, b) => WorkerRecordsItsOutput(c, w, b, s, t);
      case Closer(_) =>
    }
  }

  /** What is recorded for a job came out of a run of it. */
  lemma {:induction false} RecordedWasRun(c: Setup, run: seq<Pool>, n: nat, i: nat) returns (m: nat, w: nat)
    requires Behaviour(c, run) && n < |run| && i in run[n].outputs
    ensures m <= n && RanAt(c, run, m, w, i, run[n].outputs[i])
  {
    assert n > 0;
    assert StepAt(c, run, n);
    var s, t := run[n - 1], run[n];
    if i in s.outputs && s.outputs[i] == t.outputs[i] {
      m, w := RecordedWasRun(c, run, n - 1, i);
    } else {
      var a :| Step(c, a, s, t);
      OnlyFinishRecords(c, a, s, t, i);
      m, w := n, a.w;
    }
  }

  /** `a` is the submission of this language and code, accepted at step `k` as job `i`. */
  predicate SubmittedAt(c: Setup, run: seq<Pool>, k: int, a: CallerAct, i: nat) {
    && 0 < k < |run| && (a.Submit? || a.HandOver?)
    && CallerStep(c, a, run[k - 1], run[k]) && i == |run[k - 1].accepted|
  }

  /** End to end: whoever submitted this code in this language is returned exactly that with the output
      of the one run of it, and there was one. */
  lemma CallersGetWhatTheirCodePutOut(c: Setup, run: seq<Pool>, k: nat, a: CallerAct, n: nat, i: nat)
    returns (m: nat, w: nat)
    requires Behaviour(c, run) && SubmittedAt(c, run, k, a, i) && k <= n < |run|
    requires i < |run[n].callers| && run[n].callers[i].Returned?
    ensures
      var r := run[n].callers[i].result;
      && r.language == a.language && r.code == a.code && m <= n && RanAt(c, run, m, w, i, r.output)
      && forall l, v, output :: l <= n && RanAt(c, run, l, v, i, output) ==> output == r.output
  {
    CallersGetTheirOwnResult(c, run, n, i);
    RecordStays(c, run, k, n);
    assert run[k].accepted[i] == Job(i, a.language, a.code);
    m, w := RecordedWasRun(c, run, n, i);
    forall l, v: nat, output | l <= n && RanAt(c, run, l, v, i, output) ensures output == run[n].outputs[i] {
      RecordStays(c, run, l, n);
    }
  }

  // Nothing blocks.

  /** Whether a worker can take its next step. A stopped worker has none. */
  ghost predicate CanStep(c: Setup, s: Pool, w: nat) {
    exists a, t :: WorkerStep(c, w, a, s, t)
  }

  lemma AcquireNeverBlocks(c: Setup, s: Pool, w: nat)
    requires Inv(c, s) && w < |s.workers|
    ensures s.workers[w].Acquiring? ==> s.warm < c.workers
    ensures s.workers[w].Releasing? ==> s.warm > 0
    ensures s.warm <= c.workers
  {
    assert forall p: Phase :: Warm(p) <= 1;
    TotalBound(s.workers, Warm);
    assert Warm(s.workers[w]) <= 1;
  }

  /** The next step of a worker that does not look for a job: it goes on with the one it has, or stops. */
  lemma GoesOn(c: Setup, s: Pool, w: nat) returns (a: WorkerAct, t: Pool)
    requires Inv(c, s) && w < |s.workers| && s.workers[w] != Stopped
    requires s.workers[w].Hand().Some? || s.shutdown
    ensures WorkerStep(c, w, a, s, t) && !a.Take?
  {
    AcquireNeverBlocks(c, s, w);
    match s.workers[w] {
      case Idle => a, t := Stop, SetWorker(s, w, Stopped);
      case Parked => a, t := Stop, SetWorker(s, w, Stopped);
      case Acquiring(job) => a, t := Acquire, SetWorker(s, w, Running(job)).(warm := s.warm + 1);
      case Running(job) =>
        var r := Result(job.language, job.code, "");
        var q := if c.backend == Firecracker then Releasing(job, r) else Replying(job, r);
        a, t := Finish(""), SetWorker(s, w, q).(outputs := s.outputs[job.id := ""]);
      case Releasing(job, r) => a, t := Release, SetWorker(s, w, Replying(job, r)).(warm := s.warm - 1);
      case Replying(job, r) =>
        assert Holds(s, w, job.id) && s.slots[job.id] == None;
        a := WorkerAct.Reply;
        t := SetWorker(s, w, Idle).(slots := s.slots[job.id := Some(r)], replies := s.replies + multiset{job.id});
    }
  }

  /** No reply blocks, no acquire blocks, no release finds the semaphore empty: a worker that cannot go
      on has stopped, or is waiting for a job before shutdown has begun, when none is queued. */
  lemma WorkersNeverBlock(c: Setup, run: seq<Pool>, n: nat, w: nat)
    requires Behaviour(c, run) && n < |run| && w < |run[n].workers|
    ensures !CanStep(c, run[n], w) <==>
            run[n].workers[w] == Stopped || (run[n].workers[w] == Parked && !run[n].shutdown)
    ensures run[n].workers[w] == Parked && !run[n].shutdown ==> run[n].queue == []
  {
    var s := run[n];
    Reachable(c, run, n);
    if s.workers[w] != Stopped && (s.workers[w].Hand().Some? || s.shutdown) {
      var a, t := GoesOn(c, s, w);
    } else if s.workers[w] == Idle && s.queue == [] {
      assert WorkerStep(c, w, Park, s, SetWorker(s, w, Parked));
    } else if s.workers[w] == Idle {
      var t := SetWorker(s, w, Begin(c, s.queue[0])).(queue := s.queue[1..], started := s.started + [s.queue[0]]);
      assert WorkerStep(c, w, Take, s, t);
    } else if s.workers[w] == Parked {
      assert Receiving(s);
    }
  }

  /** What a worker with a job may rely on while other threads run. */
  predicate Relied(s: Pool, t: Pool, w: nat) {
    && w < |s.workers| && w < |t.workers| && t.workers[w] == s.workers[w]
    && s.accepted <= t.accepted && s.started <= t.started && s.replies <= t.replies
    && (s.shutdown ==> t.shutdown)
  }

  lemma OtherWorkersKeepRely(c: Setup, v: nat, a: WorkerAct, s: Pool, t: Pool, w: nat)
    requires WorkerStep(c, v, a, s, t) && v != w && w < |s.workers|
    ensures Relied(s, t, w)
  {
    assert t.accepted == s.accepted && t.shutdown == s.shutdown;
  }

  /** Steps of other threads keep the phase of a worker that has a job, and only add to the record. */
  lemma OthersLeaveABusyWorkerAlone(c: Setup, a: Action, s: Pool, t: Pool, w: nat)
    requires Step(c, a, s, t)
    requires w < |s.workers| && s.workers[w].Hand().Some? && !(a.Worker? && a.w == w)
    ensures Relied(s, t, w)
  {
    if a.Worker? {
      OtherWorkersKeepRely(c, a.w, a.b, s, t, w);
    }
  }

  /** The semaphore holds one token per worker between acquire and release. */
  lemma WarmTokensExact(c: Setup, run: seq<Pool>, n: nat)
    requires Behaviour(c, run) && n < |run| && c.backend == Firecracker
    ensures run[n].warm == Total(run[n].workers, Warm) <= c.workers
    ensures run[n].waited ==> run[n].warm == 0
  {
    Reachable(c, run, n);
    assert forall p: Phase :: Warm(p) <= 1;
    TotalBound(run[n].workers, Warm);
  }

  // Load and accounting.

  /** Accepted and not yet answered jobs fit in the queue and the workers' hands. */
  lemma LoadBound(c: Setup, run: seq<Pool>, n: nat)
    requires Behaviour(c, run) && n < |run|
    ensures |run[n].replies| <= |run[n].accepted| <= |run[n].replies| + c.capacity + c.workers
  {
    Reachable(c, run, n);
    assert forall p: Phase :: Busy(p) <= 1;
    TotalBound(run[n].workers, Busy);
  }

  lemma {:induction false} BusyOrNot(workers: seq<Phase>)
    ensures Total(workers, Busy) + Total(workers, Unoccupied) == |workers|
  {
    if workers != [] {
      BusyOrNot(workers[..|workers| - 1]);
    }
  }

  /** A submission is turned away only when the queue is full and no worker waits for a job. The load is
      then at its limit but for the workers without a job, and each of those is about to look at the
      queue or, once shutdown has begun, is leaving. */
  lemma RejectedOnlyWhenFull(c: Setup, run: seq<Pool>, n: nat, language: string, code: string)
    requires Behaviour(c, run) && n < |run|
    requires Step(c, Caller(Reject(language, code)), run[n], run[n])
    ensures |run[n].accepted| - |run[n].replies| + Total(run[n].workers, Unoccupied) == c.capacity + c.workers
    ensures !run[n].shutdown ==> forall w :: 0 <= w < |run[n].workers| ==>
              (Unoccupied(run[n].workers[w]) == 1 <==> run[n].workers[w] == Idle)
  {
    Reachable(c, run, n);
    BusyOrNot(run[n].workers);
  }

  /** In every state a submission does exactly one of three things, unless the job channel is closed: it
      is handed to a waiting worker, queued, or turned away. */
  lemma SubmissionIsDecided(c: Setup, s: Pool, language: string, code: string)
    requires !s.jobsClosed
    ensures (exists w: nat, t :: CallerStep(c, HandOver(w, language, code), s, t)) <==> Receiving(s)
    ensures (exists t :: CallerStep(c, CallerAct.Submit(language, code), s, t)) <==>
            !Receiving(s) && |s.queue| < c.capacity
    ensures CallerStep(c, Reject(language, code), s, s) <==> !Receiving(s) && |s.queue| >= c.capacity
  {
    var job := Job(|s.accepted|, language, code);
    if Receiving(s) {
      var w :| 0 <= w < |s.workers| && s.workers[w] == Parked;
      var t := SetWorker(Accept(c, s, job), w, Begin(c, job)).(started := s.started + [job]);
      assert CallerStep(c, HandOver(w, language, code), s, t);
    } else if |s.queue| < c.capacity {
      assert CallerStep(c, CallerAct.Submit(language, code), s, Accept(c, s, job).(queue := s.queue + [job]));
    }
  }

  /** The bounds of the two pools and of the executor. */
  lemma BackendLoad(max: int, jobs: nat, run: seq<Pool>, n: nat)
    requires n < |run|
    ensures Behaviour(DockerSetup(max), run) ==>
              |run[n].accepted| - |run[n].replies| <= if max <= 0 then 15 else 5 * max
    ensures Behaviour(FirecrackerSetup(max), run) ==>
              |run[n].accepted| - |run[n].replies| <= if max <= 0 then 33 else 11 * max
    ensures max >= 0 && Behaviour(ExecutorSetup(max, jobs), run) ==>
              |run[n].accepted| - |run[n].replies| <= jobs + max
  {
    if Behaviour(DockerSetup(max), run) {
      LoadBound(DockerSetup(max), run, n);
    }
    if Behaviour(FirecrackerSetup(max), run) {
      LoadBound(FirecrackerSetup(max), run, n);
    }
    if max >= 0 && Behaviour(ExecutorSetup(max, jobs), run) {
      LoadBound(ExecutorSetup(max, jobs), run, n);
    }
  }

  // The bound is met.

  lemma Extend(c: Setup, run: seq<Pool>, a: Action, t: Pool)
    requires Behaviour(c, run) && Step(c, a, run[|run| - 1], t)
    ensures Behaviour(c, run + [t])
  {
    var more := run + [t];
    forall i | 0 < i < |more| ensures StepAt(c, more, i) {
      if i < |run| {
        assert StepAt(c, run, i);
      }
    }
  }

  /** The first `k` workers have been handed a job each, the others are about to look for one. */
  ghost predicate Occupied(c: Setup, s: Pool, k: nat) {
    && |s.workers| == c.workers && k <= c.workers && !s.shutdown && !s.jobsClosed
    && (forall w :: 0 <= w < k ==> s.workers[w].Hand().Some?)
    && (forall w :: k <= w < c.workers ==> s.workers[w] == Idle)
    && s.replies == multiset{}
  }

  lemma {:induction false} AllOccupied(c: Setup, k: nat) returns (run: seq<Pool>)
    requires k <= c.workers
    ensures Behaviour(c, run) && Occupied(c, Last(run), k) && Last(run).queue == [] && |Last(run).accepted| == k
  {
    if k == 0 {
      run := [Pool([], seq(c.workers, _ => Idle), 0, false, false, false, 0, [], [], [], [], map[], multiset{})];
    } else {
      run := AllOccupied(c, k - 1);
      var w, s := k - 1, Last(run);
      var parked := SetWorker(s, w, Parked);
      Extend(c, run, Worker(w, Park), parked);
      var job := Job(|parked.accepted|, "", "");
      var t := SetWorker(Accept(c, parked, job), w, Begin(c, job)).(started := parked.started + [job]);
      Extend(c, run + [parked], Caller(HandOver(w, "", "")), t);
      run := run + [parked] + [t];
    }
  }

  lemma {:induction false} AllQueued(c: Setup, q: nat) returns (run: seq<Pool>)
    requires q <= c.capacity
    ensures Behaviour(c, run) && Occupied(c, Last(run), c.workers)
    ensures |Last(run).queue| == q && |Last(run).accepted| == c.workers + q
  {
    if q == 0 {
      run := AllOccupied(c, c.workers);
    } else {
      run := AllQueued(c, q - 1);
      var s := Last(run);
      var job := Job(|s.accepted|, "", "");
      var t := Accept(c, s, job).(queue := s.queue + [job]);
      Extend(c, run, Caller(CallerAct.Submit("", "")), t);
      run := run + [t];
    }
  }

  /** A state is full when the next submission is turned away, with `load` jobs unanswered. */
  predicate FullWith(c: Setup, s: Pool, load: int) {
    |s.accepted| - |s.replies| == load && Step(c, Caller(Reject("", "")), s, s)
  }

  /** Every pool can take queue capacity plus workers, and only then turns a submission away. */
  lemma LoadBoundIsMet(c: Setup) returns (run: seq<Pool>)
    ensures Behaviour(c, run) && FullWith(c, Last(run), c.capacity + c.workers)
  {
    run := AllQueued(c, c.capacity);
  }

  /** So the bounds of `BackendLoad` are met by each of the three pools. */
  lemma BackendLoadIsMet(max: int, jobs: nat)
    returns (docker: seq<Pool>, firecracker: seq<Pool>, executor: seq<Pool>)
    ensures Behaviour(DockerSetup(max), docker)
    ensures FullWith(DockerSetup(max), Last(docker), if max <= 0 then 15 else 5 * max)
    ensures Behaviour(FirecrackerSetup(max), firecracker)
    ensures FullWith(FirecrackerSetup(max), Last(firecracker), if max <= 0 then 33 else 11 * max)
    ensures max >= 0 ==>
              Behaviour(ExecutorSetup(max, jobs), executor) &&
              FullWith(ExecutorSetup(max, jobs), Last(executor), jobs + max)
  {
    docker := LoadBoundIsMet(DockerSetup(max));
    firecracker := LoadBoundIsMet(FirecrackerSetup(max));
    executor := [];
    if max >= 0 {
      executor := LoadBoundIsMet(ExecutorSetup(max, jobs));
    }
  }

  /** `TotalExecuted` misses exactly the callers that have sent their job and not yet counted it. */
  lemma TotalExecutedExact(c: Setup, run: seq<Pool>, n: nat)
    requires Behaviour(c, run) && n < |run| && c.backend != Executor
    ensures run[n].totalExecuted + Total(run[n].callers, BetweenSendAndCount) == |run[n].accepted|
  {
    Reachable(c, run, n);
  }

  // Shutdown.

  lemma OneWorkerMoves(c: Setup, w: nat, a: WorkerAct, s: Pool, t: Pool)
    requires WorkerStep(c, w, a, s, t)
    ensures t.workers == s.workers[w := t.workers[w]] && t.workers[w] != s.workers[w]
    ensures 5 * |t.queue| + Weight(t.workers[w]) < 5 * |s.queue| + Weight(s.workers[w])
    ensures t.accepted == s.accepted && t.shutdown == s.shutdown
  {
  }

  lemma WorkerStepCosts(c: Setup, w: nat, a: WorkerAct, s: Pool, t: Pool)
    requires WorkerStep(c, w, a, s, t)
    ensures Measure(t) < Measure(s)
    ensures t.accepted == s.accepted && t.workers != s.workers && t.shutdown == s.shutdown
  {
    OneWorkerMoves(c, w, a, s, t);
    TotalUpdate(s.workers, w, t.workers[w], Weight);
  }

  lemma CallerStepCostsNothing(c: Setup, a: CallerAct, s: Pool, t: Pool)
    requires CallerStep(c, a, s, t) && t.accepted == s.accepted
    ensures t.workers == s.workers && t.queue == s.queue && t.shutdown == s.shutdown
  {
    assert a.Submit? || a.HandOver? ==> |t.accepted| == |s.accepted| + 1;
  }

  /** A step that accepts no job either belongs to a worker, and costs, or leaves the measure alone. */
  lemma StepCosts(c: Setup, a: Action, s: Pool, t: Pool)
    requires Step(c, a, s, t) && t.accepted == s.accepted
    ensures if t.workers != s.workers then Measure(t) < Measure(s) else Measure(t) == Measure(s)
    ensures s.shutdown ==> t.shutdown
  {
    match a {
      case Worker(w, b) => WorkerStepCosts(c, w, b, s, t);
      case Caller(b) => CallerStepCostsNothing(c, b, s, t);
      case Closer(b) =>
    }
  }

  /** Steps taken by workers between two states of the run. */
  function WorkerSteps(run: seq<Pool>, i: nat, j: nat): nat
    requires i <= j < |run|
  {
    if i == j then 0 else WorkerSteps(run, i, j - 1) + if run[j].workers != run[j - 1].workers then 1 else 0
  }

  /** Once submissions stop, the workers together take at most `Measure` more steps. */
  lemma {:induction false} WorkersRunDown(c: Setup, run: seq<Pool>, i: nat, j: nat)
    requires Behaviour(c, run) && i <= j < |run|
    requires forall k :: i <= k <= j ==> run[k].accepted == run[i].accepted
    ensures WorkerSteps(run, i, j) + Measure(run[j]) <= Measure(run[i])
  {
    if i < j {
      WorkersRunDown(c, run, i, j - 1);
      assert StepAt(c, run, j);
      var s, t := run[j - 1], run[j];
      var a :| Step(c, a, s, t);
      StepCosts(c, a, s, t);
    }
  }

  /** So shutdown terminates: after it, the states in which no worker can step are those with all of
      them stopped, and then `wg.Wait` can return. */
  lemma ShutdownRunsDry(c: Setup, run: seq<Pool>, n: nat)
    requires Behaviour(c, run) && n < |run| && run[n].shutdown
    ensures (forall w: nat :: w < |run[n].workers| ==> !CanStep(c, run[n], w)) <==> AllStopped(run[n])
    ensures AllStopped(run[n]) && c.backend != Executor ==> Step(c, Closer(Wait), run[n], run[n].(waited := true))
  {
    forall w: nat | w < |run[n].workers| ensures !CanStep(c, run[n], w) <==> run[n].workers[w] == Stopped {
      WorkersNeverBlock(c, run, n, w);
    }
  }

  /** `more` goes on from where `run` ends until every worker has stopped. */
  ghost predicate Ends(c: Setup, run: seq<Pool>, more: seq<Pool>) {
    run != [] && run <= more && Behaviour(c, more) && AllStopped(Last(more))
  }

  lemma OnlyTakeStarts(c: Setup, w: nat, a: WorkerAct, s: Pool, t: Pool)
    requires WorkerStep(c, w, a, s, t) && !a.Take?
    ensures t.shutdown == s.shutdown && t.started == s.started && t.queue == s.queue
  {
  }

  /** From every state after shutdown has begun, the workers can finish within `Measure` steps, without
      a caller's help and without taking another job. By `WorkersRunDown` no schedule can keep them longer. */
  lemma {:induction false} ShutdownCompletes(c: Setup, run: seq<Pool>) returns (more: seq<Pool>)
    requires Behaviour(c, run) && run[|run| - 1].shutdown
    ensures Ends(c, run, more) && |more| <= |run| + Measure(run[|run| - 1])
    ensures Last(more).accepted == Last(run).accepted && Last(more).started == Last(run).started
    ensures Last(more).queue == Last(run).queue
    decreases Measure(run[|run| - 1])
  {
    var s := run[|run| - 1];
    if AllStopped(s) {
      return run;
    }
    var w :| 0 <= w < |s.workers| && s.workers[w] != Stopped;
    Reachable(c, run, |run| - 1);
    var a, t := GoesOn(c, s, w);
    WorkerStepCosts(c, w, a, s, t);
    OnlyTakeStarts(c, w, a, s, t);
    Extend(c, run, Worker(w, a), t);
    more := ShutdownCompletes(c, run + [t]);
  }

  lemma WorkerKeepsStarted(c: Setup, w: nat, a: WorkerAct, s: Pool, t: Pool)
    requires WorkerStep(c, w, a, s, t)
    ensures s.started <= t.started && !AllStopped(s)
  {
  }

  lemma CallerKeepsStarted(c: Setup, a: CallerAct, s: Pool, t: Pool)
    requires CallerStep(c, a, s, t)
    ensures s.started <= t.started
    ensures AllStopped(s) ==> AllStopped(t) && t.started == s.started && t.replies == s.replies && s.queue <= t.queue
  {
  }

  lemma StepKeepsStarted(c: Setup, a: Action, s: Pool, t: Pool)
    requires Step(c, a, s, t)
    ensures s.started <= t.started
    ensures AllStopped(s) ==> AllStopped(t) && t.started == s.started && t.replies == s.replies && s.queue <= t.queue
  {
    match a {
      case Worker(w, b) => WorkerKeepsStarted(c, w, b, s, t);
      case Caller(b) => CallerKeepsStarted(c, b, s, t);
      case Closer(b) =>
    }
  }

  lemma {:induction false} StaysStarted(c: Setup, run: seq<Pool>, i: nat, j: nat)
    requires Behaviour(c, run) && i <= j < |run|
    ensures run[i].started <= run[j].started
  {
    if i < j {
      StaysStarted(c, run, i, j - 1);
      assert StepAt(c, run, j);
      var s, t := run[j - 1], run[j];
      var a :| Step(c, a, s, t);
      StepKeepsStarted(c, a, s, t);
    }
  }

  /** Where every worker has stopped, the started jobs have been answered and no others. */
  lemma StoppedMeansAnswered(c: Setup, run: seq<Pool>, n: nat, i: nat)
    requires Behaviour(c, run) && n < |run| && AllStopped(run[n])
    ensures run[n].replies[i] == if i < |run[n].started| then 1 else 0
  {
    Reachable(c, run, n);
    assert forall w :: !Holds(run[n], w, i);
  }

  /** After shutdown has begun, an accepted job is sure to be answered if and only if a worker has already
      received it. A job that has been received is answered even if new jobs keep coming; one that is
      still queued can be left behind without anyone doing anything wrong. */
  lemma AnsweredExactlyWhenStarted(c: Setup, run: seq<Pool>, i: nat)
    requires Behaviour(c, run) && Last(run).shutdown && i < |Last(run).accepted|
    ensures (forall more :: Ends(c, run, more) && Last(more).accepted == Last(run).accepted ==>
               Last(more).replies[i] == 1)
            <==> i < |Last(run).started|
    ensures i < |Last(run).started| ==> forall more :: Ends(c, run, more) ==> Last(more).replies[i] == 1
  {
    if i < |Last(run).started| {
      forall more | Ends(c, run, more) ensures Last(more).replies[i] == 1 {
        StaysStarted(c, more, |run| - 1, |more| - 1);
        StoppedMeansAnswered(c, more, |more| - 1, i);
      }
    } else {
      var more := ShutdownCompletes(c, run);
      StoppedMeansAnswered(c, more, |more| - 1, i);
    }
  }

  /** When `wg.Wait` returns no job is running, and each accepted job was answered exactly once or is
      untouched in the queue. */
  lemma ShutdownIsClean(c: Setup, run: seq<Pool>, n: nat, i: nat)
    requires Behaviour(c, run) && n < |run| && run[n].waited && i < |run[n].accepted|
    ensures !InHand(run[n], i)
    ensures run[n].replies[i] == if InQueue(run[n], i) then 0 else 1
    ensures InQueue(run[n], i) ==> run[n].accepted[i] in run[n].queue
  {
    Reachable(c, run, n);
    JobConservation(c, run, n, i);
    assert forall w :: !Holds(run[n], w, i);
    if i >= |run[n].started| {
      assert run[n].queue[i - |run[n].started|] == run[n].accepted[i];
    }
  }

  lemma {:induction false} NothingStartsAfterStop(c: Setup, run: seq<Pool>, n: nat, m: nat)
    requires Behaviour(c, run) && n <= m < |run| && AllStopped(run[n])
    ensures AllStopped(run[m]) && run[m].started == run[n].started && run[m].replies == run[n].replies
    ensures run[n].queue <= run[m].queue
  {
    if n < m {
      NothingStartsAfterStop(c, run, n, m - 1);
      assert StepAt(c, run, m);
      var s, t := run[m - 1], run[m];
      var a :| Step(c, a, s, t);
      StepKeepsStarted(c, a, s, t);
    }
  }

  /** A job that is still queued when every worker has stopped, as when `wg.Wait` returns, stays there,
      and its caller never gets an answer. */
  lemma AbandonedForGood(c: Setup, run: seq<Pool>, n: nat, m: nat, i: nat)
    requires Behaviour(c, run) && n <= m < |run| && AllStopped(run[n]) && InQueue(run[n], i)
    ensures InQueue(run[m], i) && run[m].replies[i] == 0
    ensures i < |run[m].callers| && !run[m].callers[i].Returned?
  {
    NothingStartsAfterStop(c, run, n, m);
    var k :| 0 <= k < |run[n].queue| && run[n].queue[k].id == i;
    assert run[m].queue[k].id == i;
    QueuedIsNotReturned(c, run, m, i);
  }

  lemma QueuedIsNotReturned(c: Setup, run: seq<Pool>, n: nat, i: nat)
    requires Behaviour(c, run) && n < |run| && InQueue(run[n], i)
    ensures i < |run[n].callers| && !run[n].callers[i].Returned? && run[n].replies[i] == 0
  {
    var s := run[n];
    Reachable(c, run, n);
    var k :| 0 <= k < |s.queue| && s.queue[k].id == i;
    assert s.accepted[|s.started| + k] == s.queue[k];
  }

  lemma StepKeepsWaited(c: Setup, a: Action, s: Pool, t: Pool)
    requires Step(c, a, s, t) && s.waited
    ensures t.waited
  {
  }

  /** After `wg.Wait` the semaphore may be closed: no worker ever sends on it again. */
  lemma {:induction false} NobodyAcquiresAfterWait(c: Setup, run: seq<Pool>, i: nat, j: nat)
    requires Behaviour(c, run) && i <= j < |run| && run[i].waited
    ensures run[j].waited && AllStopped(run[j])
  {
    Reachable(c, run, j);
    if i < j {
      NobodyAcquiresAfterWait(c, run, i, j - 1);
      assert StepAt(c, run, j);
      var s, t := run[j - 1], run[j];
      var a :| Step(c, a, s, t);
      StepKeepsWaited(c, a, s, t);
    }
  }
}
