/** What every step of a job queue keeps. */
module JobInvariants {
  import opened Options
  import opened JobQueue

  /** Every accepted job is queued or has been started, in the order of acceptance. */
  ghost predicate OrderOk(c: Setup, s: Pool) {
    && |s.workers| == c.workers && |s.queue| <= c.capacity
    && s.accepted == s.started + s.queue
    && |s.slots| == |s.callers| == |s.accepted|
    && forall i :: 0 <= i < |s.accepted| ==> s.accepted[i].id == i
  }

  /** No job is queued while a worker waits for one. */
  ghost predicate ParkOk(s: Pool) {
    Receiving(s) ==> s.queue == []
  }

  predicate Holds(s: Pool, w: int, i: int) {
    0 <= w < |s.workers| && s.workers[w].Hand().Some? && s.workers[w].Hand().value.id == i
  }

  /** A started job is with exactly one worker until it is answered, and is answered once. */
  ghost predicate HandsOk(s: Pool) {
    && (forall w, i :: Holds(s, w, i) ==>
          0 <= i < |s.started| && s.workers[w].Hand().value == s.started[i] && s.replies[i] == 0)
    && (forall v, w, i :: Holds(s, v, i) && Holds(s, w, i) ==> v == w)
  }

  ghost predicate RepliesOk(s: Pool) {
    && (forall i: nat :: s.replies[i] <= 1)
    && (forall i: nat :: s.replies[i] == 1 ==> i < |s.started|)
    && (forall i :: 0 <= i < |s.started| ==> s.replies[i] == 1 || exists w :: Holds(s, w, i))
  }

  /** `r` is what running job `i` came to. */
  predicate Own(s: Pool, i: int, r: Result) {
    && 0 <= i < |s.accepted| && i in s.outputs
    && r == Result(s.accepted[i].language, s.accepted[i].code, s.outputs[i])
  }

  /** What lies in a reply channel, or came out of it, is what running that caller's own job put out. */
  ghost predicate ResultsOk(s: Pool) {
    && (forall w :: 0 <= w < |s.workers| && (s.workers[w].Releasing? || s.workers[w].Replying?) ==>
          Own(s, s.workers[w].job.id, s.workers[w].result))
    && (forall i :: 0 <= i < |s.slots| && s.slots[i].Some? ==> Own(s, i, s.slots[i].value))
    && (forall i :: 0 <= i < |s.callers| && s.callers[i].Returned? ==> Own(s, i, s.callers[i].result))
  }

  /** Only started jobs have been run, and none that a worker still has to run. */
  ghost predicate RunsOk(s: Pool) {
    && (forall i :: i in s.outputs ==> i < |s.started|)
    && (forall w :: 0 <= w < |s.workers| && (s.workers[w].Acquiring? || s.workers[w].Running?) ==>
          s.workers[w].job.id !in s.outputs)
  }

  /** A reply channel holds the reply from when it was sent until the caller takes it. */
  ghost predicate SlotsOk(s: Pool) {
    forall i: nat :: i < |s.slots| && i < |s.callers| ==>
      && (s.callers[i].Returned? ==> s.replies[i] == 1 && s.slots[i] == None)
      && (!s.callers[i].Returned? ==> (s.slots[i].Some? <==> s.replies[i] == 1))
  }

  ghost predicate CountsOk(c: Setup, s: Pool) {
    && s.warm == (if c.backend == Firecracker then Total(s.workers, Warm) else 0)
    && |s.replies| + Total(s.workers, Busy) == |s.started|
    && (c.backend != Executor ==> s.totalExecuted + Total(s.callers, BetweenSendAndCount) == |s.accepted|)
  }

  ghost predicate StopsOk(c: Setup, s: Pool) {
    && (forall w :: 0 <= w < |s.workers| && s.workers[w].Stopped? ==> s.shutdown)
    && (s.waited ==> s.shutdown && AllStopped(s))
    && (s.jobsClosed ==> s.shutdown && c.backend == Executor)
    && (c.backend != Firecracker ==>
          forall w :: 0 <= w < |s.workers| ==> !s.workers[w].Acquiring? && !s.workers[w].Releasing?)
  }

  ghost predicate Inv(c: Setup, s: Pool) {
    && OrderOk(c, s) && ParkOk(s) && HandsOk(s) && RepliesOk(s) && ResultsOk(s) && RunsOk(s) && SlotsOk(s)
    && CountsOk(c, s) && StopsOk(c, s)
  }

  lemma InitialInv(c: Setup, s: Pool)
    requires Initial(c, s)
    ensures Inv(c, s)
  {
    TotalBound(s.workers, Warm);
    TotalBound(s.workers, Busy);
  }

  // The steps of the callers.

  lemma CallerKeepsOrder(c: Setup, a: CallerAct, s: Pool, t: Pool)
    requires OrderOk(c, s) && ParkOk(s) && CallerStep(c, a, s, t)
    ensures OrderOk(c, t)
  {
    if a.HandOver? {
      assert s.queue == [];
    }
  }

  lemma CallerKeepsParked(c: Setup, a: CallerAct, s: Pool, t: Pool)
    requires ParkOk(s) && CallerStep(c, a, s, t)
    ensures ParkOk(t)
  {
    if a.HandOver? {
      assert s.queue == [];
    } else {
      assert t.workers == s.workers;
    }
  }

  /** A step that starts no job and answers none leaves every job where it is. */
  lemma QuietStep(s: Pool, t: Pool)
    requires HandsOk(s) && RepliesOk(s) && t.started == s.started && t.replies == s.replies
    requires forall w, i :: Holds(t, w, i) <==> Holds(s, w, i)
    requires forall w, i :: Holds(t, w, i) ==> t.workers[w].Hand() == s.workers[w].Hand()
    ensures HandsOk(t) && RepliesOk(t)
  {
    forall i | 0 <= i < |s.started| && s.replies[i] == 0 ensures exists v :: Holds(t, v, i) {
      var v :| Holds(s, v, i);
      assert Holds(t, v, i);
    }
  }

  /** The next job goes to a worker that has none. */
  lemma JobStarts(s: Pool, t: Pool, w: nat, job: Job, p: Phase)
    requires HandsOk(s) && RepliesOk(s) && w < |s.workers| && s.workers[w].Hand() == None
    requires job.id == |s.started| && p.Hand() == Some(job) && t.workers == s.workers[w := p]
    requires t.started == s.started + [job] && t.replies == s.replies
    ensures HandsOk(t) && RepliesOk(t)
  {
    var n := |s.started|;
    assert forall v, i :: Holds(t, v, i) <==> if v == w then i == n else Holds(s, v, i);
    assert Holds(t, w, n);
    forall i | 0 <= i < n && s.replies[i] == 0 ensures exists v :: Holds(t, v, i) {
      var v :| Holds(s, v, i);
      assert Holds(t, v, i);
    }
  }

  lemma JobAnswered(s: Pool, t: Pool, w: nat)
    requires HandsOk(s) && RepliesOk(s) && w < |s.workers| && s.workers[w].Replying?
    requires t.workers == s.workers[w := Idle] && t.started == s.started
    requires t.replies == s.replies + multiset{s.workers[w].job.id}
    ensures HandsOk(t) && RepliesOk(t)
  {
    assert Holds(s, w, s.workers[w].job.id);
    assert forall v, i :: Holds(t, v, i) <==> v != w && Holds(s, v, i);
    forall i | 0 <= i < |s.started| && t.replies[i] == 0 ensures exists v :: Holds(t, v, i) {
      var v :| Holds(s, v, i);
      assert Holds(t, v, i);
    }
  }

  lemma CallerKeepsHands(c: Setup, a: CallerAct, s: Pool, t: Pool)
    requires OrderOk(c, s) && ParkOk(s) && HandsOk(s) && RepliesOk(s) && CallerStep(c, a, s, t)
    ensures HandsOk(t) && RepliesOk(t)
  {
    if a.HandOver? {
      assert s.queue == [];
      JobStarts(s, t, a.w, t.started[|s.started|], t.workers[a.w]);
    } else {
      QuietStep(s, t);
    }
  }

  lemma CallerRecordsNoOutput(c: Setup, a: CallerAct, s: Pool, t: Pool)
    requires CallerStep(c, a, s, t)
    ensures t.outputs == s.outputs && s.accepted <= t.accepted
  {
  }

  lemma CallerKeepsResults(c: Setup, a: CallerAct, s: Pool, t: Pool)
    requires OrderOk(c, s) && ResultsOk(s) && CallerStep(c, a, s, t)
    ensures ResultsOk(t)
  {
    CallerRecordsNoOutput(c, a, s, t);
    assert forall i, r :: Own(s, i, r) ==> Own(t, i, r);
  }

  lemma CallerKeepsRuns(c: Setup, a: CallerAct, s: Pool, t: Pool)
    requires OrderOk(c, s) && ParkOk(s) && RunsOk(s) && CallerStep(c, a, s, t)
    ensures RunsOk(t)
  {
    if a.HandOver? {
      assert s.queue == [] && t.started == s.started + [t.accepted[|s.accepted|]];
    } else {
      assert t.workers == s.workers;
    }
  }

  lemma CallerKeepsSlots(c: Setup, a: CallerAct, s: Pool, t: Pool)
    requires OrderOk(c, s) && RepliesOk(s) && SlotsOk(s) && CallerStep(c, a, s, t)
    ensures SlotsOk(t)
  {
  }

  /** Accepting a job adds a caller to count, except in the executor, which counts nothing. */
  lemma AcceptCounts(c: Setup, s: Pool, job: Job)
    ensures
      var t := Accept(c, s, job);
      Total(t.callers, BetweenSendAndCount) ==
      Total(s.callers, BetweenSendAndCount) + if c.backend == Executor then 0 else 1
  {
    TotalAppend(s.callers, if c.backend == Executor then Awaiting else Counting, BetweenSendAndCount);
  }

  lemma HandOverKeepsCounts(c: Setup, w: nat, language: string, code: string, s: Pool, t: Pool)
    requires CountsOk(c, s) && CallerStep(c, HandOver(w, language, code), s, t)
    ensures CountsOk(c, t)
  {
    AcceptCounts(c, s, Job(|s.accepted|, language, code));
    WorkerMoves(s, t, w, t.workers[w]);
  }

  lemma CallerKeepsCounts(c: Setup, a: CallerAct, s: Pool, t: Pool)
    requires CountsOk(c, s) && CallerStep(c, a, s, t)
    ensures CountsOk(c, t)
  {
    match a {
      case Submit(language, code) => AcceptCounts(c, s, Job(|s.accepted|, language, code));
      case HandOver(w, language, code) => HandOverKeepsCounts(c, w, language, code, s, t);
      case Reject(_, _) =>
      case Count(i) => TotalUpdate(s.callers, i, Awaiting, BetweenSendAndCount);
      case Receive(i) => TotalUpdate(s.callers, i, t.callers[i], BetweenSendAndCount);
    }
  }

  // The steps of the workers.

  lemma WorkerKeepsOrder(c: Setup, w: nat, a: WorkerAct, s: Pool, t: Pool)
    requires OrderOk(c, s) && WorkerStep(c, w, a, s, t)
    ensures OrderOk(c, t)
  {
    if a.Take? {
      assert s.queue == [s.queue[0]] + s.queue[1..];
    }
  }

  lemma WorkerKeepsParked(c: Setup, w: nat, a: WorkerAct, s: Pool, t: Pool)
    requires ParkOk(s) && WorkerStep(c, w, a, s, t)
    ensures ParkOk(t)
  {
    if !a.Park? {
      assert forall v :: 0 <= v < |t.workers| && t.workers[v] == Parked ==> s.workers[v] == Parked;
    }
  }

  lemma QuietWorkerStep(c: Setup, w: nat, a: WorkerAct, s: Pool, t: Pool)
    requires HandsOk(s) && RepliesOk(s) && WorkerStep(c, w, a, s, t) && !a.Take? && !a.Reply?
    ensures HandsOk(t) && RepliesOk(t)
  {
    assert t.workers == s.workers[w := t.workers[w]] && t.workers[w].Hand() == s.workers[w].Hand();
    QuietStep(s, t);
  }

  lemma WorkerKeepsHands(c: Setup, w: nat, a: WorkerAct, s: Pool, t: Pool)
    requires OrderOk(c, s) && HandsOk(s) && RepliesOk(s) && WorkerStep(c, w, a, s, t)
    ensures HandsOk(t) && RepliesOk(t)
  {
    match a {
      case Take =>
        assert s.accepted[|s.started|] == s.queue[0];
        JobStarts(s, t, w, s.queue[0], t.workers[w]);
      case Reply => JobAnswered(s, t, w);
      case _ => QuietWorkerStep(c, w, a, s, t);
    }
  }

  /** A job is run once, so that a new output replaces none. */
  lemma FinishKeepsResults(c: Setup, w: nat, output: string, s: Pool, t: Pool)
    requires OrderOk(c, s) && HandsOk(s) && RunsOk(s) && ResultsOk(s) && WorkerStep(c, w, Finish(output), s, t)
    ensures ResultsOk(t)
  {
    var job := s.workers[w].job;
    assert Holds(s, w, job.id) && s.accepted[job.id] == job;
    assert forall i, r :: Own(s, i, r) ==> Own(t, i, r);
    assert Own(t, job.id, t.workers[w].result);
  }

  lemma ReplyKeepsResults(c: Setup, w: nat, s: Pool, t: Pool)
    requires ResultsOk(s) && WorkerStep(c, w, WorkerAct.Reply, s, t)
    ensures ResultsOk(t)
  {
    assert forall i, r :: Own(s, i, r) <==> Own(t, i, r);
  }

  /** A worker that goes to phase `q` without having made the result itself has it from before. */
  lemma ResultsKept(s: Pool, t: Pool, w: nat, q: Phase)
    requires ResultsOk(s) && w < |s.workers| && t.workers == s.workers[w := q] && !q.Releasing?
    requires q.Replying? ==> s.workers[w] == Releasing(q.job, q.result)
    requires t.outputs == s.outputs && t.accepted == s.accepted && t.slots == s.slots && t.callers == s.callers
    ensures ResultsOk(t)
  {
    assert forall i, r :: Own(s, i, r) <==> Own(t, i, r);
  }

  lemma OtherStepsKeepResults(c: Setup, w: nat, a: WorkerAct, s: Pool, t: Pool)
    requires ResultsOk(s) && WorkerStep(c, w, a, s, t) && !a.Finish? && !a.Reply?
    ensures ResultsOk(t)
  {
    ResultsKept(s, t, w, t.workers[w]);
  }

  lemma WorkerKeepsResults(c: Setup, w: nat, a: WorkerAct, s: Pool, t: Pool)
    requires OrderOk(c, s) && HandsOk(s) && RunsOk(s) && ResultsOk(s) && WorkerStep(c, w, a, s, t)
    ensures ResultsOk(t)
  {
    if a.Finish? {
      FinishKeepsResults(c, w, a.output, s, t);
    } else if a.Reply? {
      ReplyKeepsResults(c, w, s, t);
    } else {
      OtherStepsKeepResults(c, w, a, s, t);
    }
  }

  lemma FinishKeepsRuns(c: Setup, w: nat, output: string, s: Pool, t: Pool)
    requires HandsOk(s) && RunsOk(s) && WorkerStep(c, w, Finish(output), s, t)
    ensures RunsOk(t)
  {
    var id := s.workers[w].job.id;
    assert Holds(s, w, id);
    forall v | 0 <= v < |t.workers| && (t.workers[v].Acquiring? || t.workers[v].Running?)
      ensures t.workers[v].job.id !in t.outputs
    {
      assert v != w && Holds(s, v, t.workers[v].job.id);
    }
  }

  lemma WorkerKeepsRuns(c: Setup, w: nat, a: WorkerAct, s: Pool, t: Pool)
    requires OrderOk(c, s) && HandsOk(s) && RunsOk(s) && WorkerStep(c, w, a, s, t)
    ensures RunsOk(t)
  {
    if a.Finish? {
      FinishKeepsRuns(c, w, a.output, s, t);
    } else if a.Take? {
      assert s.accepted[|s.started|] == s.queue[0];
    }
  }

  lemma WorkerKeepsSlots(c: Setup, w: nat, a: WorkerAct, s: Pool, t: Pool)
    requires OrderOk(c, s) && HandsOk(s) && SlotsOk(s) && WorkerStep(c, w, a, s, t)
    ensures SlotsOk(t)
  {
    if a.Reply? {
      assert Holds(s, w, s.workers[w].job.id);
    }
  }

  /** How the hands and the tokens in use change when one worker goes from phase `p` to phase `q`. */
  lemma WorkerMoves(s: Pool, t: Pool, w: nat, q: Phase)
    requires w < |s.workers| && t.workers == s.workers[w := q]
    ensures Total(t.workers, Busy) == Total(s.workers, Busy) + Busy(q) - Busy(s.workers[w])
    ensures Total(t.workers, Warm) == Total(s.workers, Warm) + Warm(q) - Warm(s.workers[w])
  {
    TotalUpdate(s.workers, w, q, Busy);
    TotalUpdate(s.workers, w, q, Warm);
  }

  /** What one step of a worker adds to the record is what it adds to or takes from the hands. */
  lemma WorkerStepCounts(c: Setup, w: nat, a: WorkerAct, s: Pool, t: Pool)
    requires WorkerStep(c, w, a, s, t)
    requires c.backend != Firecracker ==> !s.workers[w].Acquiring? && !s.workers[w].Releasing?
    ensures
      var p, q := s.workers[w], t.workers[w];
      && t.workers == s.workers[w := q]
      && |t.replies| + Busy(q) - |t.started| == |s.replies| + Busy(p) - |s.started|
      && t.warm - s.warm == if c.backend == Firecracker then Warm(q) - Warm(p) else 0
    ensures t.totalExecuted == s.totalExecuted && t.callers == s.callers && t.accepted == s.accepted
  {
  }

  lemma WorkerKeepsCounts(c: Setup, w: nat, a: WorkerAct, s: Pool, t: Pool)
    requires CountsOk(c, s) && StopsOk(c, s) && WorkerStep(c, w, a, s, t)
    ensures CountsOk(c, t)
  {
    WorkerStepCounts(c, w, a, s, t);
    WorkerMoves(s, t, w, t.workers[w]);
  }

  lemma CallerKeepsStops(c: Setup, a: CallerAct, s: Pool, t: Pool)
    requires StopsOk(c, s) && CallerStep(c, a, s, t)
    ensures StopsOk(c, t)
  {
  }

  lemma WorkerKeepsStops(c: Setup, w: nat, a: WorkerAct, s: Pool, t: Pool)
    requires StopsOk(c, s) && WorkerStep(c, w, a, s, t)
    ensures StopsOk(c, t)
  {
  }

  lemma CallerKeeps(c: Setup, a: CallerAct, s: Pool, t: Pool)
    requires Inv(c, s) && CallerStep(c, a, s, t)
    ensures Inv(c, t)
  {
    CallerKeepsOrder(c, a, s, t);
    CallerKeepsParked(c, a, s, t);
    CallerKeepsHands(c, a, s, t);
    CallerKeepsResults(c, a, s, t);
    CallerKeepsRuns(c, a, s, t);
    CallerKeepsSlots(c, a, s, t);
    CallerKeepsCounts(c, a, s, t);
    CallerKeepsStops(c, a, s, t);
  }

  lemma WorkerKeeps(c: Setup, w: nat, a: WorkerAct, s: Pool, t: Pool)
    requires Inv(c, s) && WorkerStep(c, w, a, s, t)
    ensures Inv(c, t)
  {
    WorkerKeepsOrder(c, w, a, s, t);
    WorkerKeepsParked(c, w, a, s, t);
    WorkerKeepsHands(c, w, a, s, t);
    WorkerKeepsResults(c, w, a, s, t);
    WorkerKeepsRuns(c, w, a, s, t);
    WorkerKeepsSlots(c, w, a, s, t);
    WorkerKeepsCounts(c, w, a, s, t);
    WorkerKeepsStops(c, w, a, s, t);
  }

  lemma CloserKeeps(c: Setup, a: CloserAct, s: Pool, t: Pool)
    requires Inv(c, s) && CloserStep(c, a, s, t)
    ensures Inv(c, t)
  {
    QuietStep(s, t);
    assert forall i, r :: Own(s, i, r) <==> Own(t, i, r);
  }

  lemma StepKeeps(c: Setup, a: Action, s: Pool, t: Pool)
    requires Inv(c, s) && Step(c, a, s, t)
    ensures Inv(c, t)
  {
    match a {
      case Caller(b) => CallerKeeps(c, b, s, t);
      case Worker(w, b) => WorkerKeeps(c, w, b, s, t);
      case Closer(b) => CloserKeeps(c, b, s, t);
    }
  }
}
