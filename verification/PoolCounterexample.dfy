/** A run that shows what the container pool does not promise. */
module PoolCounterexample {
  import opened Options
  import opened PoolProtocol

  ghost predicate CanReach(max: int, s: Pool) {
    exists run :: Behaviour(max, run) && run[|run| - 1] == s
  }

  lemma Begins(max: int, s: Pool)
    requires Initial(max, s)
    ensures CanReach(max, s)
  {
    assert Behaviour(max, [s]);
  }

  lemma Goes(max: int, s: Pool, a: Action, t: Pool)
    requires CanReach(max, s) && Step(max, a, s, t)
    ensures CanReach(max, t)
  {
    var run :| Behaviour(max, run) && run[|run| - 1] == s;
    var more := run + [t];
    forall i | 0 < i < |more| ensures StepAt(max, more, i) {
      if i < |run| {
        assert StepAt(max, run, i);
      }
    }
    assert Behaviour(max, more);
  }

  lemma WorkerGoes(s: Pool, a: WorkerAct, t: Pool)
    requires CanReach(1, s) && WorkerStep(0, a, s, t)
    ensures CanReach(1, t)
  {
    Goes(1, s, Worker(0, a), t);
  }

  lemma HelperGoes(s: Pool, a: HelperAct, t: Pool)
    requires CanReach(1, s) && HelperStep(0, a, s, t)
    ensures CanReach(1, t)
  {
    Goes(1, s, Helper(0, a), t);
  }

  /** One container, one worker, pool just started. */
  lemma OneWorkerStarts() returns (s: Pool)
    ensures CanReach(1, s) && s.started && s.keeper == Ticking && s.closer == Open
    ensures s.containers == map[0 := Idle] && s.live == {0} && s.workers == [Waiting] && s.helpers == map[]
  {
    s := Pool(map[], {0}, {0}, {}, {}, {}, false, Listing, [Waiting], map[], Open, 0);
    Begins(1, s);
    var t := s.(keeper := Adopting(map[0 := Idle]));
    Goes(1, s, Setup(ListInit(map[0 := Idle])), t);
    s := t;
    t := s.(containers := s.containers[0 := Idle], owned := s.owned + {0}, registered := s.registered + {0},
            keeper := Adopting(s.keeper.found - {0}));
    Goes(1, s, Setup(Adopt(0)), t);
    s := t;
    t := s.(keeper := Measuring);
    Goes(1, s, Setup(Adopted), t);
    s := t;
    assert s.containers.Keys == {0};
    t := s.(keeper := Settling);
    Goes(1, s, Setup(Measure({})), t);
    s := t;
    t := s.(keeper := Ticking, started := true);
    Goes(1, s, Setup(Settle), t);
    s := t;
  }

  ghost predicate Ready(s: Pool) {
    CanReach(1, s) && s.started && s.keeper == Ticking && s.closer == Open && |s.workers| == 1
  }

  /** The worker takes a job and is given the container. */
  lemma JobStarts(s: Pool) returns (t: Pool)
    requires Ready(s) && s.containers == map[0 := Idle] && s.workers == [Waiting]
    ensures Ready(t) && t == s.(containers := map[0 := Busy], workers := [Assigned(0)])
  {
    var asking := s.(workers := [Requesting([])]);
    WorkerGoes(s, Take, asking);
    assert 0 in asking.With(Idle);
    t := s.(containers := map[0 := Busy], workers := [Assigned(0)]);
    WorkerGoes(asking, Hit(0), t);
  }

  /** The job runs with a helper watching it. */
  lemma JobRuns(s: Pool) returns (t: Pool)
    requires Ready(s) && s.containers == map[0 := Busy] && s.workers == [Assigned(0)] && s.helpers == map[]
    ensures Ready(t) && t == s.(workers := [Executing(0)], helpers := map[0 := Watching(0)])
  {
    var marked := s.(workers := [Marked(0)]);
    assert s.SetState(0, Busy) == s;
    WorkerGoes(s, SetBusy, marked);
    t := s.(workers := [Executing(0)], helpers := map[0 := Watching(0)]);
    WorkerGoes(marked, Run(Some(0)), t);
  }

  /** The worker is free again. The helper remains. */
  lemma JobEnds(s: Pool) returns (t: Pool)
    requires Ready(s) && s.containers == map[0 := Busy] && s.workers == [Executing(0)]
    ensures Ready(t) && t == s.(containers := map[0 := Idle], workers := [Waiting])
  {
    var done := s.(containers := map[0 := Idle], workers := [Replying([])]);
    WorkerGoes(s, SetIdle, done);
    t := s.(containers := map[0 := Idle], workers := [Waiting]);
    WorkerGoes(done, WorkerAct.Reply, t);
  }

  /** The helper removes the container. */
  lemma HelperStrikes(s: Pool) returns (t: Pool)
    requires Ready(s) && s.helpers == map[0 := Watching(0)]
    ensures CanReach(1, t)
    ensures t == s.(containers := s.containers - {0}, live := s.live - {0}, helpers := map[])
  {
    var removing := s.(helpers := map[0 := Removing(0)]);
    HelperGoes(s, Outsurge, removing);
    var deleting := s.(live := s.live - {0}, helpers := map[0 := Deleting(0)]);
    HelperGoes(removing, RemoveIt(true), deleting);
    t := s.(containers := s.containers - {0}, live := s.live - {0}, helpers := map[]);
    assert deleting.helpers - {0} == map[];
    HelperGoes(deleting, DeleteIt, t);
  }

  /** A container is not safe from removal while a job has it. In this reachable state worker 0 has
      just been given container 0, so no helper watches it on this job's behalf; and it is gone, from
      the map and from Docker alike, removed by the helper of the job before. */
  lemma HeldContainerCanVanish() returns (s: Pool)
    ensures CanReach(1, s)
    ensures s.workers == [Assigned(0)] && 0 !in s.containers && 0 !in s.live && s.helpers == map[]
  {
    s := OneWorkerStarts();
    s := JobStarts(s);
    s := JobRuns(s);
    s := JobEnds(s);
    s := JobStarts(s);
    s := HelperStrikes(s);
  }
}
