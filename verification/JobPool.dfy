/**
 The pool objects: `DockerPool`, `FirecrackerPool` and the queue half of `WorkerPool`.

 The fields are updated in place, one atomic section per method. `Valid` is the invariant of
 JobInvariants on the current state, and each method is one step of JobQueue.
 */
module JobPools {
  import opened Options
  import opened JobQueue
  import opened JobInvariants
  import opened JobTheorems

  class JobPool {
    const setup: Setup
    var jobs: seq<Job>
    var phases: seq<Phase>
    var warmSem: nat
    var shutdown: bool
    var jobsClosed: bool
    var totalExecuted: nat
    var slots: seq<Option<Result>>
    var callers: seq<Caller>
    ghost var waited: bool
    ghost var accepted: seq<Job>
    ghost var started: seq<Job>
    ghost var outputs: map<nat, string>
    ghost var replies: multiset<nat>

    ghost function View(): Pool
      reads this
    {
      Pool(jobs, phases, warmSem, shutdown, jobsClosed, waited, totalExecuted, slots, callers,
           accepted, started, outputs, replies)
    }

    ghost predicate Valid()
      reads this
    {
      Inv(setup, View())
    }

    /** `NewPool` and the start of the workers. */
    constructor (setup: Setup)
      ensures Valid() && this.setup == setup && Initial(setup, View())
    {
      this.setup := setup;
      jobs, slots, callers, accepted, started := [], [], [], [], [];
      phases := seq(setup.workers, _ => Idle);
      warmSem, totalExecuted, outputs, replies := 0, 0, map[], multiset{};
      shutdown, jobsClosed, waited := false, false, false;
      new;
      InitialInv(setup, View());
    }

    /** Looking for a worker that waits for a job. */
    method FindReceiver() returns (w: Option<nat>)
      ensures w.Some? ==> !shutdown && w.value < |phases| && phases[w.value] == Parked
      ensures w.None? ==> !Receiving(View())
    {
      if shutdown {
        return None;
      }
      for v := 0 to |phases|
        invariant forall u :: 0 <= u < v ==> phases[u] != Parked
      {
        if phases[v] == Parked {
          return Some(v);
        }
      }
      return None;
    }

    /** What accepting a job does besides handing it on: its reply channel and its caller. */
    method Accept(language: string, code: string) returns (job: Job)
      requires |slots| == |accepted|
      modifies this`slots, this`callers, this`accepted
      ensures job == Job(|old(accepted)|, language, code) && View() == JobQueue.Accept(setup, old(View()), job)
    {
      job := Job(|slots|, language, code);
      slots := slots + [None];
      callers := callers + [if setup.backend == Executor then Awaiting else Counting];
      accepted := accepted + [job];
    }

    /** The `select` of `ExecuteJob`: hand the job to a waiting worker, or queue it if there is room, or
        give up at once. */
    method Submit(language: string, code: string) returns (id: Option<nat>)
      requires Valid() && !jobsClosed
      modifies this
      ensures Valid()
      ensures id.Some? ==> id.value == |old(accepted)| && id.value < |accepted| == |callers|
      ensures id.Some? ==> accepted == old(accepted) + [Job(id.value, language, code)]
      ensures id.Some? && old(Receiving(View())) ==>
                jobs == [] && exists w: nat :: CallerStep(setup, HandOver(w, language, code), old(View()), View())
      ensures id.Some? && !old(Receiving(View())) ==>
                CallerStep(setup, CallerAct.Submit(language, code), old(View()), View())
      ensures id.None? <==> !old(Receiving(View())) && |old(jobs)| == setup.capacity
      ensures id.None? ==> View() == old(View())
    {
      ghost var before := View();
      var w := FindReceiver();
      if w.Some? {
        assert Receiving(before);
        var job := Accept(language, code);
        phases := phases[w.value := Begin(setup, job)];
        started := started + [job];
        StepKeeps(setup, Caller(HandOver(w.value, language, code)), before, View());
        return Some(job.id);
      }
      if |jobs| >= setup.capacity {
        return None;
      }
      var job := Accept(language, code);
      jobs := jobs + [job];
      StepKeeps(setup, Caller(CallerAct.Submit(language, code)), before, View());
      return Some(job.id);
    }

    /** The atomic increment after the send. */
    method CountExecuted(id: nat)
      requires Valid() && id < |callers| && callers[id] == Counting
      modifies this`totalExecuted, this`callers
      ensures Valid() && totalExecuted == old(totalExecuted) + 1 && callers == old(callers)[id := Awaiting]
    {
      ghost var before := View();
      totalExecuted := totalExecuted + 1;
      callers := callers[id := Awaiting];
      StepKeeps(setup, Caller(Count(id)), before, View());
    }

    /** Receiving from the reply channel: nothing as long as the job is unanswered, and otherwise the
        answer to the caller's own job. */
    method Await(id: nat) returns (r: Option<Result>)
      requires Valid() && id < |callers| && callers[id] == Awaiting
      modifies this`slots, this`callers
      ensures Valid() && id < |accepted| && (r.Some? <==> replies[id] == 1)
      ensures r.None? ==> slots == old(slots) && callers == old(callers)
      ensures r.Some? ==> Own(View(), id, r.value) && old(slots)[id] == r
      ensures r.Some? ==> slots == old(slots)[id := None] && callers == old(callers)[id := Returned(r.value)]
    {
      ghost var before := View();
      r := slots[id];
      if r.Some? {
        slots := slots[id := None];
        callers := callers[id := Returned(r.value)];
        StepKeeps(setup, Caller(Receive(id)), before, View());
      }
    }

    /** Steps of other threads while worker `w` has a job; what it may rely on is what
        `OthersLeaveABusyWorkerAlone` shows of each of them. */
    method Interfere(w: nat)
      requires Valid() && w < |phases| && phases[w].Hand().Some?
      modifies this
      ensures Valid() && Relied(old(View()), View(), w)
    {
    }

    method Take(w: nat) returns (job: Job)
      requires Valid() && w < |phases| && phases[w] == Idle && jobs != []
      modifies this`jobs, this`phases, this`started
      ensures Valid() && WorkerStep(setup, w, WorkerAct.Take, old(View()), View())
      ensures job == accepted[|old(started)|] && phases[w] == Begin(setup, job)
    {
      ghost var before := View();
      job := jobs[0];
      jobs := jobs[1..];
      phases := phases[w := Begin(setup, job)];
      started := started + [job];
      StepKeeps(setup, Worker(w, WorkerAct.Take), before, View());
    }

    /** Sending on `warmSem`: there is always room. */
    method Acquire(w: nat)
      requires Valid() && w < |phases| && phases[w].Acquiring?
      modifies this`warmSem, this`phases
      ensures Valid() && WorkerStep(setup, w, WorkerAct.Acquire, old(View()), View())
    {
      ghost var before := View();
      AcquireNeverBlocks(setup, before, w);
      warmSem := warmSem + 1;
      phases := phases[w := Running(phases[w].job)];
      StepKeeps(setup, Worker(w, WorkerAct.Acquire), before, View());
    }

    function ResultOf(job: Job, output: string): Result {
      Result(job.language, job.code, output)
    }

    /** `executeCode`, ending in whatever way it does. What it puts out becomes the job's result. */
    method Execute(w: nat) returns (output: string)
      requires Valid() && w < |phases| && phases[w].Running?
      modifies this`phases, this`outputs
      ensures Valid() && WorkerStep(setup, w, Finish(output), old(View()), View())
      ensures phases[w].Releasing? || phases[w].Replying?
      ensures phases[w].job == old(phases[w]).job && phases[w].result == ResultOf(phases[w].job, output)
    {
      ghost var before := View();
      output := *;
      var job := phases[w].job;
      var result := Result(job.language, job.code, output);
      phases := phases[w := if setup.backend == Firecracker then Releasing(job, result) else Replying(job, result)];
      outputs := outputs[job.id := output];
      StepKeeps(setup, Worker(w, Finish(output)), before, View());
    }

    /** Receiving from `warmSem`: it is never empty. */
    method Release(w: nat)
      requires Valid() && w < |phases| && phases[w].Releasing?
      modifies this`warmSem, this`phases
      ensures Valid() && WorkerStep(setup, w, WorkerAct.Release, old(View()), View())
      ensures phases[w] == Replying(old(phases[w]).job, old(phases[w]).result)
    {
      ghost var before := View();
      AcquireNeverBlocks(setup, before, w);
      warmSem := warmSem - 1;
      phases := phases[w := Replying(phases[w].job, phases[w].result)];
      StepKeeps(setup, Worker(w, WorkerAct.Release), before, View());
    }

    /** Sending the result: the one slot of the reply channel is free. */
    method Reply(w: nat)
      requires Valid() && w < |phases| && phases[w].Replying?
      modifies this`slots, this`phases, this`replies
      ensures Valid() && WorkerStep(setup, w, WorkerAct.Reply, old(View()), View())
      ensures phases[w] == Idle && replies[old(phases[w].job.id)] == 1
      ensures old(phases[w]).job.id < |slots| && slots[old(phases[w]).job.id] == Some(old(phases[w]).result)
    {
      ghost var before := View();
      var id := phases[w].job.id;
      assert Holds(before, w, id);
      slots := slots[id := Some(phases[w].result)];
      phases := phases[w := Idle];
      replies := replies + multiset{id};
      StepKeeps(setup, Worker(w, WorkerAct.Reply), before, View());
    }

    /** From receiving a job to running it, other threads running between the sections. */
    method Prepare(w: nat, ghost job: Job)
      requires Valid() && w < |phases| && phases[w] == Begin(setup, job)
      modifies this
      ensures Valid() && w < |phases| && phases[w] == Running(job)
    {
      if setup.backend == Firecracker {
        Acquire(w);
        Interfere(w);
      }
    }

    /** From running a job to answering it. */
    method Conclude(w: nat, ghost job: Job) returns (output: string)
      requires Valid() && w < |phases| && phases[w] == Running(job)
      modifies this
      ensures Valid() && w < |phases| && phases[w] == Replying(job, ResultOf(job, output))
    {
      output := Execute(w);
      Interfere(w);
      GiveBack(w);
    }

    /** Giving the semaphore back, if the job took it. */
    method GiveBack(w: nat)
      requires Valid() && w < |phases| && (phases[w].Releasing? || phases[w].Replying?)
      modifies this
      ensures Valid() && w < |phases| && phases[w] == Replying(old(phases[w]).job, old(phases[w]).result)
    {
      if phases[w].Releasing? {
        Release(w);
        Interfere(w);
      }
    }

    /** Job `job` has been answered once, and the answer with this output lies in its reply channel. */
    ghost predicate Answered(job: Job, output: string)
      reads this
    {
      job.id < |slots| && slots[job.id] == Some(ResultOf(job, output)) && replies[job.id] == 1
    }

    /** Serving a job that has been received or handed over, up to its one answer: `output` is what running
        it put out. */
    method Serve(w: nat, ghost job: Job) returns (output: string)
      requires Valid() && w < |phases| && phases[w] == Begin(setup, job)
      modifies this
      ensures Valid() && w < |phases| && phases[w] == Idle && Answered(job, output)
    {
      Prepare(w, job);
      output := Conclude(w, job);
      Reply(w);
    }

    method TakeAndServe(w: nat) returns (ghost job: Job, output: string)
      requires Valid() && w < |phases| && phases[w] == Idle && jobs != []
      modifies this
      ensures Valid() && w < |phases| && phases[w] == Idle && Answered(job, output)
      ensures |old(started)| < |old(accepted)| && job == old(accepted)[|old(started)|]
    {
      job := Take(w);
      Interfere(w);
      output := Serve(w, job);
    }

    /** One turn of the worker loop: the worker serves the job that has waited longest and answers it
        once, or stops, or has to wait. It may stop only after shutdown has begun, and it waits only
        while nothing is queued and shutdown has not begun. */
    method Turn(w: nat) returns (ghost served: Option<Job>, output: string)
      requires Valid() && w < |phases| && (phases[w] == Idle || phases[w] == Parked)
      modifies this
      ensures Valid() && w < |phases|
      ensures served.None? ==> started == old(started) && jobs == old(jobs) && shutdown == old(shutdown)
      ensures served.None? ==> if shutdown then phases[w] == Stopped else phases[w] == Parked && jobs == []
      ensures served.Some? ==> |old(started)| < |old(accepted)| && served.value == old(accepted)[|old(started)|]
      ensures served.Some? ==> phases[w] == Idle && Answered(served.value, output)
    {
      if !shutdown && phases[w] == Parked {
        assert Receiving(View());
        return None, "";
      }
      var preferJob: bool := *;
      if shutdown && (phases[w] == Parked || jobs == [] || !preferJob) {
        StopWorker(w);
        return None, "";
      }
      if jobs == [] {
        ParkWorker(w);
        return None, "";
      }
      ghost var job;
      job, output := TakeAndServe(w);
      served := Some(job);
    }

    method StopWorker(w: nat)
      requires Valid() && w < |phases| && (phases[w] == Idle || phases[w] == Parked) && shutdown
      modifies this`phases
      ensures Valid() && WorkerStep(setup, w, Stop, old(View()), View())
    {
      ghost var before := View();
      phases := phases[w := Stopped];
      StepKeeps(setup, Worker(w, Stop), before, View());
    }

    method ParkWorker(w: nat)
      requires Valid() && w < |phases| && phases[w] == Idle && jobs == [] && !shutdown
      modifies this`phases
      ensures Valid() && WorkerStep(setup, w, Park, old(View()), View())
    {
      ghost var before := View();
      phases := phases[w := Parked];
      StepKeeps(setup, Worker(w, Park), before, View());
    }

    /** `Shutdown` closes the channel; `wg.Wait` then returns when every worker has stopped. */
    method CloseShutdown()
      requires Valid() && !shutdown
      modifies this`shutdown
      ensures Valid() && shutdown
    {
      ghost var before := View();
      shutdown := true;
      StepKeeps(setup, Closer(Close), before, View());
    }

    /** The executor's `Shutdown` then closes the job channel. */
    method CloseJobChannel()
      requires Valid() && setup.backend == Executor && shutdown && !jobsClosed
      modifies this`jobsClosed
      ensures Valid() && jobsClosed
    {
      ghost var before := View();
      jobsClosed := true;
      StepKeeps(setup, Closer(CloseJobs), before, View());
    }

    method Stats() returns (active: nat, queued: nat, total: nat)
      requires Valid()
      ensures active == setup.workers && queued == |accepted| - |started|
      ensures setup.backend != Executor ==> |accepted| - total == Total(callers, BetweenSendAndCount)
    {
      return |phases|, |jobs|, totalExecuted;
    }
  }
}
