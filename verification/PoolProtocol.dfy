/**
 The container pool of executor/container_manager.go with the workers of executor/worker_pool.go,
 as a transition system.

 One step is one section under the manager's lock, one call to the Docker daemon, or one unlocked
 access to the container map. The threads are the keeper, which runs `InitializePool` and then
 `MonitorContainers`; one worker per slot; the helpers started by `executeCode`, which watch a
 container and may remove it; and the caller of `Shutdown`. They interleave freely. Single map
 accesses are taken to be atomic, although Go promises this only under the lock, and the two lookups
 of one scanned container (lines 322 and 323) are one step.

 `used`, `owned`, `registered`, `stuck` and `checks` are history: the code does not store them.
 */
module PoolProtocol {
  import opened Options

  type Id = nat

  datatype State = Idle | Busy | Error

  /** Where a call of `StartContainer` stands. */
  datatype StartPc = Check | Create | Launch(id: Id) | Abort(id: Id) | Register(id: Id)

  datatype KeeperPc =
    | Listing                                        // InitializePool, before the first list
    | Adopting(found: map<Id, State>)                // registering what was listed
    | Measuring                                      // comparing the count with maxWorkers
    | Settling                                       // the final check of InitializePool
    | Failed                                         // InitializePool returned an error
    | Ticking                                        // the monitor, between two health checks
    | Scanning(todo: set<Id>, running: set<Id>)      // checkHealth, over the listed containers
    | Repairing(drop: set<Id>, gone: Option<Id>, kept: int, running: set<Id>)
    | Trimming(drop: set<Id>, gone: Option<Id>)      // removeExcessContainers, lock held
    | Refilling(left: nat, at: StartPc)              // `left` calls of StartContainer to finish
  {
    /** The container made by the current `StartContainer` and not yet registered or given up. */
    function InFlight(): set<Id> {
      if Refilling? && (at.Launch? || at.Abort? || at.Register?) then {at.id} else {}
    }

    /** The container already removed from Docker by this thread, whose map entry is next to go. */
    function Gone(): set<Id> {
      if (Repairing? || Trimming?) && gone.Some? then {gone.value} else {}
    }

    function Dropping(): set<Id> {
      if Repairing? || Trimming? then drop else {}
    }
  }

  /** `misses` counts the usable containers at each failed scan of the current request. */
  datatype WorkerPc =
    | Waiting
    | Requesting(misses: seq<nat>)
    | Assigned(id: Id)     // marked Busy by GetAvailableContainer
    | Marked(id: Id)       // marked Busy again by executeJob
    | Executing(id: Id)
    | Replying(misses: seq<nat>)
    | Stopped
  {
    function Hand(): Option<Id> {
      if Assigned? || Marked? || Executing? then Some(id) else None
    }
  }

  datatype HelperPc = Watching(id: Id) | Removing(id: Id) | Deleting(id: Id)

  datatype CloserPc = Open | Signalled | Clearing(todo: set<Id>) | Closed

  datatype Pool = Pool(
    containers: map<Id, State>,
    live: set<Id>,          // containers of the worker image that Docker has
    used: set<Id>,          // every id Docker has handed out
    owned: set<Id>,         // containers the manager created or adopted
    registered: set<Id>,    // every id that was ever in the map
    stuck: set<Id>,         // containers for which a remove call failed
    started: bool,          // InitializePool succeeded: monitor and workers run
    keeper: KeeperPc,
    workers: seq<WorkerPc>,
    helpers: map<nat, HelperPc>,
    closer: CloserPc,
    checks: nat             // health checks that got past listing and finished their removals
  ) {
    predicate Locked() {
      keeper.Trimming? || closer.Clearing?
    }

    function With(state: State): set<Id> {
      set id | id in containers && containers[id] == state
    }

    /** The registered containers not in the Error state. */
    function Usable(): set<Id> {
      set id | id in containers && containers[id] != Error
    }

    /** A Docker remove call on `id`, which may fail. */
    function DockerRemove(id: Id, ok: bool): Pool {
      if ok then this.(live := live - {id}) else this.(stuck := stuck + {id})
    }

    /** `delete(cm.containers, id)`. */
    function Delete(id: Id): Pool {
      this.(containers := containers - {id})
    }

    /** `SetContainerState`. */
    function SetState(id: Id, state: State): Pool {
      if id in containers then this.(containers := containers[id := state]) else this
    }
  }

  datatype SetupAct =
    | ListFails | ListInit(found: map<Id, State>) | Adopt(id: Id) | Adopted | Measure(drop: set<Id>) | Settle

  datatype CheckAct = List | Scan(id: Id) | Mark | Repaired(drop: set<Id>)

  datatype DropAct = Remove(id: Id, ok: bool) | Drop | Trimmed

  datatype StartAct =
    | CheckRoom | CreateFails | CreateOk(id: Id) | LaunchFails | LaunchOk | GiveUp(ok: bool) | Enter | Refilled

  datatype WorkerAct =
    | Take | Hit(id: Id) | Miss | SetBusy | Run(helper: Option<nat>) | SetIdle | Reply | Stop

  datatype HelperAct = Outsurge | Over | RemoveIt(ok: bool) | DeleteIt

  datatype CloserAct = Signal | Lock | Clear(id: Id, ok: bool) | Skip(id: Id) | Reset

  datatype Action =
    | Setup(i: SetupAct)
    | Check(m: CheckAct)
    | Removal(d: DropAct)
    | Start(r: StartAct)
    | Worker(w: nat, a: WorkerAct)
    | Helper(t: nat, h: HelperAct)
    | Closer(c: CloserAct)
    | Vanish(id: Id)        // Docker loses a container for reasons of its own
    | Appear(id: Id)        // someone else starts a container of the same image

  ghost predicate Initial(max: int, s: Pool) {
    && s.containers == map[] && s.owned == s.registered == s.stuck == {} && s.live <= s.used
    && !s.started && s.keeper == Listing && s.helpers == map[] && s.closer == Open && s.checks == 0
    && |s.workers| == (if max < 0 then 0 else max)
    && forall w :: 0 <= w < |s.workers| ==> s.workers[w] == Waiting
  }

  /** The containers `removeExcessContainers(count)` picks: any `count` of them, or all. */
  predicate Picked(s: Pool, drop: set<Id>, count: int) {
    drop <= s.containers.Keys && |drop| == if count < |s.containers.Keys| then count else |s.containers.Keys|
  }

  /** Where the keeper goes when it has finished adjusting the count. */
  function Adjusted(s: Pool): KeeperPc {
    if s.started then Ticking else Settling
  }

  /** `InitializePool`, apart from its removals and starts. */
  predicate SetupStep(max: int, a: SetupAct, s: Pool, t: Pool) {
    var k := s.keeper;
    match a
    case ListFails => k == Listing && t == s.(keeper := Failed)
    case ListInit(found) =>
      && k == Listing && found.Keys == s.live && (forall id :: id in found ==> found[id] != Busy)
      && t == s.(keeper := Adopting(found))
    case Adopt(id) =>
      && k.Adopting? && id in k.found
      && t == s.(containers := s.containers[id := k.found[id]], owned := s.owned + {id},
                 registered := s.registered + {id}, keeper := Adopting(k.found - {id}))
    case Adopted => k.Adopting? && k.found == map[] && t == s.(keeper := Measuring)
    case Measure(drop) =>
      && k == Measuring
      && (if |s.containers.Keys| > max then
            Picked(s, drop, |s.containers.Keys| - max) && t == s.(keeper := Trimming(drop, None))
          else if |s.containers.Keys| < max then t == s.(keeper := Refilling(max - |s.containers.Keys|, StartPc.Check))
          else t == s.(keeper := Settling))
    case Settle =>
      && k == Settling
      && t == if |s.containers.Keys| == 0 then s.(keeper := Failed) else s.(keeper := Ticking, started := true)
  }

  /** `checkHealth`, apart from its removals and starts. */
  predicate CheckStep(max: int, a: CheckAct, s: Pool, t: Pool) {
    var k := s.keeper;
    match a
    case List => k == Ticking && t == s.(keeper := Scanning(s.live, {}))
    case Scan(id) =>
      && k.Scanning? && id in k.todo
      && t == s.(keeper := Scanning(k.todo - {id}, if id in s.Usable() then k.running + {id} else k.running))
    case Mark =>
      && k.Scanning? && k.todo == {} && !s.Locked()
      && var drop := s.containers.Keys - k.running;
         t == s.(keeper := Repairing(drop, None, |s.containers.Keys| - |drop|, k.running))
    case Repaired(drop) =>
      && k.Repairing? && k.drop == {} && k.gone == None
      && (if k.kept < max then t == s.(keeper := Refilling(max - k.kept, StartPc.Check), checks := s.checks + 1)
          else if |k.running| > max then
            && !s.Locked() && Picked(s, drop, |k.running| - max)
            && t == s.(keeper := Trimming(drop, None), checks := s.checks + 1)
          else t == s.(keeper := Ticking, checks := s.checks + 1))
  }

  /** The loops over `RemoveContainer`. */
  predicate DropStep(a: DropAct, s: Pool, t: Pool) {
    var k := s.keeper;
    match a
    case Remove(id, ok) =>
      && id in k.Dropping() && k.Gone() == {}
      && t == s.DockerRemove(id, ok).(keeper := k.(drop := k.drop - {id}, gone := Some(id)))
    case Drop =>
      && (k.Repairing? || k.Trimming?) && k.gone.Some?
      && t == s.Delete(k.gone.value).(keeper := k.(gone := None))
    case Trimmed => k.Trimming? && k.drop == {} && k.gone == None && t == s.(keeper := Adjusted(s))
  }

  /** The loops over `StartContainer`. */
  predicate StartStep(max: int, a: StartAct, s: Pool, t: Pool) {
    var k := s.keeper;
    match a
    case CheckRoom =>
      && k.Refilling? && k.left > 0 && k.at == StartPc.Check && !s.Locked()
      && t == s.(keeper := if |s.containers.Keys| >= max then Refilling(k.left - 1, StartPc.Check)
                           else k.(at := Create))
    case CreateFails =>
      && k.Refilling? && k.left > 0 && k.at == Create
      && t == s.(keeper := Refilling(k.left - 1, StartPc.Check))
    case CreateOk(id) =>
      && k.Refilling? && k.at == Create && id !in s.used
      && t == s.(live := s.live + {id}, used := s.used + {id}, owned := s.owned + {id},
                 keeper := k.(at := StartPc.Launch(id)))
    case LaunchFails => k.Refilling? && k.at.Launch? && t == s.(keeper := k.(at := Abort(k.at.id)))
    case LaunchOk => k.Refilling? && k.at.Launch? && t == s.(keeper := k.(at := Register(k.at.id)))
    case GiveUp(ok) =>
      && k.Refilling? && k.left > 0 && k.at.Abort?
      && t == s.DockerRemove(k.at.id, ok).(keeper := Refilling(k.left - 1, StartPc.Check))
    case Enter =>
      && k.Refilling? && k.left > 0 && k.at.Register? && !s.Locked()
      && t == s.(containers := s.containers[k.at.id := Idle], registered := s.registered + {k.at.id},
                 keeper := Refilling(k.left - 1, StartPc.Check))
    case Refilled => k == Refilling(0, StartPc.Check) && t == s.(keeper := Adjusted(s))
  }

  /** Ten failed scans end a request with the "no available containers" error. */
  const MAX_RETRIES := 10

  predicate WorkerStep(w: nat, a: WorkerAct, s: Pool, t: Pool) {
    && s.started && w < |s.workers|
    && var pc := s.workers[w];
    match a
    case Take => pc == Waiting && t == s.(workers := s.workers[w := Requesting([])])
    case Hit(id) =>
      && pc.Requesting? && !s.Locked() && id in s.With(Idle)
      && t == s.SetState(id, Busy).(workers := s.workers[w := Assigned(id)])
    case Miss =>
      && pc.Requesting? && !s.Locked() && s.With(Idle) == {}
      && var misses := pc.misses + [|s.Usable()|];
         t == s.(workers := s.workers[w := if |misses| < MAX_RETRIES then Requesting(misses) else Replying(misses)])
    case SetBusy =>
      pc.Assigned? && !s.Locked() && t == s.SetState(pc.id, Busy).(workers := s.workers[w := Marked(pc.id)])
    case Run(helper) =>
      && pc.Marked? && (helper.Some? ==> helper.value !in s.helpers)
      && var more := if helper.Some? then s.helpers[helper.value := Watching(pc.id)] else s.helpers;
         t == s.(workers := s.workers[w := Executing(pc.id)], helpers := more)
    case SetIdle =>
      pc.Executing? && !s.Locked() && t == s.SetState(pc.id, Idle).(workers := s.workers[w := Replying([])])
    case Reply => pc.Replying? && t == s.(workers := s.workers[w := Waiting])
    case Stop => pc == Waiting && s.closer != Open && t == s.(workers := s.workers[w := Stopped])
  }

  /** A helper may outlive the job it was started for: nothing stops it from removing the container
      after another worker has been given it. */
  predicate HelperStep(h: nat, a: HelperAct, s: Pool, t: Pool) {
    && h in s.helpers
    && var pc := s.helpers[h];
    match a
    case Outsurge => pc.Watching? && t == s.(helpers := s.helpers[h := Removing(pc.id)])
    case Over => pc.Watching? && t == s.(helpers := s.helpers - {h})
    case RemoveIt(ok) => pc.Removing? && t == s.DockerRemove(pc.id, ok).(helpers := s.helpers[h := Deleting(pc.id)])
    case DeleteIt => pc.Deleting? && t == s.Delete(pc.id).(helpers := s.helpers - {h})
  }

  predicate CloserStep(a: CloserAct, s: Pool, t: Pool) {
    && s.started
    && match a
       case Signal => s.closer == Open && t == s.(closer := Signalled)
       case Lock => s.closer == Signalled && !s.Locked() && t == s.(closer := Clearing(s.containers.Keys))
       case Clear(id, ok) =>
         && s.closer.Clearing? && id in s.closer.todo
         && t == s.DockerRemove(id, ok).(closer := Clearing(s.closer.todo - {id}))
       case Skip(id) =>
         && s.closer.Clearing? && id in s.closer.todo && id !in s.containers
         && t == s.(closer := Clearing(s.closer.todo - {id}))
       case Reset => s.closer == Clearing({}) && t == s.(containers := map[], closer := Closed)
  }

  predicate Step(max: int, a: Action, s: Pool, t: Pool) {
    match a
    case Setup(b) => SetupStep(max, b, s, t)
    case Check(b) => CheckStep(max, b, s, t)
    case Removal(b) => DropStep(b, s, t)
    case Start(b) => StartStep(max, b, s, t)
    case Worker(w, b) => WorkerStep(w, b, s, t)
    case Helper(h, b) => HelperStep(h, b, s, t)
    case Closer(b) => CloserStep(b, s, t)
    case Vanish(id) => t == s.(live := s.live - {id})
    case Appear(id) => id !in s.used && t == s.(live := s.live + {id}, used := s.used + {id})
  }

  ghost predicate Next(max: int, s: Pool, t: Pool) {
    exists a :: Step(max, a, s, t)
  }

  ghost predicate StepAt(max: int, run: seq<Pool>, i: int)
    requires 0 < i < |run|
  {
    Next(max, run[i - 1], run[i])
  }

  /** A finite run of the pool, any interleaving, any Docker failures. */
  ghost predicate Behaviour(max: int, run: seq<Pool>) {
    && run != [] && Initial(max, run[0])
    && forall i :: 0 < i < |run| ==> StepAt(max, run, i)
  }
}
