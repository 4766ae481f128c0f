/** Nobody in the container pool gets stuck, and the monitor alone can always restore the pool. */
module PoolProgress {
  import opened Options
  import opened Counting
  import opened PoolProtocol
  import opened PoolInvariants
  import opened PoolTheorems

  // Every thread can go on.

  ghost predicate WorkerCanStep(w: nat, s: Pool) {
    exists a, t :: WorkerStep(w, a, s, t)
  }

  ghost predicate HelperCanStep(h: nat, s: Pool) {
    exists a, t :: HelperStep(h, a, s, t)
  }

  ghost predicate CloserCanStep(s: Pool) {
    exists a, t :: CloserStep(a, s, t)
  }

  lemma RequestGoesOn(w: nat, s: Pool)
    requires s.started && w < |s.workers| && s.workers[w].Requesting? && !s.Locked()
    ensures WorkerCanStep(w, s)
  {
    if s.With(Idle) == {} {
      var misses := s.workers[w].misses + [|s.Usable()|];
      var next := if |misses| < MAX_RETRIES then Requesting(misses) else Replying(misses);
      assert WorkerStep(w, Miss, s, s.(workers := s.workers[w := next]));
    } else {
      var id :| id in s.With(Idle);
      assert WorkerStep(w, Hit(id), s, s.SetState(id, Busy).(workers := s.workers[w := Assigned(id)]));
    }
  }

  lemma WorkerGoesOn(w: nat, s: Pool)
    requires s.started && w < |s.workers| && s.workers[w] != Stopped && !s.Locked()
    ensures WorkerCanStep(w, s)
  {
    match s.workers[w] {
      case Waiting => assert WorkerStep(w, Take, s, s.(workers := s.workers[w := Requesting([])]));
      case Requesting(_) => RequestGoesOn(w, s);
      case Assigned(id) =>
        assert WorkerStep(w, SetBusy, s, s.SetState(id, Busy).(workers := s.workers[w := Marked(id)]));
      case Marked(id) => assert WorkerStep(w, Run(None), s, s.(workers := s.workers[w := Executing(id)]));
      case Executing(id) =>
        assert WorkerStep(w, SetIdle, s, s.SetState(id, Idle).(workers := s.workers[w := Replying([])]));
      case Replying(_) => assert WorkerStep(w, WorkerAct.Reply, s, s.(workers := s.workers[w := Waiting]));
    }
  }

  lemma HelperGoesOn(h: nat, s: Pool)
    requires h in s.helpers
    ensures HelperCanStep(h, s)
  {
    match s.helpers[h] {
      case Watching(id) => assert HelperStep(h, Over, s, s.(helpers := s.helpers - {h}));
      case Removing(id) =>
        assert HelperStep(h, RemoveIt(true), s, s.DockerRemove(id, true).(helpers := s.helpers[h := Deleting(id)]));
      case Deleting(id) => assert HelperStep(h, DeleteIt, s, s.Delete(id).(helpers := s.helpers - {h}));
    }
  }

  lemma CloserGoesOn(s: Pool)
    requires s.started && s.closer != Closed && !s.keeper.Trimming?
    ensures CloserCanStep(s)
  {
    match s.closer {
      case Open => assert CloserStep(Signal, s, s.(closer := Signalled));
      case Signalled => assert CloserStep(Lock, s, s.(closer := Clearing(s.containers.Keys)));
      case Clearing(todo) =>
        if todo == {} {
          assert CloserStep(Reset, s, s.(containers := map[], closer := Closed));
        } else {
          var id :| id in todo;
          assert CloserStep(Clear(id, true), s, s.DockerRemove(id, true).(closer := Clearing(todo - {id})));
        }
    }
  }

  /** No deadlock: once the pool has started, every thread that has not ended can take a step, and the
      only thing any of them ever waits for is the lock while `Shutdown` holds it, which itself never
      waits for them. A waiting worker can stop exactly from the moment `Shutdown` has been called. */
  lemma NobodyIsStuck(max: int, run: seq<Pool>, i: nat)
    requires Behaviour(max, run) && i < |run| && run[i].started
    ensures run[i].closer != Closed ==> CloserCanStep(run[i])
    ensures forall h :: h in run[i].helpers ==> HelperCanStep(h, run[i])
    ensures !run[i].closer.Clearing? ==>
              forall w: nat :: w < |run[i].workers| && run[i].workers[w] != Stopped ==> WorkerCanStep(w, run[i])
    ensures !run[i].closer.Clearing? ==> KeeperCanStep(max, run[i])
    ensures forall w: nat :: w < |run[i].workers| && run[i].workers[w] == Waiting ==>
              (run[i].closer != Open <==> exists t :: WorkerStep(w, Stop, run[i], t))
    ensures forall w: nat :: w < |run[i].workers| && run[i].workers[w] == Stopped ==> run[i].closer != Open
  {
    var s := run[i];
    Reachable(max, run, i);
    MonitorNeverEnds(max, run, i, i);
    forall w: nat | w < |s.workers| && s.workers[w] == Waiting && s.closer != Open
      ensures exists t :: WorkerStep(w, Stop, s, t)
    {
      assert WorkerStep(w, Stop, s, s.(workers := s.workers[w := Stopped]));
    }
    if s.closer != Closed {
      CloserGoesOn(s);
    }
    forall h | h in s.helpers ensures HelperCanStep(h, s) {
      HelperGoesOn(h, s);
    }
    if !s.closer.Clearing? {
      forall w: nat | w < |s.workers| && s.workers[w] != Stopped ensures WorkerCanStep(w, s) {
        WorkerGoesOn(w, s);
      }
    }
  }

  // The monitor alone.

  /** A step of the thread that initializes the pool and then monitors it. */
  ghost predicate KeeperMoves(max: int, s: Pool, t: Pool) {
    || (exists a :: SetupStep(max, a, s, t))
    || (exists a :: CheckStep(max, a, s, t))
    || (exists a :: DropStep(a, s, t))
    || (exists a :: StartStep(max, a, s, t))
  }

  ghost predicate KeeperMovesAt(max: int, run: seq<Pool>, i: int)
    requires 0 < i < |run|
  {
    KeeperMoves(max, run[i - 1], run[i])
  }

  /** From state `from` on, only that thread takes steps. */
  ghost predicate KeeperAlone(max: int, from: Pool, run: seq<Pool>) {
    run != [] && run[0] == from && forall i :: 0 < i < |run| ==> KeeperMovesAt(max, run, i)
  }

  function Last(run: seq<Pool>): Pool
    requires run != []
  {
    run[|run| - 1]
  }

  lemma SetupTouchesNoWorker(max: int, a: SetupAct, s: Pool, t: Pool)
    requires SetupStep(max, a, s, t)
    ensures t.workers == s.workers && t.helpers == s.helpers
  {
  }

  lemma DropTouchesNoWorker(a: DropAct, s: Pool, t: Pool)
    requires DropStep(a, s, t)
    ensures t.workers == s.workers && t.helpers == s.helpers
  {
  }

  lemma StartTouchesNoWorker(max: int, a: StartAct, s: Pool, t: Pool)
    requires StartStep(max, a, s, t)
    ensures t.workers == s.workers && t.helpers == s.helpers
  {
    if a != Enter {
      StartChangesDocker(max, a, s, t);
    }
  }

  lemma MoveIsStep(max: int, s: Pool, t: Pool)
    requires KeeperMoves(max, s, t)
    ensures Next(max, s, t)
  {
    if a :| SetupStep(max, a, s, t) {
      assert Step(max, Setup(a), s, t);
    } else if a :| CheckStep(max, a, s, t) {
      assert Step(max, Action.Check(a), s, t);
    } else if a :| DropStep(a, s, t) {
      assert Step(max, Removal(a), s, t);
    } else {
      var a :| StartStep(max, a, s, t);
      assert Step(max, Start(a), s, t);
    }
  }

  predicate SameCrew(s: Pool, t: Pool) {
    t.workers == s.workers && t.helpers == s.helpers
  }

  lemma MoveTouchesNoWorker(max: int, p: seq<Pool>, i: int)
    requires 0 < i < |p| && KeeperMovesAt(max, p, i)
    ensures SameCrew(p[i - 1], p[i])
  {
    var s, t := p[i - 1], p[i];
    if a :| SetupStep(max, a, s, t) {
      SetupTouchesNoWorker(max, a, s, t);
    } else if a :| CheckStep(max, a, s, t) {
      CheckMovesTheKeeper(max, a, s, t);
    } else if a :| DropStep(a, s, t) {
      DropTouchesNoWorker(a, s, t);
    } else {
      var a :| StartStep(max, a, s, t);
      StartTouchesNoWorker(max, a, s, t);
    }
  }

  lemma {:induction false} KeeperTouchesNoWorker(max: int, from: Pool, p: seq<Pool>, i: nat)
    requires KeeperAlone(max, from, p) && i < |p|
    ensures SameCrew(from, p[i])
  {
    if i > 0 {
      KeeperTouchesNoWorker(max, from, p, i - 1);
      MoveTouchesNoWorker(max, p, i);
    }
  }

  /** What the monitor does alone is a way for the run to go on. */
  lemma GoesOnAlone(max: int, run: seq<Pool>, i: nat, p: seq<Pool>)
    requires Behaviour(max, run) && i < |run| && KeeperAlone(max, run[i], p)
    ensures Behaviour(max, run[..i] + p) && Inv(max, Last(p))
  {
    var more := run[..i] + p;
    forall j | 0 < j < |more| ensures StepAt(max, more, j) {
      if j <= i {
        assert StepAt(max, run, j);
        assert more[j - 1] == run[j - 1] && more[j] == run[j];
      } else {
        assert KeeperMovesAt(max, p, j - i);
        assert more[j - 1] == p[j - i - 1] && more[j] == p[j - i];
        MoveIsStep(max, more[j - 1], more[j]);
      }
    }
    assert more[0] == run[0];
    Reachable(max, more, |more| - 1);
  }

  lemma Moves(max: int, from: Pool, p: seq<Pool>, t: Pool) returns (q: seq<Pool>)
    requires KeeperAlone(max, from, p) && KeeperMoves(max, Last(p), t)
    ensures KeeperAlone(max, from, q) && Last(q) == t
  {
    q := p + [t];
    forall i | 0 < i < |q| ensures KeeperMovesAt(max, q, i) {
      if i < |p| {
        assert KeeperMovesAt(max, p, i);
      }
    }
  }

  lemma Sets(max: int, from: Pool, p: seq<Pool>, a: SetupAct, t: Pool) returns (q: seq<Pool>)
    requires KeeperAlone(max, from, p) && SetupStep(max, a, Last(p), t)
    ensures KeeperAlone(max, from, q) && Last(q) == t
  {
    q := Moves(max, from, p, t);
  }

  lemma Checks(max: int, from: Pool, p: seq<Pool>, a: CheckAct, t: Pool) returns (q: seq<Pool>)
    requires KeeperAlone(max, from, p) && CheckStep(max, a, Last(p), t)
    ensures KeeperAlone(max, from, q) && Last(q) == t
  {
    q := Moves(max, from, p, t);
  }

  lemma Drops(max: int, from: Pool, p: seq<Pool>, a: DropAct, t: Pool) returns (q: seq<Pool>)
    requires KeeperAlone(max, from, p) && DropStep(a, Last(p), t)
    ensures KeeperAlone(max, from, q) && Last(q) == t
  {
    q := Moves(max, from, p, t);
  }

  lemma Starts(max: int, from: Pool, p: seq<Pool>, a: StartAct, t: Pool) returns (q: seq<Pool>)
    requires KeeperAlone(max, from, p) && StartStep(max, a, Last(p), t)
    ensures KeeperAlone(max, from, q) && Last(q) == t
  {
    q := Moves(max, from, p, t);
  }

  /** The pool is running and `Shutdown` has not been called. */
  predicate Running(s: Pool) {
    s.started && s.closer == Open
  }

  lemma ScanOne(max: int, from: Pool, p: seq<Pool>, id: Id, usable: set<Id>) returns (q: seq<Pool>)
    requires KeeperAlone(max, from, p) && Last(p).keeper.Scanning? && id in Last(p).keeper.todo
    requires usable == Last(p).Usable()
    ensures KeeperAlone(max, from, q) && Last(q).Usable() == usable
    ensures Last(q) == Last(p).(keeper := Scanning(Last(p).keeper.todo - {id}, Last(p).keeper.running + {id} * usable))
  {
    var s, k := Last(p), Last(p).keeper;
    var running := if id in usable then k.running + {id} else k.running;
    assert running == k.running + {id} * usable;
    q := Checks(max, from, p, Scan(id), s.(keeper := Scanning(k.todo - {id}, running)));
    assert Last(q).containers == s.containers;
  }

  lemma SplitOff(running: set<Id>, todo: set<Id>, usable: set<Id>, id: Id)
    requires id in todo
    ensures running + {id} * usable + (todo - {id}) * usable == running + todo * usable
  {
  }

  lemma {:induction false} ScanAll(max: int, from: Pool, p: seq<Pool>) returns (q: seq<Pool>)
    requires KeeperAlone(max, from, p) && Last(p).keeper.Scanning?
    ensures KeeperAlone(max, from, q)
    ensures Last(q) == Last(p).(keeper := Scanning({}, Last(p).keeper.running + Last(p).keeper.todo * Last(p).Usable()))
    decreases |Last(p).keeper.todo|
  {
    var s, k := Last(p), Last(p).keeper;
    if k.todo == {} {
      assert k.running + k.todo * s.Usable() == k.running;
      return p;
    }
    var id :| id in k.todo;
    var usable := s.Usable();
    q := ScanOne(max, from, p, id, usable);
    SplitOff(k.running, k.todo, usable, id);
    q := ScanAll(max, from, q);
  }

  lemma {:induction false} DropAll(max: int, from: Pool, p: seq<Pool>) returns (q: seq<Pool>)
    requires KeeperAlone(max, from, p) && Last(p).keeper.Repairing? && Last(p).keeper.gone == None
    ensures KeeperAlone(max, from, q)
    ensures
      var s, k := Last(p), Last(p).keeper;
      Last(q) == s.(containers := s.containers - k.drop, live := s.live - k.drop,
                keeper := Repairing({}, None, k.kept, k.running))
    decreases |Last(p).keeper.drop|
  {
    var s, k := Last(p), Last(p).keeper;
    if k.drop == {} {
      assert s.containers - k.drop == s.containers && s.live - k.drop == s.live;
      return p;
    }
    var id :| id in k.drop;
    var rest := k.drop - {id};
    assert s.containers - {id} - rest == s.containers - k.drop && s.live - {id} - rest == s.live - k.drop;
    var t := s.DockerRemove(id, true).(keeper := Repairing(rest, Some(id), k.kept, k.running));
    q := Drops(max, from, p, Remove(id, true), t);
    q := Drops(max, from, q, Drop, t.Delete(id).(keeper := Repairing(rest, None, k.kept, k.running)));
    q := DropAll(max, from, q);
  }

  lemma {:induction false} FreshId(used: set<Id>) returns (id: Id)
    ensures id !in used && forall i :: i in used ==> i < id
  {
    if used == {} {
      return 0;
    }
    var some :| some in used;
    var rest := used - {some};
    var next := FreshId(rest);
    assert forall i :: i in used ==> i == some || i in rest;
    id := if next <= some then some + 1 else next;
  }

  /** One call of `StartContainer` in which nothing fails. */
  lemma StartOne(max: int, from: Pool, p: seq<Pool>) returns (q: seq<Pool>, id: Id)
    requires KeeperAlone(max, from, p) && Last(p).closer == Open && |Last(p).containers.Keys| < max
    requires Last(p).keeper.Refilling? && Last(p).keeper.left > 0 && Last(p).keeper.at == StartPc.Check
    ensures KeeperAlone(max, from, q) && id !in Last(p).used
    ensures
      var s := Last(p);
      Last(q) == s.(containers := s.containers[id := Idle], live := s.live + {id}, used := s.used + {id},
                owned := s.owned + {id}, registered := s.registered + {id},
                keeper := Refilling(s.keeper.left - 1, StartPc.Check))
  {
    var s, left := Last(p), Last(p).keeper.left;
    id := FreshId(s.used);
    q := Starts(max, from, p, CheckRoom, s.(keeper := Refilling(left, Create)));
    var made := s.(live := s.live + {id}, used := s.used + {id}, owned := s.owned + {id},
                   keeper := Refilling(left, StartPc.Launch(id)));
    q := Starts(max, from, q, CreateOk(id), made);
    q := Starts(max, from, q, LaunchOk, made.(keeper := Refilling(left, Register(id))));
    q := Starts(max, from, q, Enter,
                made.(containers := s.containers[id := Idle], registered := s.registered + {id},
                      keeper := Refilling(left - 1, StartPc.Check)));
  }

  /** Every registered container is in Docker and none is in error. */
  ghost predicate Sound(s: Pool) {
    forall id :: id in s.containers ==> id in s.live && id in s.used && s.containers[id] != Error
  }

  ghost predicate Keeps(s: Pool, t: Pool) {
    forall id :: id in s.containers ==> id in t.containers && t.containers[id] == s.containers[id]
  }

  lemma OneMoreSound(s: Pool, t: Pool, id: Id)
    requires Sound(s) && id !in s.used && t.containers == s.containers[id := Idle]
    requires t.live == s.live + {id} && t.used == s.used + {id}
    ensures Sound(t) && Keeps(s, t) && |t.containers.Keys| == |s.containers.Keys| + 1
  {
    assert t.containers.Keys == s.containers.Keys + {id} && id !in s.containers.Keys;
  }

  lemma {:induction false} StartAll(max: int, from: Pool, p: seq<Pool>) returns (q: seq<Pool>)
    requires KeeperAlone(max, from, p) && Last(p).closer == Open && Sound(Last(p))
    requires Last(p).keeper.Refilling? && Last(p).keeper.at == StartPc.Check
    requires |Last(p).containers.Keys| + Last(p).keeper.left <= max
    ensures KeeperAlone(max, from, q) && Last(q).closer == Open && Sound(Last(q))
    ensures Last(q).started == Last(p).started && Last(q).keeper == Adjusted(Last(p))
    ensures Keeps(Last(p), Last(q)) && |Last(q).containers.Keys| == |Last(p).containers.Keys| + Last(p).keeper.left
    decreases Last(p).keeper.left
  {
    if Last(p).keeper.left == 0 {
      q := Starts(max, from, p, Refilled, Last(p).(keeper := Adjusted(Last(p))));
    } else {
      var id;
      q, id := StartOne(max, from, p);
      OneMoreSound(Last(p), Last(q), id);
      q := StartAll(max, from, q);
    }
  }

  lemma RepairsEnd(max: int, from: Pool, p: seq<Pool>) returns (q: seq<Pool>)
    requires KeeperAlone(max, from, p) && Last(p).keeper.Repairing? && Last(p).keeper.gone == None
    requires Last(p).keeper.drop == {} && |Last(p).keeper.running| <= max
    ensures KeeperAlone(max, from, q)
    ensures
      var k := Last(p).keeper;
      Last(q) == Last(p).(checks := Last(p).checks + 1,
                  keeper := if k.kept < max then Refilling(max - k.kept, StartPc.Check) else Ticking)
  {
    var k := Last(p).keeper;
    if k.kept < max {
      var t := Last(p).(keeper := Refilling(max - k.kept, StartPc.Check), checks := Last(p).checks + 1);
      q := Checks(max, from, p, Repaired({}), t);
    } else {
      q := Checks(max, from, p, Repaired({}), Last(p).(keeper := Ticking, checks := Last(p).checks + 1));
    }
  }

  lemma RepairAll(max: int, from: Pool, p: seq<Pool>) returns (q: seq<Pool>)
    requires KeeperAlone(max, from, p) && Last(p).keeper.Repairing? && Last(p).keeper.gone == None
    requires |Last(p).keeper.running| <= max
    ensures KeeperAlone(max, from, q)
    ensures
      var s, k := Last(p), Last(p).keeper;
      Last(q) == s.(containers := s.containers - k.drop, live := s.live - k.drop, checks := s.checks + 1,
                keeper := if k.kept < max then Refilling(max - k.kept, StartPc.Check) else Ticking)
  {
    q := DropAll(max, from, p);
    q := RepairsEnd(max, from, q);
  }

  lemma ListAndScan(max: int, from: Pool, p: seq<Pool>, running: set<Id>) returns (q: seq<Pool>)
    requires KeeperAlone(max, from, p) && Last(p).keeper == Ticking && running == Last(p).live * Last(p).Usable()
    ensures KeeperAlone(max, from, q) && Last(q) == Last(p).(keeper := Scanning({}, running))
  {
    var s := Last(p);
    q := Checks(max, from, p, List, s.(keeper := Scanning(s.live, {})));
    assert Last(q).Usable() == s.Usable();
    q := ScanAll(max, from, q);
    assert {} + running == running;
  }

  lemma MarkNow(max: int, from: Pool, p: seq<Pool>) returns (q: seq<Pool>)
    requires KeeperAlone(max, from, p) && Running(Last(p)) && Last(p).keeper.Scanning? && Last(p).keeper.todo == {}
    ensures KeeperAlone(max, from, q)
    ensures
      var drop := Last(p).containers.Keys - Last(p).keeper.running;
      Last(q) == Last(p).(keeper := Repairing(drop, None, |Last(p).containers.Keys| - |drop|, Last(p).keeper.running))
  {
    var drop := Last(p).containers.Keys - Last(p).keeper.running;
    var next := Repairing(drop, None, |Last(p).containers.Keys| - |drop|, Last(p).keeper.running);
    q := Checks(max, from, p, Mark, Last(p).(keeper := next));
  }

  lemma KeptCount(keys: set<Id>, running: set<Id>)
    requires running <= keys
    ensures |keys| - |keys - running| == |running|
  {
    assert keys == (keys - running) + running;
  }

  /** Listing, scanning and marking: what is kept is what Docker has and is not in error. */
  lemma ListAndMark(max: int, from: Pool, p: seq<Pool>, running: set<Id>) returns (q: seq<Pool>)
    requires KeeperAlone(max, from, p) && Running(Last(p)) && Last(p).keeper == Ticking
    requires running == Last(p).live * Last(p).Usable()
    ensures KeeperAlone(max, from, q) && running <= Last(p).containers.Keys
    ensures Last(q) == Last(p).(keeper := Repairing(Last(p).containers.Keys - running, None, |running|, running))
  {
    KeptCount(Last(p).containers.Keys, running);
    q := ListAndScan(max, from, p, running);
    q := MarkNow(max, from, q);
  }

  lemma LeftIsSound(s: Pool, t: Pool, running: set<Id>)
    requires running == s.live * s.Usable() && s.containers.Keys <= s.used && t.used == s.used
    requires t.containers == s.containers - (s.containers.Keys - running)
    requires t.live == s.live - (s.containers.Keys - running)
    ensures Sound(t) && t.containers.Keys == running
  {
    assert t.containers.Keys == running;
    assert forall id :: id in t.containers ==> id in s.Usable();
  }

  /** One whole health check, up to its removals: what is left is what Docker runs and is not in error. */
  lemma ListAndRepair(max: int, from: Pool, p: seq<Pool>) returns (q: seq<Pool>)
    requires KeeperAlone(max, from, p) && Running(Last(p)) && Last(p).keeper == Ticking
    requires Last(p).containers.Keys <= Last(p).used && |Last(p).containers.Keys| <= max
    ensures KeeperAlone(max, from, q) && Running(Last(q)) && Sound(Last(q))
    ensures
      var s, running := Last(p), Last(p).live * Last(p).Usable();
      && Last(q).containers == s.containers - (s.containers.Keys - running) && Last(q).containers.Keys == running
      && Last(q).keeper == if |running| < max then Refilling(max - |running|, StartPc.Check) else Ticking
  {
    var running := Last(p).live * Last(p).Usable();
    q := ListAndMark(max, from, p, running);
    SubsetSize(running, Last(p).containers.Keys);
    q := RepairAll(max, from, q);
    LeftIsSound(Last(p), Last(q), running);
  }

  lemma FailOne(max: int, from: Pool, p: seq<Pool>) returns (q: seq<Pool>)
    requires KeeperAlone(max, from, p) && Running(Last(p))
    requires Last(p).keeper.Refilling? && Last(p).keeper.at == StartPc.Check && Last(p).keeper.left > 0
    ensures KeeperAlone(max, from, q)
    ensures Last(q) == Last(p).(keeper := Refilling(Last(p).keeper.left - 1, StartPc.Check))
  {
    var s, left := Last(p), Last(p).keeper.left;
    var again := s.(keeper := Refilling(left - 1, StartPc.Check));
    if |s.containers.Keys| >= max {
      q := Starts(max, from, p, CheckRoom, again);
    } else {
      q := Starts(max, from, p, CheckRoom, s.(keeper := Refilling(left, Create)));
      q := Starts(max, from, q, CreateFails, again);
    }
  }

  /** The rest of the present health check, all of its calls of `StartContainer` failing. */
  lemma {:induction false} FailAll(max: int, from: Pool, p: seq<Pool>) returns (q: seq<Pool>)
    requires KeeperAlone(max, from, p) && Running(Last(p))
    requires Last(p).keeper.Refilling? && Last(p).keeper.at == StartPc.Check
    ensures KeeperAlone(max, from, q) && Last(q) == Last(p).(keeper := Ticking)
    decreases Last(p).keeper.left
  {
    if Last(p).keeper.left == 0 {
      q := Starts(max, from, p, Refilled, Last(p).(keeper := Adjusted(Last(p))));
    } else {
      q := FailOne(max, from, p);
      q := FailAll(max, from, q);
    }
  }

  /** The current call of `StartContainer` comes to its end. */
  lemma EndCall(max: int, from: Pool, p: seq<Pool>) returns (q: seq<Pool>)
    requires KeeperAlone(max, from, p) && Running(Last(p)) && Last(p).keeper.Refilling?
    requires Last(p).keeper.at == StartPc.Check || Last(p).keeper.left > 0
    ensures KeeperAlone(max, from, q) && Running(Last(q))
    ensures Last(q).keeper.Refilling? && Last(q).keeper.at == StartPc.Check
  {
    var s, k := Last(p), Last(p).keeper;
    if k.at == StartPc.Check {
      return p;
    }
    var again := Refilling(k.left - 1, StartPc.Check);
    match k.at {
      case Create => q := Starts(max, from, p, CreateFails, s.(keeper := again));
      case Launch(id) =>
        q := Starts(max, from, p, LaunchFails, s.(keeper := Refilling(k.left, Abort(id))));
        q := Starts(max, from, q, GiveUp(true), Last(q).DockerRemove(id, true).(keeper := again));
      case Abort(id) => q := Starts(max, from, p, GiveUp(true), s.DockerRemove(id, true).(keeper := again));
      case Register(id) =>
        var t := s.(containers := s.containers[id := Idle], registered := s.registered + {id}, keeper := again);
        q := Starts(max, from, p, Enter, t);
    }
  }

  lemma RefillToTicking(max: int, from: Pool, p: seq<Pool>) returns (q: seq<Pool>)
    requires KeeperAlone(max, from, p) && Running(Last(p)) && Last(p).keeper.Refilling?
    requires Last(p).keeper.at == StartPc.Check || Last(p).keeper.left > 0
    ensures KeeperAlone(max, from, q) && Running(Last(q)) && Last(q).keeper == Ticking
  {
    q := EndCall(max, from, p);
    q := FailAll(max, from, q);
  }

  lemma RepairToTicking(max: int, from: Pool, p: seq<Pool>) returns (q: seq<Pool>)
    requires KeeperAlone(max, from, p) && Running(Last(p)) && Last(p).keeper.Repairing?
    requires |Last(p).keeper.running| <= max
    ensures KeeperAlone(max, from, q) && Running(Last(q)) && Last(q).keeper == Ticking
  {
    var s, k := Last(p), Last(p).keeper;
    q := p;
    if k.gone.Some? {
      q := Drops(max, from, p, Drop, s.Delete(k.gone.value).(keeper := Repairing(k.drop, None, k.kept, k.running)));
    }
    q := RepairAll(max, from, q);
    if Last(q).keeper.Refilling? {
      q := RefillToTicking(max, from, q);
    }
  }

  lemma ScanToRepair(max: int, from: Pool, p: seq<Pool>) returns (q: seq<Pool>)
    requires KeeperAlone(max, from, p) && Running(Last(p)) && Last(p).keeper.Scanning?
    ensures KeeperAlone(max, from, q) && Running(Last(q)) && Last(q).keeper.Repairing?
  {
    q := ScanAll(max, from, p);
    q := MarkNow(max, from, q);
  }

  /** What the invariant says of the monitor alone. */
  lemma MonitorBounds(max: int, run: seq<Pool>, i: nat, p: seq<Pool>)
    requires Behaviour(max, run) && i < |run| && KeeperAlone(max, run[i], p) && Running(Last(p))
    ensures
      var s, k := Last(p), Last(p).keeper;
      && s.containers.Keys <= s.used && |s.containers.Keys| <= max
      && (k.Ticking? || k.Scanning? || k.Repairing? || k.Refilling?)
      && (k.Repairing? ==> |k.running| <= max)
      && (k.Refilling? ==> k.at == StartPc.Check || k.left > 0)
  {
    GoesOnAlone(max, run, i, p);
  }

  /** Wherever the monitor stands, it can come to the beginning of its next health check. */
  lemma ToTicking(max: int, run: seq<Pool>, i: nat) returns (p: seq<Pool>)
    requires Behaviour(max, run) && i < |run| && Running(run[i])
    ensures KeeperAlone(max, run[i], p) && Running(Last(p)) && Last(p).keeper == Ticking
  {
    var s := run[i];
    p := [s];
    if s.keeper.Scanning? {
      p := ScanToRepair(max, s, p);
    }
    MonitorBounds(max, run, i, p);
    if Last(p).keeper.Repairing? {
      p := RepairToTicking(max, s, p);
    } else if Last(p).keeper.Refilling? {
      p := RefillToTicking(max, s, p);
    }
  }

  lemma OneCheck(max: int, from: Pool, p: seq<Pool>) returns (q: seq<Pool>)
    requires KeeperAlone(max, from, p) && Running(Last(p)) && Last(p).keeper == Ticking
    requires Last(p).containers.Keys <= Last(p).used && |Last(p).containers.Keys| <= max
    ensures KeeperAlone(max, from, q) && Running(Last(q)) && Sound(Last(q)) && Last(q).keeper == Ticking
    ensures |Last(q).containers.Keys| == max
  {
    SubsetSize(Last(p).live * Last(p).Usable(), Last(p).containers.Keys);
    q := ListAndRepair(max, from, p);
    if Last(q).keeper.Refilling? {
      q := StartAll(max, from, q);
    }
  }

  /** Self-healing: from every reachable state before shutdown the monitor alone can bring the pool to
      `max` registered containers, every one of them in Docker and none in error, whatever has been lost,
      removed or put in error before. */
  lemma MonitorRestoresThePool(max: int, run: seq<Pool>, i: nat) returns (p: seq<Pool>)
    requires Behaviour(max, run) && i < |run| && Running(run[i])
    ensures KeeperAlone(max, run[i], p) && Last(p).keeper == Ticking && Last(p).workers == run[i].workers
    ensures |Last(p).containers.Keys| == max && Sound(Last(p))
  {
    p := ToTicking(max, run, i);
    MonitorBounds(max, run, i, p);
    p := OneCheck(max, run[i], p);
    KeeperTouchesNoWorker(max, run[i], p, |p| - 1);
  }

  // Initialization.

  predicate AllRunning(s: Pool, found: map<Id, State>) {
    forall id :: id in found ==> found[id] == Idle && id in s.live && id in s.used
  }

  /** State `s` with container `id` adopted, which was listed as running. */
  function AdoptedIn(s: Pool, found: map<Id, State>, id: Id): Pool {
    s.(containers := s.containers[id := Idle], owned := s.owned + {id}, registered := s.registered + {id},
       keeper := Adopting(found - {id}))
  }

  lemma AdoptOne(max: int, from: Pool, p: seq<Pool>, found: map<Id, State>, id: Id) returns (q: seq<Pool>)
    requires KeeperAlone(max, from, p) && Last(p).keeper == Adopting(found) && id in found && found[id] == Idle
    ensures KeeperAlone(max, from, q) && Last(q) == AdoptedIn(Last(p), found, id)
  {
    q := Sets(max, from, p, Adopt(id), AdoptedIn(Last(p), found, id));
  }

  lemma AdoptedIsSound(s: Pool, found: map<Id, State>, id: Id)
    requires Sound(s) && AllRunning(s, found) && id in found
    ensures
      var t := AdoptedIn(s, found, id);
      && Sound(t) && AllRunning(t, found - {id}) && (found - {id}).Keys == found.Keys - {id}
      && t.containers.Keys + (found - {id}).Keys == s.containers.Keys + found.Keys
  {
    assert (found - {id}).Keys == found.Keys - {id};
  }

  lemma {:induction false} AdoptAll(max: int, from: Pool, p: seq<Pool>, found: map<Id, State>) returns (q: seq<Pool>)
    requires KeeperAlone(max, from, p) && Last(p).closer == Open && !Last(p).started
    requires Last(p).keeper == Adopting(found) && Sound(Last(p)) && AllRunning(Last(p), found)
    ensures KeeperAlone(max, from, q) && Last(q).closer == Open && !Last(q).started
    ensures Last(q).keeper == Measuring && Sound(Last(q))
    ensures Last(q).containers.Keys == Last(p).containers.Keys + found.Keys
    decreases |found.Keys|
  {
    if found.Keys == {} {
      q := Sets(max, from, p, Adopted, Last(p).(keeper := Measuring));
    } else {
      var id :| id in found.Keys;
      AdoptedIsSound(Last(p), found, id);
      q := AdoptOne(max, from, p, found, id);
      q := AdoptAll(max, from, q, found - {id});
    }
  }

  lemma TrimOne(max: int, from: Pool, p: seq<Pool>, id: Id) returns (q: seq<Pool>)
    requires KeeperAlone(max, from, p) && Last(p).keeper.Trimming? && Last(p).keeper.gone == None
    requires id in Last(p).keeper.drop
    ensures KeeperAlone(max, from, q)
    ensures
      var s := Last(p);
      Last(q) == s.(containers := s.containers - {id}, live := s.live - {id},
                    keeper := Trimming(s.keeper.drop - {id}, None))
  {
    var s, rest := Last(p), Last(p).keeper.drop - {id};
    var t := s.DockerRemove(id, true).(keeper := Trimming(rest, Some(id)));
    q := Drops(max, from, p, Remove(id, true), t);
    q := Drops(max, from, q, Drop, t.Delete(id).(keeper := Trimming(rest, None)));
  }

  lemma {:induction false} TrimAll(max: int, from: Pool, p: seq<Pool>) returns (q: seq<Pool>)
    requires KeeperAlone(max, from, p) && Last(p).closer == Open && !Last(p).started
    requires Last(p).keeper.Trimming? && Last(p).keeper.gone == None && Sound(Last(p))
    ensures KeeperAlone(max, from, q) && Last(q).closer == Open && !Last(q).started
    ensures Last(q).keeper == Settling && Sound(Last(q))
    ensures Last(q).containers.Keys == Last(p).containers.Keys - Last(p).keeper.drop
    decreases |Last(p).keeper.drop|
  {
    var s, drop := Last(p), Last(p).keeper.drop;
    if drop == {} {
      q := Drops(max, from, p, Trimmed, s.(keeper := Adjusted(s)));
    } else {
      var id :| id in drop;
      q := TrimOne(max, from, p, id);
      q := TrimAll(max, from, q);
    }
  }

  lemma {:induction false} SomeOf(all: set<Id>, n: nat) returns (some: set<Id>)
    requires n <= |all|
    ensures some <= all && |some| == n
  {
    if n == 0 {
      return {};
    }
    var id :| id in all;
    some := SomeOf(all - {id}, n - 1);
    some := some + {id};
  }

  lemma MeasureAndAdjust(max: nat, from: Pool, p: seq<Pool>) returns (q: seq<Pool>)
    requires KeeperAlone(max, from, p) && Last(p).closer == Open && !Last(p).started
    requires Last(p).keeper == Measuring && Sound(Last(p))
    ensures KeeperAlone(max, from, q) && Last(q).closer == Open && !Last(q).started
    ensures Last(q).keeper == Settling && Sound(Last(q)) && |Last(q).containers.Keys| == max
    ensures |Last(p).containers.Keys| <= max ==> Last(p).containers.Keys <= Last(q).containers.Keys
  {
    var s, keys := Last(p), Last(p).containers.Keys;
    if |keys| > max {
      var drop := SomeOf(keys, |keys| - max);
      KeptCount(keys, drop);
      q := Sets(max, from, p, Measure(drop), s.(keeper := Trimming(drop, None)));
      q := TrimAll(max, from, q);
    } else if |keys| < max {
      q := Sets(max, from, p, Measure({}), s.(keeper := Refilling(max - |keys|, StartPc.Check)));
      q := StartAll(max, from, q);
    } else {
      q := Sets(max, from, p, Measure({}), s.(keeper := Settling));
    }
  }

  /** Initialization works: whatever Docker already runs, if no call fails and everything listed is
      running, the pool starts with exactly `max` containers, among them all that were there if they
      fit. */
  lemma InitializationFillsThePool(max: int, s: Pool) returns (p: seq<Pool>)
    requires Initial(max, s) && max > 0
    ensures KeeperAlone(max, s, p) && Last(p).started && Last(p).keeper == Ticking
    ensures |Last(p).containers.Keys| == max && Sound(Last(p))
    ensures |s.live| <= max ==> s.live <= Last(p).containers.Keys
  {
    var found := map id | id in s.live :: Idle;
    assert found.Keys == s.live;
    p := Sets(max, s, [s], ListInit(found), s.(keeper := Adopting(found)));
    p := AdoptAll(max, s, p, found);
    assert Last(p).containers.Keys == s.live;
    p := MeasureAndAdjust(max, s, p);
    p := Sets(max, s, p, Settle, Last(p).(keeper := Ticking, started := true));
  }
}
