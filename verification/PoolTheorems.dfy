/** What holds over every run of the container pool. */
module PoolTheorems {
  import opened Options
  import opened Counting
  import opened PoolProtocol
  import opened PoolInvariants

  // What one step can do to the parts that the theorems speak of.

  function Misses(pc: WorkerPc): seq<nat> {
    if pc.Requesting? || pc.Replying? then pc.misses else []
  }

  /** A request's record of failed scans stays, is closed, or grows by the scan made in state `s`. */
  predicate PcMove(s: Pool, p: WorkerPc, q: WorkerPc) {
    || q == p
    || Misses(q) == []
    || (p.Requesting? && s.With(Idle) == {} &&
        var misses := p.misses + [|s.Usable()|];
        q == if |misses| < MAX_RETRIES then Requesting(misses) else Replying(misses))
  }

  ghost predicate Effects(s: Pool, t: Pool) {
    && s.registered <= t.registered && s.checks <= t.checks
    && (forall id :: id in t.containers && id !in s.containers ==> id !in s.registered)
    && (s.started ==> t.started && t.With(Error) <= s.With(Error))
    && (t.started && !s.started ==> t.containers != map[])
    && (s.closer.Clearing? && t.closer == Closed ==> t.containers == map[])
    && |t.workers| == |s.workers|
    && forall w :: 0 <= w < |s.workers| ==> PcMove(s, s.workers[w], t.workers[w])
  }

  lemma AdoptEffects(max: int, id: Id, s: Pool, t: Pool)
    requires IdsOk(s) && PhaseOk(max, s) && SetupStep(max, Adopt(id), s, t)
    ensures Effects(s, t)
  {
    assert t.workers == s.workers && t.closer == s.closer && !s.started;
  }

  lemma SetupMovesTheKeeper(max: int, a: SetupAct, s: Pool, t: Pool)
    requires PhaseOk(max, s) && SetupStep(max, a, s, t) && !a.Adopt?
    ensures t == s.(keeper := t.keeper, started := t.started) && !s.started
    ensures t.started ==> s.containers != map[]
  {
  }

  lemma SetupEffects(max: int, a: SetupAct, s: Pool, t: Pool)
    requires IdsOk(s) && PhaseOk(max, s) && SetupStep(max, a, s, t)
    ensures Effects(s, t)
  {
    if a.Adopt? {
      AdoptEffects(max, a.id, s, t);
    } else {
      SetupMovesTheKeeper(max, a, s, t);
    }
  }

  lemma CheckEffects(max: int, a: CheckAct, s: Pool, t: Pool)
    requires CheckStep(max, a, s, t)
    ensures Effects(s, t)
  {
    assert t == s.(keeper := t.keeper, checks := t.checks) && s.checks <= t.checks;
  }

  lemma DropEffects(a: DropAct, s: Pool, t: Pool)
    requires DropStep(a, s, t)
    ensures Effects(s, t)
  {
    assert t.workers == s.workers && t.closer == s.closer && t.With(Error) <= s.With(Error);
  }

  lemma EnterEffects(max: int, s: Pool, t: Pool)
    requires IdsOk(s) && StartStep(max, Enter, s, t)
    ensures Effects(s, t)
  {
    assert t.workers == s.workers && t.closer == s.closer && t.With(Error) <= s.With(Error);
  }

  /** Until it registers the container, `StartContainer` changes only Docker. */
  lemma StartChangesDocker(max: int, a: StartAct, s: Pool, t: Pool)
    requires StartStep(max, a, s, t) && a != Enter
    ensures t == s.(live := t.live, used := t.used, owned := t.owned, stuck := t.stuck, keeper := t.keeper)
  {
  }

  lemma StartEffects(max: int, a: StartAct, s: Pool, t: Pool)
    requires IdsOk(s) && StartStep(max, a, s, t)
    ensures Effects(s, t)
  {
    if a == Enter {
      EnterEffects(max, s, t);
    } else {
      StartChangesDocker(max, a, s, t);
    }
  }

  lemma WorkerEffects(w: nat, a: WorkerAct, s: Pool, t: Pool)
    requires WorkerStep(w, a, s, t)
    ensures Effects(s, t)
  {
    assert t.containers.Keys == s.containers.Keys && t.closer == s.closer && t.With(Error) <= s.With(Error);
  }

  lemma HelperEffects(h: nat, a: HelperAct, s: Pool, t: Pool)
    requires HelperStep(h, a, s, t)
    ensures Effects(s, t)
  {
    assert t.workers == s.workers && t.closer == s.closer && t.With(Error) <= s.With(Error);
  }

  lemma CloserEffects(a: CloserAct, s: Pool, t: Pool)
    requires CloserStep(a, s, t)
    ensures Effects(s, t)
  {
    assert t.workers == s.workers && t.With(Error) <= s.With(Error);
  }

  lemma DockerEffects(s: Pool, t: Pool)
    requires t == s.(live := t.live, used := t.used)
    ensures Effects(s, t)
  {
  }

  lemma StepEffects(max: int, a: Action, s: Pool, t: Pool)
    requires IdsOk(s) && PhaseOk(max, s) && Step(max, a, s, t)
    ensures Effects(s, t)
  {
    match a {
      case Setup(b) => SetupEffects(max, b, s, t);
      case Check(b) => CheckEffects(max, b, s, t);
      case Removal(b) => DropEffects(b, s, t);
      case Start(b) => StartEffects(max, b, s, t);
      case Worker(w, b) => WorkerEffects(w, b, s, t);
      case Helper(h, b) => HelperEffects(h, b, s, t);
      case Closer(b) => CloserEffects(b, s, t);
      case Vanish(_) => DockerEffects(s, t);
      case Appear(_) => DockerEffects(s, t);
    }
  }

  lemma {:induction false} Reachable(max: int, run: seq<Pool>, i: nat)
    requires Behaviour(max, run) && i < |run|
    ensures Inv(max, run[i])
  {
    if i == 0 {
      InitialInv(max, run[0]);
    } else {
      Reachable(max, run, i - 1);
      assert StepAt(max, run, i);
      var s, t := run[i - 1], run[i];
      var a :| Step(max, a, s, t);
      StepKeeps(max, a, s, t);
    }
  }

  lemma EffectsAt(max: int, run: seq<Pool>, i: nat)
    requires Behaviour(max, run) && 0 < i < |run|
    ensures Effects(run[i - 1], run[i])
    ensures run[i - 1].containers.Keys <= run[i - 1].registered
  {
    Reachable(max, run, i - 1);
    assert StepAt(max, run, i);
    var s, t := run[i - 1], run[i];
    var a :| Step(max, a, s, t);
    StepEffects(max, a, s, t);
  }

  /** Exclusive holding: two workers never hold one container, and a registered container is Busy
      exactly from the moment a worker is given it until that worker sets it Idle. */
  lemma ExclusiveHolding(max: int, run: seq<Pool>, i: nat)
    requires Behaviour(max, run) && i < |run|
    ensures forall v, w, id :: HeldBy(run[i], v, id) && HeldBy(run[i], w, id) ==> v == w
    ensures forall id :: id in run[i].containers ==>
              (run[i].containers[id] == Busy <==> exists w :: HeldBy(run[i], w, id))
  {
    Reachable(max, run, i);
    forall id | id in run[i].containers
      ensures run[i].containers[id] == Busy <==> exists w :: HeldBy(run[i], w, id)
    {
      assert SomeoneHolds(run[i], id) <==> exists w :: HeldBy(run[i], w, id);
    }
  }

  // Starvation.

  function Hands(s: Pool): seq<Option<Id>> {
    seq(|s.workers|, w requires 0 <= w < |s.workers| => s.workers[w].Hand())
  }

  /** Pigeonhole: a worker that holds nothing sees fewer Busy containers than there are workers. */
  lemma BusyBound(max: int, s: Pool, w: nat)
    requires Inv(max, s) && w < |s.workers| && s.workers[w].Hand() == None
    ensures |s.With(Busy)| < max
  {
    var hands := Hands(s);
    assert hands[w] == None;
    HeldSize(hands);
    forall id | id in s.With(Busy) ensures id in Held(hands) {
      assert SomeoneHolds(s, id);
      var v :| HeldBy(s, v, id);
      assert hands[v] == Some(id);
    }
    SubsetSize(s.With(Busy), Held(hands));
  }

  lemma UsableIsBusy(s: Pool)
    requires s.With(Idle) == {}
    ensures s.Usable() == s.With(Busy)
  {
    forall id | id in s.Usable() ensures id in s.With(Busy) {
      assert id !in s.With(Idle);
    }
  }

  /** A scan that finds nothing saw fewer than `max` usable containers. */
  lemma FailedScanIsShort(max: int, s: Pool, w: nat)
    requires Inv(max, s) && w < |s.workers| && s.workers[w].Requesting? && s.With(Idle) == {}
    ensures |s.Usable()| < max
  {
    BusyBound(max, s, w);
    UsableIsBusy(s);
  }

  /** No starvation: when `max` containers are registered and none is in error, a request finds one. */
  lemma FullPoolServes(max: int, run: seq<Pool>, i: nat, w: nat)
    requires Behaviour(max, run) && i < |run|
    requires w < |run[i].workers| && run[i].workers[w].Requesting?
    requires |run[i].containers.Keys| >= max && run[i].With(Error) == {}
    ensures exists id :: id in run[i].containers && run[i].containers[id] == Idle
  {
    var s := run[i];
    Reachable(max, run, i);
    assert s.Usable() == s.containers.Keys by {
      forall id | id in s.containers ensures id in s.Usable() {
        assert id !in s.With(Error);
      }
    }
    if s.With(Idle) == {} {
      FailedScanIsShort(max, s, w);
    }
    var id :| id in s.With(Idle);
  }

  /** At state `i` of the run worker `w`, after the failed scans `before` of its request, scanned again and
      found no Idle container among `usable`. */
  predicate ShortScan(max: int, run: seq<Pool>, i: int, w: nat, before: seq<nat>, usable: nat) {
    && 0 <= i < |run| && w < |run[i].workers| && run[i].workers[w] == Requesting(before)
    && run[i].With(Idle) == {} && usable == |run[i].Usable()| < max
  }

  /** Worker `w` is making one request all the way from state `i` to state `j`. */
  predicate Asking(run: seq<Pool>, w: nat, i: int, j: int) {
    0 <= i <= j < |run| && forall n :: i <= n <= j ==> w < |run[n].workers| && run[n].workers[w].Requesting?
  }

  /** Each scan but the first came after the failed scans before it, with their counts. */
  ghost predicate AllShort(max: int, run: seq<Pool>, w: nat, scans: seq<nat>, misses: seq<nat>) {
    |scans| == |misses| &&
    forall k :: 0 <= k < |scans| ==> ShortScan(max, run, scans[k], w, misses[..k], misses[k])
  }

  predicate Ascending(scans: seq<nat>) {
    forall j, k :: 0 <= j < k < |scans| ==> scans[j] < scans[k]
  }

  ghost predicate Scans(max: int, run: seq<Pool>, w: nat, scans: seq<nat>, misses: seq<nat>) {
    && AllShort(max, run, w, scans, misses) && Ascending(scans)
    && (scans != [] ==> Asking(run, w, scans[0], scans[|scans| - 1]))
  }

  lemma OneMoreShort(max: int, run: seq<Pool>, w: nat, scans: seq<nat>, misses: seq<nat>, i: nat, usable: nat)
    requires AllShort(max, run, w, scans, misses) && ShortScan(max, run, i, w, misses, usable)
    ensures AllShort(max, run, w, scans + [i], misses + [usable])
  {
    var more, counts := scans + [i], misses + [usable];
    forall k | 0 <= k < |more| ensures ShortScan(max, run, more[k], w, counts[..k], counts[k]) {
      assert counts[..k] == if k < |scans| then misses[..k] else misses;
    }
  }

  lemma OneMoreScan(max: int, run: seq<Pool>, w: nat, scans: seq<nat>, misses: seq<nat>, i: nat, usable: nat)
    requires Scans(max, run, w, scans, misses) && ShortScan(max, run, i, w, misses, usable)
    requires scans != [] ==> scans[|scans| - 1] < i && Asking(run, w, scans[0], i)
    ensures Scans(max, run, w, scans + [i], misses + [usable])
  {
    OneMoreShort(max, run, w, scans, misses, i, usable);
    assert Ascending(scans + [i]);
  }

  lemma FailedScanAt(max: int, run: seq<Pool>, i: nat, w: nat)
    requires Behaviour(max, run) && i < |run| && w < |run[i].workers|
    requires run[i].workers[w].Requesting? && run[i].With(Idle) == {}
    ensures ShortScan(max, run, i, w, run[i].workers[w].misses, |run[i].Usable()|)
  {
    Reachable(max, run, i);
    FailedScanIsShort(max, run[i], w);
  }

  lemma PcMoveAt(max: int, run: seq<Pool>, i: nat, w: nat)
    requires Behaviour(max, run) && 0 < i < |run| && w < |run[i].workers|
    ensures w < |run[i - 1].workers| && PcMove(run[i - 1], run[i - 1].workers[w], run[i].workers[w])
  {
    EffectsAt(max, run, i);
  }

  /** What `scans` say about worker `w` in state `i`: when it scanned in vain for the present request. */
  ghost predicate Recorded(max: int, run: seq<Pool>, i: nat, w: nat, scans: seq<nat>) {
    && i < |run| && w < |run[i].workers|
    && Scans(max, run, w, scans, Misses(run[i].workers[w]))
    && (scans != [] ==> scans[|scans| - 1] < i)
    && match run[i].workers[w] {
         case Requesting(_) => |scans| < MAX_RETRIES && (scans != [] ==> Asking(run, w, scans[0], i))
         case Replying(_) => |scans| == 0 || |scans| == MAX_RETRIES
         case _ => true
       }
  }

  lemma NothingNewRecorded(max: int, run: seq<Pool>, i: nat, w: nat, scans: seq<nat>)
    requires 0 < i < |run| && w < |run[i].workers|
    requires Recorded(max, run, i - 1, w, scans) && run[i].workers[w] == run[i - 1].workers[w]
    ensures Recorded(max, run, i, w, scans)
  {
  }

  /** Where a failed scan takes a request. */
  function AfterMisses(misses: seq<nat>): WorkerPc {
    if |misses| < MAX_RETRIES then Requesting(misses) else Replying(misses)
  }

  lemma OnlyAFailedScanRecords(s: Pool, p: WorkerPc, q: WorkerPc)
    requires PcMove(s, p, q) && q != p && Misses(q) != []
    ensures p.Requesting? && s.With(Idle) == {} && q == AfterMisses(p.misses + [|s.Usable()|])
  {
  }

  lemma FailedScanRecorded(max: int, run: seq<Pool>, i: nat, w: nat, scans: seq<nat>, misses: seq<nat>, usable: nat)
    requires 0 < i < |run| && w < |run[i].workers| && Recorded(max, run, i - 1, w, scans)
    requires run[i - 1].workers[w] == Requesting(misses)
    requires run[i].workers[w] == AfterMisses(misses + [usable])
    requires ShortScan(max, run, i - 1, w, misses, usable)
    ensures Recorded(max, run, i, w, scans + [i - 1])
  {
    OneMoreScan(max, run, w, scans, misses, i - 1, usable);
  }

  lemma {:induction false} MissesWereScans(max: int, run: seq<Pool>, i: nat, w: nat) returns (scans: seq<nat>)
    requires Behaviour(max, run) && i < |run| && w < |run[i].workers|
    ensures Recorded(max, run, i, w, scans)
  {
    if i == 0 {
      assert run[0].workers[w] == Waiting;
      return [];
    }
    PcMoveAt(max, run, i, w);
    scans := MissesWereScans(max, run, i - 1, w);
    if run[i].workers[w] == run[i - 1].workers[w] {
      NothingNewRecorded(max, run, i, w, scans);
    } else if Misses(run[i].workers[w]) == [] {
      scans := [];
    } else {
      OnlyAFailedScanRecords(run[i - 1], run[i - 1].workers[w], run[i].workers[w]);
      FailedScanAt(max, run, i - 1, w);
      FailedScanRecorded(max, run, i, w, scans, run[i - 1].workers[w].misses, |run[i - 1].Usable()|);
      scans := scans + [i - 1];
    }
  }

  /** The "no available containers" error means that this request scanned ten times, from beginning to
      end without anything in between, and that at each of the scans no container was Idle and fewer
      than `max` usable ones were registered. */
  lemma NoContainerErrorMeansShortPool(max: int, run: seq<Pool>, i: nat, w: nat) returns (scans: seq<nat>)
    requires Behaviour(max, run) && i < |run| && w < |run[i].workers|
    requires run[i].workers[w].Replying? && run[i].workers[w].misses != []
    ensures |scans| == |run[i].workers[w].misses| == 10
    ensures forall j, k :: 0 <= j < k < |scans| ==> scans[j] < scans[k]
    ensures forall k :: 0 <= k < |scans| ==>
              && scans[k] < i && run[scans[k]].With(Idle) == {}
              && run[i].workers[w].misses[k] == |run[scans[k]].Usable()| < max
              && w < |run[scans[k]].workers| && run[scans[k]].workers[w] == Requesting(run[i].workers[w].misses[..k])
    ensures forall n :: scans[0] <= n <= scans[|scans| - 1] ==>
              w < |run[n].workers| && run[n].workers[w].Requesting?
  {
    scans := MissesWereScans(max, run, i, w);
    var misses := run[i].workers[w].misses;
    assert forall k :: 0 <= k < |scans| ==> ShortScan(max, run, scans[k], w, misses[..k], misses[k]);
  }

  // Size.

  /** After initialization the pool never exceeds `max`, although `StartContainer` checks first and
      registers later. The refusal and the excess branch are never taken. */
  lemma SizeBound(max: int, run: seq<Pool>, i: nat)
    requires Behaviour(max, run) && i < |run|
    ensures run[i].started ==> |run[i].containers.Keys| <= max
    ensures run[i].keeper.Refilling? && run[i].keeper.left > 0 ==> |run[i].containers.Keys| < max
    ensures run[i].keeper.Repairing? ==> |run[i].keeper.running| <= max
    ensures run[i].started ==> !run[i].keeper.Trimming?
  {
    Reachable(max, run, i);
  }

  lemma SizeAt(max: int, run: seq<Pool>, i: nat)
    requires Behaviour(max, run) && i < |run|
    ensures SizeOk(max, run[i])
  {
    Reachable(max, run, i);
  }

  lemma AfterTrimming(max: int, s: Pool, t: Pool)
    requires SizeOk(max, s) && DropStep(Trimmed, s, t)
    ensures |t.containers.Keys| == AtLeastZero(max) && t.keeper == Settling
  {
    assert Staying(s) == s.containers.Keys;
  }

  /** When `InitializePool` finds too many containers it ends with exactly `max`. */
  lemma InitializationTrimsToTheLimit(max: int, run: seq<Pool>, i: nat)
    requires Behaviour(max, run) && 0 < i < |run| && DropStep(Trimmed, run[i - 1], run[i])
    ensures |run[i].containers.Keys| == AtLeastZero(max) && run[i].keeper == Settling
  {
    SizeAt(max, run, i - 1);
    AfterTrimming(max, run[i - 1], run[i]);
  }

  /** The pool starts with at least one container, and initialization fails only without any. */
  lemma PoolStartsNonEmpty(max: int, run: seq<Pool>, i: nat)
    requires Behaviour(max, run) && 0 < i < |run|
    ensures run[i].started && !run[i - 1].started ==> run[i].containers != map[]
    ensures run[i].keeper == Failed ==> run[i].containers == map[] && !run[i].started
  {
    Reachable(max, run, i);
    EffectsAt(max, run, i);
  }

  // Leaks.

  /** Every container that Docker still has and the manager created or adopted is in the map, is
      inside `StartContainer`, or had a remove call fail. */
  lemma NoLeak(max: int, run: seq<Pool>, i: nat)
    requires Behaviour(max, run) && i < |run|
    ensures run[i].live * run[i].owned <= run[i].containers.Keys + run[i].keeper.InFlight() + run[i].stuck
  {
    Reachable(max, run, i);
    forall id | id in run[i].live * run[i].owned
      ensures id in run[i].containers.Keys + run[i].keeper.InFlight() + run[i].stuck
    {
      assert Accounted(run[i], id);
    }
  }

  /** When `Shutdown` resets the map, nothing it had registered is still in Docker, failures aside. */
  lemma ShutdownRemovesAll(max: int, run: seq<Pool>, i: nat)
    requires Behaviour(max, run) && 0 < i < |run|
    requires run[i - 1].closer.Clearing? && run[i].closer == Closed
    ensures run[i].containers == map[]
    ensures run[i].live * run[i].owned <= run[i].keeper.InFlight() + run[i].stuck
  {
    EffectsAt(max, run, i);
    NoLeak(max, run, i);
  }

  // What never comes back.

  lemma {:induction false} StaysRegistered(max: int, run: seq<Pool>, i: nat, j: nat)
    requires Behaviour(max, run) && i <= j < |run|
    ensures run[i].registered <= run[j].registered
  {
    if i < j {
      StaysRegistered(max, run, i, j - 1);
      EffectsAt(max, run, j);
    }
  }

  /** No resurrection: an id that has left the map never returns, whatever its job still does. */
  lemma {:induction false} NoResurrection(max: int, run: seq<Pool>, i: nat, j: nat, k: nat, id: Id)
    requires Behaviour(max, run) && i <= j <= k < |run|
    requires id in run[i].containers && id !in run[j].containers
    ensures id !in run[k].containers
  {
    if j < k {
      NoResurrection(max, run, i, j, k - 1, id);
      EffectsAt(max, run, i + 1);
      StaysRegistered(max, run, i, k - 1);
      EffectsAt(max, run, k);
    }
  }

  /** After initialization containers only leave the Error state, by being removed; after one
      health check that got past listing there are none, for good. */
  lemma {:induction false} ErrorsOnlyShrink(max: int, run: seq<Pool>, i: nat, j: nat)
    requires Behaviour(max, run) && i <= j < |run| && run[i].started
    ensures run[j].With(Error) <= run[i].With(Error)
    ensures run[j].started && run[i].checks <= run[j].checks
    ensures run[i].checks > 0 ==> run[j].With(Error) == {}
  {
    if i < j {
      ErrorsOnlyShrink(max, run, i, j - 1);
      EffectsAt(max, run, j);
    } else {
      Reachable(max, run, i);
    }
  }

  // The monitor.

  ghost predicate KeeperCanStep(max: int, s: Pool) {
    || (exists a, t :: CheckStep(max, a, s, t))
    || (exists a, t :: DropStep(a, s, t))
    || (exists a, t :: StartStep(max, a, s, t))
  }

  lemma ScanningGoesOn(max: int, s: Pool)
    requires s.keeper.Scanning? && !s.closer.Clearing?
    ensures KeeperCanStep(max, s)
  {
    var k := s.keeper;
    if k.todo == {} {
      var drop := s.containers.Keys - k.running;
      assert CheckStep(max, Mark, s, s.(keeper := Repairing(drop, None, |s.containers.Keys| - |drop|, k.running)));
    } else {
      var id :| id in k.todo;
      var running := if id in s.Usable() then k.running + {id} else k.running;
      assert CheckStep(max, Scan(id), s, s.(keeper := Scanning(k.todo - {id}, running)));
    }
  }

  lemma RepairingGoesOn(max: int, s: Pool)
    requires s.keeper.Repairing? && |s.keeper.running| <= max
    ensures KeeperCanStep(max, s)
  {
    var k := s.keeper;
    if k.gone.Some? {
      assert DropStep(Drop, s, s.Delete(k.gone.value).(keeper := Repairing(k.drop, None, k.kept, k.running)));
    } else if k.drop != {} {
      var id :| id in k.drop;
      var t := s.DockerRemove(id, true).(keeper := Repairing(k.drop - {id}, Some(id), k.kept, k.running));
      assert DropStep(Remove(id, true), s, t);
    } else if k.kept < max {
      var t := s.(keeper := Refilling(max - k.kept, StartPc.Check), checks := s.checks + 1);
      assert CheckStep(max, Repaired({}), s, t);
    } else {
      assert CheckStep(max, Repaired({}), s, s.(keeper := Ticking, checks := s.checks + 1));
    }
  }

  lemma RefillingGoesOn(max: int, s: Pool)
    requires s.keeper.Refilling? && s.keeper.left > 0 && !s.closer.Clearing?
    ensures KeeperCanStep(max, s)
  {
    var left := s.keeper.left;
    var again := Refilling(left - 1, StartPc.Check);
    match s.keeper.at {
      case Check =>
        var next := if |s.containers.Keys| >= max then again else Refilling(left, Create);
        assert StartStep(max, CheckRoom, s, s.(keeper := next));
      case Create => assert StartStep(max, CreateFails, s, s.(keeper := again));
      case Launch(id) => assert StartStep(max, LaunchFails, s, s.(keeper := Refilling(left, Abort(id))));
      case Abort(id) => assert StartStep(max, GiveUp(true), s, s.DockerRemove(id, true).(keeper := again));
      case Register(id) =>
        var t := s.(containers := s.containers[id := Idle], registered := s.registered + {id}, keeper := again);
        assert StartStep(max, Enter, s, t);
    }
  }

  /** The monitor never ends: once it has been started it is inside its loop in every later state, and
      it always has a next step, unless it has to wait for the lock that `Shutdown` holds. So the
      executor's `wg.Wait`, which counts it, cannot return. */
  lemma MonitorNeverEnds(max: int, run: seq<Pool>, i: nat, j: nat)
    requires Behaviour(max, run) && i <= j < |run| && run[i].started
    ensures var k := run[j].keeper; k.Ticking? || k.Scanning? || k.Repairing? || k.Refilling?
    ensures !run[j].closer.Clearing? ==> KeeperCanStep(max, run[j])
  {
    var s := run[j];
    ErrorsOnlyShrink(max, run, i, j);
    Reachable(max, run, j);
    if !s.closer.Clearing? {
      match s.keeper {
        case Ticking => assert CheckStep(max, List, s, s.(keeper := Scanning(s.live, {})));
        case Scanning(_, _) => ScanningGoesOn(max, s);
        case Repairing(_, _, _, _) => RepairingGoesOn(max, s);
        case Refilling(left, at) =>
          if left == 0 {
            assert StartStep(max, Refilled, s, s.(keeper := Adjusted(s)));
          } else {
            RefillingGoesOn(max, s);
          }
      }
    }
  }
}
