/** Exactly when a container is safe in the hands of a worker. */
module PoolSafety {
  import opened Options
  import opened PoolProtocol
  import opened PoolInvariants
  import opened PoolTheorems

  /** Some helper was started for `id` and has not finished. */
  predicate Watched(s: Pool, id: Id) {
    exists h :: h in s.helpers && s.helpers[h].id == id
  }

  // What a health check picks for removal.

  /** A running container that is not in error is still to be scanned or was found running, so that
      a health check drops only containers that are in error or gone from Docker. */
  ghost predicate ScanOk(s: Pool) {
    && (s.keeper.Scanning? ==> forall id :: id in s.Usable() && id in s.live ==>
          id in s.keeper.todo || id in s.keeper.running)
    && (s.keeper.Repairing? ==> forall id :: id in s.keeper.drop + s.keeper.Gone() && id in s.live ==>
          id !in s.Usable())
  }

  /** Threads other than the keeper make no usable container out of anything else. */
  lemma ScanKept(s: Pool, t: Pool)
    requires ScanOk(s) && t.keeper == s.keeper && t.Usable() <= s.Usable()
    requires forall id :: id in t.Usable() && id in t.live ==> id in s.live
    ensures ScanOk(t)
  {
  }

  lemma CheckKeepsScan(max: int, a: CheckAct, s: Pool, t: Pool)
    requires ScanOk(s) && CheckStep(max, a, s, t)
    ensures ScanOk(t)
  {
    assert t.Usable() == s.Usable();
  }

  lemma DropKeepsScan(a: DropAct, s: Pool, t: Pool)
    requires ScanOk(s) && DropStep(a, s, t)
    ensures ScanOk(t)
  {
    assert t.Usable() <= s.Usable();
  }

  lemma WorkerKeepsScan(w: nat, a: WorkerAct, s: Pool, t: Pool)
    requires ScanOk(s) && HoldingOk(s) && WorkerStep(w, a, s, t)
    ensures ScanOk(t)
  {
    if s.workers[w].Hand().Some? {
      assert HeldBy(s, w, s.workers[w].Hand().value);
    }
    ScanKept(s, t);
  }

  lemma SetupKeepsScan(max: int, a: SetupAct, s: Pool, t: Pool)
    requires SetupStep(max, a, s, t)
    ensures ScanOk(t)
  {
  }

  lemma StartKeepsScan(max: int, a: StartAct, s: Pool, t: Pool)
    requires StartStep(max, a, s, t)
    ensures ScanOk(t)
  {
  }

  lemma HelperKeepsScan(h: nat, a: HelperAct, s: Pool, t: Pool)
    requires ScanOk(s) && HelperStep(h, a, s, t)
    ensures ScanOk(t)
  {
    ScanKept(s, t);
  }

  lemma CloserKeepsScan(a: CloserAct, s: Pool, t: Pool)
    requires ScanOk(s) && CloserStep(a, s, t)
    ensures ScanOk(t)
  {
    ScanKept(s, t);
  }

  /** Docker never gives a new container the id of a registered one. */
  lemma DockerKeepsScan(max: int, a: Action, s: Pool, t: Pool)
    requires ScanOk(s) && IdsOk(s) && (a.Vanish? || a.Appear?) && Step(max, a, s, t)
    ensures ScanOk(t)
  {
    assert t.containers == s.containers && t.keeper == s.keeper;
    ScanKept(s, t);
  }

  lemma StepKeepsScan(max: int, a: Action, s: Pool, t: Pool)
    requires IdsOk(s) && HoldingOk(s) && ScanOk(s) && Step(max, a, s, t)
    ensures ScanOk(t)
  {
    match a {
      case Setup(b) => SetupKeepsScan(max, b, s, t);
      case Check(b) => CheckKeepsScan(max, b, s, t);
      case Removal(b) => DropKeepsScan(b, s, t);
      case Start(b) => StartKeepsScan(max, b, s, t);
      case Worker(w, b) => WorkerKeepsScan(w, b, s, t);
      case Helper(h, b) => HelperKeepsScan(h, b, s, t);
      case Closer(b) => CloserKeepsScan(b, s, t);
      case Vanish(_) => DockerKeepsScan(max, a, s, t);
      case Appear(_) => DockerKeepsScan(max, a, s, t);
    }
  }

  lemma HoldingAt(max: int, run: seq<Pool>, i: nat)
    requires Behaviour(max, run) && i < |run|
    ensures IdsOk(run[i]) && HoldingOk(run[i])
  {
    Reachable(max, run, i);
  }

  lemma InitialScan(max: int, s: Pool)
    requires Initial(max, s)
    ensures ScanOk(s)
  {
  }

  /** What a health check drops is in error or gone from Docker, at every moment of every run. */
  lemma {:induction false} ScanReachable(max: int, run: seq<Pool>, i: nat)
    requires Behaviour(max, run) && i < |run|
    ensures ScanOk(run[i])
  {
    if i == 0 {
      InitialScan(max, run[0]);
    } else {
      ScanReachable(max, run, i - 1);
      HoldingAt(max, run, i - 1);
      assert StepAt(max, run, i);
      var s, t := run[i - 1], run[i];
      var a :| Step(max, a, s, t);
      StepKeepsScan(max, a, s, t);
    }
  }

  // What nobody removes.

  /** A registered container that Docker runs, that is not in error and that no helper watches. */
  ghost predicate Healthy(s: Pool, id: Id) {
    id in s.Usable() && id in s.live && !Watched(s, id)
  }

  ghost predicate Present(s: Pool, id: Id) {
    id in s.Usable() && id in s.live
  }

  lemma CheckSparesHealthy(max: int, a: CheckAct, s: Pool, t: Pool, id: Id)
    requires Healthy(s, id) && CheckStep(max, a, s, t)
    ensures Present(t, id)
  {
    CheckMovesTheKeeper(max, a, s, t);
  }

  lemma DropSparesHealthy(a: DropAct, s: Pool, t: Pool, id: Id)
    requires ScanOk(s) && Healthy(s, id) && !s.keeper.Trimming? && DropStep(a, s, t)
    ensures Present(t, id)
  {
    assert id !in s.keeper.Dropping() + s.keeper.Gone();
  }

  lemma StartSparesHealthy(max: int, a: StartAct, s: Pool, t: Pool, id: Id)
    requires IdsOk(s) && Healthy(s, id) && StartStep(max, a, s, t)
    ensures Present(t, id)
  {
    assert id !in s.keeper.InFlight();
  }

  lemma WorkerSparesHealthy(w: nat, a: WorkerAct, s: Pool, t: Pool, id: Id)
    requires Healthy(s, id) && WorkerStep(w, a, s, t)
    ensures Present(t, id)
  {
    assert t.live == s.live;
  }

  lemma HelperSparesHealthy(h: nat, a: HelperAct, s: Pool, t: Pool, id: Id)
    requires Healthy(s, id) && HelperStep(h, a, s, t)
    ensures Present(t, id)
  {
    assert s.helpers[h].id != id;
  }

  /** `InitializePool` has ended. */
  lemma NoSetupOnceStarted(max: int, a: SetupAct, s: Pool, t: Pool)
    requires PhaseOk(max, s) && s.started
    ensures !SetupStep(max, a, s, t)
  {
  }

  lemma StepSparesHealthy(max: int, a: Action, s: Pool, t: Pool, id: Id)
    requires Inv(max, s) && ScanOk(s) && s.started && s.closer == Open && Healthy(s, id)
    requires Step(max, a, s, t) && a != Vanish(id)
    ensures Present(t, id)
  {
    match a {
      case Setup(b) => NoSetupOnceStarted(max, b, s, t);
      case Check(b) => CheckSparesHealthy(max, b, s, t, id);
      case Removal(b) => DropSparesHealthy(b, s, t, id);
      case Start(b) => StartSparesHealthy(max, b, s, t, id);
      case Worker(w, b) => WorkerSparesHealthy(w, b, s, t, id);
      case Helper(h, b) => HelperSparesHealthy(h, b, s, t, id);
      case Closer(b) => assert t.containers == s.containers && t.live == s.live;
      case Vanish(_) =>
      case Appear(_) =>
    }
  }

  /** After initialization nothing but a helper of its own, `Shutdown` or Docker itself takes away a
      container that runs and is not in error. */
  lemma HealthyStays(max: int, run: seq<Pool>, i: nat, a: Action, id: Id)
    requires Behaviour(max, run) && 0 < i < |run| && Step(max, a, run[i - 1], run[i]) && a != Vanish(id)
    requires run[i - 1].started && run[i - 1].closer == Open && Healthy(run[i - 1], id)
    ensures id in run[i].containers && run[i].containers[id] != Error && id in run[i].live
  {
    Reachable(max, run, i - 1);
    ScanReachable(max, run, i - 1);
    StepSparesHealthy(max, a, run[i - 1], run[i], id);
  }

  // How a run may go on while worker `w` keeps container `id`.

  /** The steps of everyone but worker `w`, `Shutdown`, and Docker losing `id` on its own. */
  predicate Spares(a: Action, w: nat, id: Id) {
    match a
    case Worker(v, _) => v != w
    case Closer(_) => false
    case Vanish(lost) => lost != id
    case _ => true
  }

  datatype Path = Here(s: Pool) | Then(before: Path, a: Action, s: Pool)

  ghost predicate Leads(max: int, from: Pool, p: Path, w: nat, id: Id) {
    match p
    case Here(s) => s == from
    case Then(before, a, s) => Leads(max, from, before, w, id) && Step(max, a, before.s, s) && Spares(a, w, id)
  }

  ghost predicate CanLose(max: int, s: Pool, w: nat, id: Id) {
    exists p :: Leads(max, s, p, w, id) && HeldBy(p.s, w, id) && id !in p.s.containers
  }

  /** Worker `w` holds `id`, a registered container that Docker runs, and `Shutdown` has not been called. */
  ghost predicate Holding(s: Pool, w: nat, id: Id) {
    s.started && s.closer == Open && HeldBy(s, w, id) && id in s.containers && id in s.live
  }

  // Without a helper nothing takes it away.

  ghost predicate Secure(s: Pool, w: nat, id: Id) {
    Holding(s, w, id) && !Watched(s, id)
  }

  /** No one else holds what `w` holds, and it is Busy, so no health check drops it. */
  lemma HeldIsBusy(s: Pool, w: nat, id: Id)
    requires HoldingOk(s) && HeldBy(s, w, id) && id in s.containers
    ensures s.containers[id] == Busy
    ensures forall v :: HeldBy(s, v, id) ==> v == w
  {
    assert SomeoneHolds(s, id);
  }

  lemma DropLeavesIt(a: DropAct, s: Pool, t: Pool, w: nat, id: Id)
    requires ScanOk(s) && Secure(s, w, id) && s.containers[id] == Busy && !s.keeper.Trimming?
    requires DropStep(a, s, t)
    ensures Secure(t, w, id)
  {
    assert id in s.Usable() && id !in s.keeper.Dropping() + s.keeper.Gone();
  }

  lemma CheckLeavesIt(max: int, a: CheckAct, s: Pool, t: Pool, w: nat, id: Id)
    requires Secure(s, w, id) && CheckStep(max, a, s, t)
    ensures Secure(t, w, id)
  {
    assert t == s.(keeper := t.keeper, checks := t.checks);
  }

  lemma StartLeavesIt(max: int, a: StartAct, s: Pool, t: Pool, w: nat, id: Id)
    requires IdsOk(s) && Secure(s, w, id) && StartStep(max, a, s, t)
    ensures Secure(t, w, id)
  {
    assert t.workers == s.workers && t.helpers == s.helpers && t.closer == s.closer && t.started == s.started;
    assert id !in s.keeper.InFlight();
  }

  lemma WorkerLeavesIt(v: nat, a: WorkerAct, s: Pool, t: Pool, w: nat, id: Id)
    requires HoldingOk(s) && Secure(s, w, id) && v != w && WorkerStep(v, a, s, t)
    ensures Secure(t, w, id)
  {
    HeldIsBusy(s, w, id);
    assert !HeldBy(s, v, id);
    assert t.workers[w] == s.workers[w];
  }

  lemma HelperLeavesIt(h: nat, a: HelperAct, s: Pool, t: Pool, w: nat, id: Id)
    requires Secure(s, w, id) && HelperStep(h, a, s, t)
    ensures Secure(t, w, id)
  {
    assert s.helpers[h].id != id;
  }

  lemma OthersLeaveIt(max: int, a: Action, s: Pool, t: Pool, w: nat, id: Id)
    requires Inv(max, s) && ScanOk(s) && Secure(s, w, id) && Step(max, a, s, t) && Spares(a, w, id)
    ensures Secure(t, w, id)
  {
    HeldIsBusy(s, w, id);
    match a {
      case Setup(b) => NoSetupOnceStarted(max, b, s, t);
      case Check(b) => CheckLeavesIt(max, b, s, t, w, id);
      case Removal(b) => DropLeavesIt(b, s, t, w, id);
      case Start(b) => StartLeavesIt(max, b, s, t, w, id);
      case Worker(v, b) => WorkerLeavesIt(v, b, s, t, w, id);
      case Helper(h, b) => HelperLeavesIt(h, b, s, t, w, id);
      case Vanish(_) =>
      case Appear(_) =>
    }
  }

  /** A container that no helper watches stays in the map and in Docker, Busy, for as long as its worker
      holds it. */
  lemma {:induction false} UnwatchedStays(max: int, s: Pool, p: Path, w: nat, id: Id)
    requires Inv(max, s) && ScanOk(s) && Secure(s, w, id) && Leads(max, s, p, w, id)
    ensures Inv(max, p.s) && ScanOk(p.s) && Secure(p.s, w, id)
    ensures p.s.containers[id] == Busy
  {
    if p.Then? {
      UnwatchedStays(max, s, p.before, w, id);
      StepKeeps(max, p.a, p.before.s, p.s);
      StepKeepsScan(max, p.a, p.before.s, p.s);
      OthersLeaveIt(max, p.a, p.before.s, p.s, w, id);
    }
    HeldIsBusy(p.s, w, id);
  }

  // With a helper it can go at any moment.

  lemma HelperActs(max: int, s: Pool, p: Path, h: nat, a: HelperAct, t: Pool, w: nat, id: Id) returns (q: Path)
    requires Leads(max, s, p, w, id) && HelperStep(h, a, p.s, t)
    ensures Leads(max, s, q, w, id) && q.s == t
  {
    q := Then(p, Helper(h, a), t);
  }

  /** Wherever the helper stands, its own remaining steps remove the container. */
  lemma HelperStrikes(max: int, s: Pool, h: nat, w: nat, id: Id) returns (p: Path)
    requires h in s.helpers && s.helpers[h].id == id
    ensures Leads(max, s, p, w, id) && p.s.workers == s.workers && id !in p.s.containers
  {
    p := Here(s);
    if p.s.helpers[h].Watching? {
      p := HelperActs(max, s, p, h, Outsurge, p.s.(helpers := p.s.helpers[h := Removing(id)]), w, id);
    }
    if p.s.helpers[h].Removing? {
      var t := p.s.DockerRemove(id, true).(helpers := p.s.helpers[h := Deleting(id)]);
      p := HelperActs(max, s, p, h, RemoveIt(true), t, w, id);
    }
    p := HelperActs(max, s, p, h, DeleteIt, p.s.Delete(id).(helpers := p.s.helpers - {h}), w, id);
  }

  /** In every reachable state: a container that a worker holds can be taken away from it by the rest
      of the system if and only if some helper was started for it and has not finished. Without such
      a helper it stays in the map and in Docker however long the worker keeps it. */
  lemma LostExactlyWhenWatched(max: int, run: seq<Pool>, i: nat, w: nat, id: Id)
    requires Behaviour(max, run) && i < |run| && Holding(run[i], w, id)
    ensures CanLose(max, run[i], w, id) <==> Watched(run[i], id)
    ensures !Watched(run[i], id) ==> forall p :: Leads(max, run[i], p, w, id) ==> Secure(p.s, w, id)
  {
    var s := run[i];
    Reachable(max, run, i);
    ScanReachable(max, run, i);
    if Watched(s, id) {
      var h :| h in s.helpers && s.helpers[h].id == id;
      var p := HelperStrikes(max, s, h, w, id);
      assert HeldBy(p.s, w, id);
    } else {
      forall p | Leads(max, s, p, w, id) ensures Secure(p.s, w, id) {
        UnwatchedStays(max, s, p, w, id);
      }
    }
  }
}
