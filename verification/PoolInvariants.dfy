/** What every step of the container pool keeps. */
module PoolInvariants {
  import opened Options
  import opened Counting
  import opened PoolProtocol

  // Identifiers.

  ghost predicate IdsOk(s: Pool) {
    && s.containers.Keys <= s.registered <= s.owned <= s.used && s.live <= s.used
    && s.keeper.InFlight() <= s.owned && s.keeper.InFlight() !! s.registered
    && (s.keeper.Adopting? ==> s.keeper.found.Keys <= s.used && s.keeper.found.Keys !! s.registered)
    && s.keeper.Dropping() + s.keeper.Gone() <= s.registered
  }

  ghost predicate CrewIdsOk(s: Pool) {
    && (forall w, id :: HeldBy(s, w, id) ==> id in s.registered)
    && (forall h :: h in s.helpers ==> s.helpers[h].id in s.registered)
    && (s.closer.Clearing? ==> s.closer.todo <= s.registered)
  }

  predicate HeldBy(s: Pool, w: int, id: Id) {
    0 <= w < |s.workers| && s.workers[w].Hand() == Some(id)
  }

  predicate SameHands(s: Pool, t: Pool) {
    |t.workers| == |s.workers| && forall w :: 0 <= w < |s.workers| ==> t.workers[w].Hand() == s.workers[w].Hand()
  }

  /** Monitor, workers and helpers run only after a successful `InitializePool`, and workers stop only
      after `Shutdown` has been called. */
  ghost predicate PhaseOk(max: int, s: Pool) {
    && |s.workers| == AtLeastZero(max)
    && (s.closer == Open ==> forall w :: 0 <= w < |s.workers| ==> s.workers[w] != Stopped)
    && (s.started ==>
          || s.keeper.Ticking? || s.keeper.Scanning? || s.keeper.Repairing? || s.keeper.Refilling?
          || s.keeper.Trimming?)
    && (!s.started ==>
          && !s.keeper.Ticking? && !s.keeper.Scanning? && !s.keeper.Repairing?
          && s.helpers == map[] && s.closer == Open && s.checks == 0
          && forall w :: 0 <= w < |s.workers| ==> s.workers[w] == Waiting)
    && (s.keeper.Listing? || s.keeper.Failed? ==> s.containers == map[])
    && (s.keeper.Listing? ==> s.registered == {})
    && (s.keeper.Adopting? ==> forall id :: id in s.keeper.found ==> s.keeper.found[id] != Busy)
  }

  // Exclusive holding.

  ghost predicate SomeoneHolds(s: Pool, id: Id) {
    exists w :: HeldBy(s, w, id)
  }

  /** No two workers hold one container, and a registered one is Busy exactly while it is held. */
  ghost predicate HoldingOk(s: Pool) {
    && (forall v, w, id :: HeldBy(s, v, id) && HeldBy(s, w, id) ==> v == w)
    && (forall id :: id in s.containers ==> (s.containers[id] == Busy <==> SomeoneHolds(s, id)))
  }

  // Size.

  /** The entries that the current round of removals leaves alone. */
  function Staying(s: Pool): set<Id> {
    s.containers.Keys - s.keeper.Dropping() - s.keeper.Gone()
  }

  function AtLeastZero(n: int): nat {
    if n < 0 then 0 else n
  }

  ghost predicate SizeOk(max: int, s: Pool) {
    var k, size := s.keeper, |s.containers.Keys|;
    && (s.started ==> size <= max && !k.Trimming?)
    && (k.Trimming? ==> |Staying(s)| == AtLeastZero(max))
    && (k.Settling? ==> size <= AtLeastZero(max))
    && (k.Refilling? ==> size + k.left <= max && (k.at == StartPc.Check || k.left > 0))
    && (k.Scanning? ==> |k.running + s.containers.Keys| <= max)
    && (k.Repairing? ==> |Staying(s)| <= k.kept <= max && |k.running| <= max)
  }

  // Leaks.

  predicate Accounted(s: Pool, id: Id) {
    id in s.containers || id in s.keeper.InFlight() || id in s.stuck
  }

  ghost predicate LeakOk(s: Pool) {
    && (forall id :: id in s.live && id in s.owned ==> Accounted(s, id))
    && (forall id :: id in s.keeper.Gone() && id in s.live ==> id in s.stuck)
    && (forall h :: h in s.helpers && s.helpers[h].Deleting? && s.helpers[h].id in s.live ==>
          s.helpers[h].id in s.stuck)
    && (s.closer.Clearing? ==>
          forall id :: id in s.containers && id in s.live && id !in s.closer.todo ==> id in s.stuck)
  }

  // The Error state.

  ghost predicate ErrorsOk(s: Pool) {
    && (s.keeper.Scanning? ==> s.keeper.running !! s.With(Error))
    && (s.keeper.Repairing? ==> s.With(Error) <= s.keeper.drop + s.keeper.Gone())
    && (s.checks > 0 ==> s.With(Error) == {})
  }

  ghost predicate Inv(max: int, s: Pool) {
    IdsOk(s) && CrewIdsOk(s) && PhaseOk(max, s) && HoldingOk(s) && SizeOk(max, s) && LeakOk(s) && ErrorsOk(s)
  }

  lemma InitialInv(max: int, s: Pool)
    requires Initial(max, s)
    ensures Inv(max, s)
  {
  }

  /** Registered ids stay registered, so the rest of the crew is not disturbed by other threads. */
  lemma CrewIdsKept(s: Pool, t: Pool)
    requires CrewIdsOk(s) && SameHands(s, t) && s.registered <= t.registered
    requires t.helpers == s.helpers && t.closer == s.closer
    ensures CrewIdsOk(t)
  {
    assert forall w, id :: HeldBy(t, w, id) <==> HeldBy(s, w, id);
  }

  // The steps of the keeper.

  lemma AdoptKeepsIds(max: int, id: Id, s: Pool, t: Pool)
    requires IdsOk(s) && SetupStep(max, Adopt(id), s, t)
    ensures IdsOk(t)
  {
  }

  lemma SetupKeepsIds(max: int, a: SetupAct, s: Pool, t: Pool)
    requires IdsOk(s) && PhaseOk(max, s) && SetupStep(max, a, s, t)
    ensures IdsOk(t)
  {
    if a.Adopt? {
      AdoptKeepsIds(max, a.id, s, t);
    } else {
      assert t.containers == s.containers && t.registered == s.registered && t.owned == s.owned;
      assert t.keeper.Dropping() <= s.containers.Keys && t.keeper.Gone() == t.keeper.InFlight() == {};
    }
  }

  lemma SetupKeepsPhase(max: int, a: SetupAct, s: Pool, t: Pool)
    requires PhaseOk(max, s) && SetupStep(max, a, s, t)
    ensures PhaseOk(max, t)
  {
  }

  lemma CheckMovesTheKeeper(max: int, a: CheckAct, s: Pool, t: Pool)
    requires CheckStep(max, a, s, t)
    ensures t == s.(keeper := t.keeper, checks := t.checks) && !t.keeper.Adopting?
    ensures t.keeper.Dropping() <= s.containers.Keys && t.keeper.Gone() == t.keeper.InFlight() == {}
  {
    match a {
      case List => assert t.keeper.Scanning?;
      case Scan(id) => assert t.keeper.Scanning?;
      case Mark => assert t.keeper.Repairing? && t.keeper.gone == None;
      case Repaired(drop) => assert t.keeper.Trimming? ==> t.keeper.drop <= s.containers.Keys && t.keeper.gone == None;
    }
  }

  lemma CheckKeepsIds(max: int, a: CheckAct, s: Pool, t: Pool)
    requires IdsOk(s) && CheckStep(max, a, s, t)
    ensures IdsOk(t)
  {
    CheckMovesTheKeeper(max, a, s, t);
  }

  lemma CheckKeepsPhase(max: int, a: CheckAct, s: Pool, t: Pool)
    requires PhaseOk(max, s) && CheckStep(max, a, s, t)
    ensures PhaseOk(max, t)
  {
  }

  lemma DropKeepsIds(max: int, a: DropAct, s: Pool, t: Pool)
    requires IdsOk(s) && PhaseOk(max, s) && DropStep(a, s, t)
    ensures IdsOk(t) && PhaseOk(max, t)
  {
  }

  lemma StartKeepsIds(max: int, a: StartAct, s: Pool, t: Pool)
    requires IdsOk(s) && PhaseOk(max, s) && StartStep(max, a, s, t)
    ensures IdsOk(t) && PhaseOk(max, t)
  {
  }

  /** Entries may go, and entries nobody holds may come, as long as the hands stay as they are. */
  lemma HoldingKept(s: Pool, t: Pool)
    requires HoldingOk(s) && SameHands(s, t)
    requires forall id :: id in t.containers ==>
               || (id in s.containers && t.containers[id] == s.containers[id])
               || (t.containers[id] != Busy && !SomeoneHolds(s, id))
    ensures HoldingOk(t)
  {
    assert forall w, id :: HeldBy(t, w, id) <==> HeldBy(s, w, id);
    assert forall id :: SomeoneHolds(t, id) <==> SomeoneHolds(s, id);
  }

  lemma SetupKeepsHolding(max: int, a: SetupAct, s: Pool, t: Pool)
    requires IdsOk(s) && CrewIdsOk(s) && PhaseOk(max, s) && HoldingOk(s) && SetupStep(max, a, s, t)
    ensures HoldingOk(t) && CrewIdsOk(t)
  {
    if a.Adopt? {
      assert !SomeoneHolds(s, a.id);
    }
    HoldingKept(s, t);
    CrewIdsKept(s, t);
  }

  lemma CheckKeepsHolding(max: int, a: CheckAct, s: Pool, t: Pool)
    requires CrewIdsOk(s) && HoldingOk(s) && CheckStep(max, a, s, t)
    ensures HoldingOk(t) && CrewIdsOk(t)
  {
    HoldingKept(s, t);
    CrewIdsKept(s, t);
  }

  lemma DropKeepsHolding(a: DropAct, s: Pool, t: Pool)
    requires CrewIdsOk(s) && HoldingOk(s) && DropStep(a, s, t)
    ensures HoldingOk(t) && CrewIdsOk(t)
  {
    HoldingKept(s, t);
    CrewIdsKept(s, t);
  }

  lemma StartKeepsHolding(max: int, a: StartAct, s: Pool, t: Pool)
    requires IdsOk(s) && CrewIdsOk(s) && HoldingOk(s) && StartStep(max, a, s, t)
    ensures HoldingOk(t) && CrewIdsOk(t)
  {
    if a.Enter? {
      assert !SomeoneHolds(s, s.keeper.at.id);
    }
    HoldingKept(s, t);
    CrewIdsKept(s, t);
  }

  lemma SetupKeepsSize(max: int, a: SetupAct, s: Pool, t: Pool)
    requires PhaseOk(max, s) && SizeOk(max, s) && SetupStep(max, a, s, t)
    ensures SizeOk(max, t)
  {
  }

  lemma MarkSplits(keys: set<Id>, running: set<Id>)
    ensures |keys - (keys - running)| == |keys| - |keys - running|
    ensures |keys - (keys - running)| <= |running + keys| && |running| <= |running + keys|
  {
    assert keys == (keys - running) + (keys - (keys - running));
    SubsetSize(running, running + keys);
    SubsetSize(keys - (keys - running), running + keys);
  }

  lemma ListKeepsSize(max: int, s: Pool, t: Pool)
    requires PhaseOk(max, s) && SizeOk(max, s) && CheckStep(max, List, s, t)
    ensures SizeOk(max, t)
  {
    assert s.started && t.keeper.running + t.containers.Keys == s.containers.Keys;
  }

  lemma ScanAddsNoIds(max: int, id: Id, s: Pool, t: Pool)
    requires CheckStep(max, Scan(id), s, t)
    ensures t == s.(keeper := t.keeper) && s.keeper.Scanning? && t.keeper.Scanning?
    ensures t.keeper.running + s.containers.Keys == s.keeper.running + s.containers.Keys
  {
    if id in s.Usable() {
      assert id in s.containers.Keys;
    }
  }

  lemma ScanKeepsSize(max: int, id: Id, s: Pool, t: Pool)
    requires SizeOk(max, s) && CheckStep(max, Scan(id), s, t)
    ensures SizeOk(max, t)
  {
    ScanAddsNoIds(max, id, s, t);
  }

  lemma MarkKeepsSize(max: int, s: Pool, t: Pool)
    requires SizeOk(max, s) && CheckStep(max, Mark, s, t)
    ensures SizeOk(max, t)
  {
    MarkSplits(s.containers.Keys, s.keeper.running);
    assert Staying(t) == s.containers.Keys - (s.containers.Keys - s.keeper.running);
  }

  lemma RepairedKeepsSize(max: int, drop: set<Id>, s: Pool, t: Pool)
    requires PhaseOk(max, s) && SizeOk(max, s) && CheckStep(max, Repaired(drop), s, t)
    ensures SizeOk(max, t)
  {
    assert Staying(s) == s.containers.Keys;
  }

  lemma CheckKeepsSize(max: int, a: CheckAct, s: Pool, t: Pool)
    requires PhaseOk(max, s) && SizeOk(max, s) && CheckStep(max, a, s, t)
    ensures SizeOk(max, t)
  {
    match a {
      case List => ListKeepsSize(max, s, t);
      case Scan(id) => ScanKeepsSize(max, id, s, t);
      case Mark => MarkKeepsSize(max, s, t);
      case Repaired(drop) => RepairedKeepsSize(max, drop, s, t);
    }
  }

  lemma StayingKept(a: DropAct, s: Pool, t: Pool)
    requires DropStep(a, s, t)
    ensures Staying(t) == if a.Trimmed? then s.containers.Keys else Staying(s)
    ensures t.containers.Keys <= s.containers.Keys
  {
  }

  lemma DropKeepsSize(max: int, a: DropAct, s: Pool, t: Pool)
    requires PhaseOk(max, s) && SizeOk(max, s) && DropStep(a, s, t)
    ensures SizeOk(max, t)
  {
    StayingKept(a, s, t);
    SubsetSize(t.containers.Keys, s.containers.Keys);
  }

  lemma StartKeepsSize(max: int, a: StartAct, s: Pool, t: Pool)
    requires PhaseOk(max, s) && SizeOk(max, s) && StartStep(max, a, s, t)
    ensures SizeOk(max, t)
  {
  }

  lemma AdoptKeepsLeak(max: int, id: Id, s: Pool, t: Pool)
    requires PhaseOk(max, s) && LeakOk(s) && SetupStep(max, Adopt(id), s, t)
    ensures LeakOk(t)
  {
    assert forall i :: Accounted(s, i) ==> Accounted(t, i);
  }

  lemma SetupKeepsLeak(max: int, a: SetupAct, s: Pool, t: Pool)
    requires PhaseOk(max, s) && LeakOk(s) && SetupStep(max, a, s, t)
    ensures LeakOk(t)
  {
    if a.Adopt? {
      AdoptKeepsLeak(max, a.id, s, t);
    } else {
      assert forall i :: Accounted(s, i) <==> Accounted(t, i);
    }
  }

  /** A step that changes nothing but where the keeper stands leaks nothing. */
  lemma LeakKept(s: Pool, t: Pool)
    requires LeakOk(s) && t == s.(keeper := t.keeper, checks := t.checks)
    requires s.keeper.InFlight() == {} == t.keeper.Gone()
    ensures LeakOk(t)
  {
  }

  lemma CheckKeepsLeak(max: int, a: CheckAct, s: Pool, t: Pool)
    requires LeakOk(s) && CheckStep(max, a, s, t)
    ensures LeakOk(t)
  {
    CheckMovesTheKeeper(max, a, s, t);
    LeakKept(s, t);
  }

  lemma DropKeepsLeak(a: DropAct, s: Pool, t: Pool)
    requires LeakOk(s) && DropStep(a, s, t)
    ensures LeakOk(t)
  {
  }

  /** A new container carries an id that no thread knows yet. */
  lemma CreateKeepsLeak(max: int, id: Id, s: Pool, t: Pool)
    requires IdsOk(s) && CrewIdsOk(s) && LeakOk(s) && StartStep(max, CreateOk(id), s, t)
    ensures LeakOk(t)
  {
  }

  lemma StartKeepsLeak(max: int, a: StartAct, s: Pool, t: Pool)
    requires IdsOk(s) && CrewIdsOk(s) && LeakOk(s) && StartStep(max, a, s, t)
    ensures LeakOk(t)
  {
    if a.CreateOk? {
      CreateKeepsLeak(max, a.id, s, t);
    } else {
      assert t.live <= s.live && t.owned == s.owned && s.stuck <= t.stuck;
    }
  }

  lemma SetupKeepsErrors(max: int, a: SetupAct, s: Pool, t: Pool)
    requires PhaseOk(max, s) && ErrorsOk(s) && SetupStep(max, a, s, t)
    ensures ErrorsOk(t)
  {
  }

  lemma CheckKeepsErrors(max: int, a: CheckAct, s: Pool, t: Pool)
    requires ErrorsOk(s) && CheckStep(max, a, s, t)
    ensures ErrorsOk(t)
  {
  }

  lemma DropKeepsErrors(a: DropAct, s: Pool, t: Pool)
    requires ErrorsOk(s) && DropStep(a, s, t)
    ensures ErrorsOk(t)
  {
    assert t.With(Error) <= s.With(Error);
    if a.Drop? {
      assert s.keeper.gone.value !in t.With(Error);
    }
  }

  lemma StartKeepsErrors(max: int, a: StartAct, s: Pool, t: Pool)
    requires ErrorsOk(s) && StartStep(max, a, s, t)
    ensures ErrorsOk(t)
  {
  }

  // The steps of the workers.

  lemma WorkerKeepsPhase(max: int, w: nat, a: WorkerAct, s: Pool, t: Pool)
    requires PhaseOk(max, s) && WorkerStep(w, a, s, t)
    ensures PhaseOk(max, t)
  {
  }

  lemma WorkerKeepsIds(max: int, w: nat, a: WorkerAct, s: Pool, t: Pool)
    requires IdsOk(s) && CrewIdsOk(s) && WorkerStep(w, a, s, t)
    ensures IdsOk(t) && t.containers.Keys == s.containers.Keys && t.keeper == s.keeper
    ensures CrewIdsOk(t)
  {
    WorkerAddsNoIds(w, a, s, t);
    forall v, id | HeldBy(t, v, id) ensures id in t.registered {
      assert HeldBy(s, v, id) || (v == w && id in s.containers.Keys);
    }
  }

  /** A worker hands on only ids that are in the map or in its own hand. */
  lemma WorkerAddsNoIds(w: nat, a: WorkerAct, s: Pool, t: Pool)
    requires WorkerStep(w, a, s, t)
    ensures t == s.(containers := t.containers, workers := s.workers[w := t.workers[w]], helpers := t.helpers)
    ensures t.containers.Keys == s.containers.Keys
    ensures t.workers[w].Hand().Some? ==>
              t.workers[w].Hand() == s.workers[w].Hand() || t.workers[w].Hand().value in s.containers
    ensures forall h :: h in t.helpers ==>
              (h in s.helpers && t.helpers[h] == s.helpers[h]) || HeldBy(s, w, t.helpers[h].id)
  {
    var id := if s.workers[w].Hand().Some? then s.workers[w].Hand().value else 0;
    assert s.workers[w].Hand().Some? ==> HeldBy(s, w, id);
    assert t.workers == s.workers[w := t.workers[w]];
    if a.Hit? {
      assert t.containers == s.containers[a.id := Busy] && a.id in s.containers.Keys;
    }
  }

  /** Every other step of a worker leaves the hands and the map as they are. */
  lemma QuietWorkerStep(w: nat, a: WorkerAct, s: Pool, t: Pool)
    requires HoldingOk(s) && WorkerStep(w, a, s, t) && !a.Hit? && !a.SetIdle?
    ensures SameHands(s, t) && t.containers == s.containers
  {
    if a.SetBusy? {
      assert HeldBy(s, w, s.workers[w].id);
    }
  }

  lemma HitKeepsHolding(w: nat, id: Id, s: Pool, t: Pool)
    requires HoldingOk(s) && WorkerStep(w, Hit(id), s, t)
    ensures HoldingOk(t)
  {
    assert !SomeoneHolds(s, id);
    assert forall v, i :: HeldBy(t, v, i) <==> (if v == w then i == id else HeldBy(s, v, i));
    assert HeldBy(t, w, id);
    forall i | i != id ensures SomeoneHolds(t, i) <==> SomeoneHolds(s, i) {
      if SomeoneHolds(s, i) {
        var v :| HeldBy(s, v, i);
        assert HeldBy(t, v, i);
      }
    }
  }

  lemma SetIdleKeepsHolding(w: nat, s: Pool, t: Pool)
    requires HoldingOk(s) && WorkerStep(w, SetIdle, s, t)
    ensures HoldingOk(t)
  {
    var id := s.workers[w].id;
    assert HeldBy(s, w, id);
    assert forall v, i :: HeldBy(t, v, i) <==> v != w && HeldBy(s, v, i);
    assert !SomeoneHolds(t, id);
    forall i | i != id ensures SomeoneHolds(t, i) <==> SomeoneHolds(s, i) {
      if SomeoneHolds(s, i) {
        var v :| HeldBy(s, v, i);
        assert HeldBy(t, v, i);
      }
    }
  }

  lemma WorkerKeepsHolding(w: nat, a: WorkerAct, s: Pool, t: Pool)
    requires HoldingOk(s) && WorkerStep(w, a, s, t)
    ensures HoldingOk(t)
  {
    if a.Hit? {
      HitKeepsHolding(w, a.id, s, t);
    } else if a.SetIdle? {
      SetIdleKeepsHolding(w, s, t);
    } else {
      QuietWorkerStep(w, a, s, t);
      HoldingKept(s, t);
    }
  }

  lemma WorkerKeepsLeak(w: nat, a: WorkerAct, s: Pool, t: Pool)
    requires LeakOk(s) && WorkerStep(w, a, s, t)
    ensures LeakOk(t)
  {
    assert t.containers.Keys == s.containers.Keys;
  }

  lemma WorkerKeepsErrors(w: nat, a: WorkerAct, s: Pool, t: Pool)
    requires ErrorsOk(s) && WorkerStep(w, a, s, t)
    ensures ErrorsOk(t)
  {
    assert t.With(Error) <= s.With(Error);
  }

  // The steps of helpers, of Shutdown and of Docker.

  lemma HelperKeepsIds(max: int, h: nat, a: HelperAct, s: Pool, t: Pool)
    requires IdsOk(s) && CrewIdsOk(s) && PhaseOk(max, s) && HelperStep(h, a, s, t)
    ensures IdsOk(t) && CrewIdsOk(t) && PhaseOk(max, t)
  {
    assert t.workers == s.workers;
    assert forall w, id :: HeldBy(t, w, id) <==> HeldBy(s, w, id);
  }

  /** Whatever thread deletes entries, every bound on the size survives. */
  lemma SizeKept(max: int, s: Pool, t: Pool)
    requires SizeOk(max, s) && t.keeper == s.keeper && t.started == s.started
    requires t.containers.Keys <= s.containers.Keys && (s.started || t.containers.Keys == s.containers.Keys)
    ensures SizeOk(max, t)
  {
    SubsetSize(t.containers.Keys, s.containers.Keys);
    SubsetSize(Staying(t), Staying(s));
    if s.keeper.Scanning? {
      SubsetSize(s.keeper.running + t.containers.Keys, s.keeper.running + s.containers.Keys);
    }
  }

  lemma HelperKeepsRest(max: int, h: nat, a: HelperAct, s: Pool, t: Pool)
    requires Inv(max, s) && HelperStep(h, a, s, t)
    ensures HoldingOk(t) && SizeOk(max, t) && ErrorsOk(t)
  {
    HoldingKept(s, t);
    SizeKept(max, s, t);
    assert t.With(Error) <= s.With(Error);
  }

  lemma HelperKeepsLeak(max: int, h: nat, a: HelperAct, s: Pool, t: Pool)
    requires LeakOk(s) && HelperStep(h, a, s, t)
    ensures LeakOk(t)
  {
  }

  lemma CloserKeepsRest(max: int, a: CloserAct, s: Pool, t: Pool)
    requires Inv(max, s) && CloserStep(a, s, t)
    ensures IdsOk(t) && CrewIdsOk(t) && PhaseOk(max, t) && HoldingOk(t) && SizeOk(max, t) && ErrorsOk(t)
  {
    assert forall w, id :: HeldBy(t, w, id) <==> HeldBy(s, w, id);
    HoldingKept(s, t);
    SizeKept(max, s, t);
    assert t.With(Error) <= s.With(Error);
  }

  lemma CloserKeepsLeak(max: int, a: CloserAct, s: Pool, t: Pool)
    requires LeakOk(s) && CloserStep(a, s, t)
    ensures LeakOk(t)
  {
  }

  /** Docker gains or loses containers on its own; the manager's state does not change. */
  lemma DockerKeepsRest(max: int, s: Pool, t: Pool)
    requires CrewIdsOk(s) && PhaseOk(max, s) && HoldingOk(s) && SizeOk(max, s) && ErrorsOk(s)
    requires t == s.(live := t.live, used := t.used)
    ensures CrewIdsOk(t) && PhaseOk(max, t) && HoldingOk(t) && SizeOk(max, t) && ErrorsOk(t)
  {
    CrewIdsKept(s, t);
    HoldingKept(s, t);
    SizeKept(max, s, t);
    assert t.With(Error) == s.With(Error);
  }

  lemma DockerKeepsLeak(s: Pool, t: Pool)
    requires IdsOk(s) && CrewIdsOk(s) && LeakOk(s) && t == s.(live := t.live, used := t.used)
    requires s.used <= t.used && t.live <= t.used && forall id :: id in t.live && id !in s.live ==> id !in s.used
    ensures IdsOk(t) && LeakOk(t)
  {
    assert forall id :: Accounted(t, id) <==> Accounted(s, id);
  }

  lemma DockerKeeps(max: int, a: Action, s: Pool, t: Pool)
    requires Inv(max, s) && (a.Vanish? || a.Appear?) && Step(max, a, s, t)
    ensures Inv(max, t)
  {
    DockerKeepsRest(max, s, t);
    DockerKeepsLeak(s, t);
  }

  lemma SetupKeeps(max: int, a: SetupAct, s: Pool, t: Pool)
    requires Inv(max, s) && SetupStep(max, a, s, t)
    ensures Inv(max, t)
  {
    SetupKeepsIds(max, a, s, t);
    SetupKeepsPhase(max, a, s, t);
    SetupKeepsHolding(max, a, s, t);
    SetupKeepsSize(max, a, s, t);
    SetupKeepsLeak(max, a, s, t);
    SetupKeepsErrors(max, a, s, t);
  }

  lemma CheckKeeps(max: int, a: CheckAct, s: Pool, t: Pool)
    requires Inv(max, s) && CheckStep(max, a, s, t)
    ensures Inv(max, t)
  {
    CheckKeepsIds(max, a, s, t);
    CheckKeepsPhase(max, a, s, t);
    CheckKeepsHolding(max, a, s, t);
    CheckKeepsSize(max, a, s, t);
    CheckKeepsLeak(max, a, s, t);
    CheckKeepsErrors(max, a, s, t);
  }

  lemma DropKeeps(max: int, a: DropAct, s: Pool, t: Pool)
    requires Inv(max, s) && DropStep(a, s, t)
    ensures Inv(max, t)
  {
    DropKeepsIds(max, a, s, t);
    DropKeepsHolding(a, s, t);
    DropKeepsSize(max, a, s, t);
    DropKeepsLeak(a, s, t);
    DropKeepsErrors(a, s, t);
  }

  lemma StartKeeps(max: int, a: StartAct, s: Pool, t: Pool)
    requires Inv(max, s) && StartStep(max, a, s, t)
    ensures Inv(max, t)
  {
    StartKeepsIds(max, a, s, t);
    StartKeepsHolding(max, a, s, t);
    StartKeepsSize(max, a, s, t);
    StartKeepsLeak(max, a, s, t);
    StartKeepsErrors(max, a, s, t);
  }

  lemma WorkerKeeps(max: int, w: nat, a: WorkerAct, s: Pool, t: Pool)
    requires Inv(max, s) && WorkerStep(w, a, s, t)
    ensures Inv(max, t)
  {
    WorkerKeepsIds(max, w, a, s, t);
    WorkerKeepsHolding(w, a, s, t);
    WorkerKeepsPhase(max, w, a, s, t);
    SizeKept(max, s, t);
    WorkerKeepsLeak(w, a, s, t);
    WorkerKeepsErrors(w, a, s, t);
  }

  lemma HelperKeeps(max: int, h: nat, a: HelperAct, s: Pool, t: Pool)
    requires Inv(max, s) && HelperStep(h, a, s, t)
    ensures Inv(max, t)
  {
    HelperKeepsIds(max, h, a, s, t);
    HelperKeepsRest(max, h, a, s, t);
    HelperKeepsLeak(max, h, a, s, t);
  }

  lemma CloserKeeps(max: int, a: CloserAct, s: Pool, t: Pool)
    requires Inv(max, s) && CloserStep(a, s, t)
    ensures Inv(max, t)
  {
    CloserKeepsRest(max, a, s, t);
    CloserKeepsLeak(max, a, s, t);
  }

  lemma StepKeeps(max: int, a: Action, s: Pool, t: Pool)
    requires Inv(max, s) && Step(max, a, s, t)
    ensures Inv(max, t)
  {
    match a {
      case Setup(b) => SetupKeeps(max, b, s, t);
      case Check(b) => CheckKeeps(max, b, s, t);
      case Removal(b) => DropKeeps(max, b, s, t);
      case Start(b) => StartKeeps(max, b, s, t);
      case Worker(w, b) => WorkerKeeps(max, w, b, s, t);
      case Helper(h, b) => HelperKeeps(max, h, b, s, t);
      case Closer(b) => CloserKeeps(max, b, s, t);
      case Vanish(_) => DockerKeeps(max, a, s, t);
      case Appear(_) => DockerKeeps(max, a, s, t);
    }
  }
}
