/**
 The container manager object of executor/container_manager.go: a map updated in place and a Docker
 daemon that may refuse any call. Here each method runs without interference, except where it
 sleeps; PoolProtocol has the same sections interleaved.
 */
module ContainerManagement {
  import opened Options
  import opened Counting
  import opened PoolProtocol
  import opened PoolInvariants

  type Containers = map<Id, State>

  /** Docker, as far as containers of the worker image go. */
  class Docker {
    var live: set<Id>
    var exited: set<Id>         // not running: exited, or created and never started
    var used: set<Id>
    ghost var stuck: set<Id>    // containers for which a remove call failed
    ghost var failures: nat     // calls that failed so far

    ghost predicate Valid()
      reads this
    {
      live <= used
    }

    constructor (live: set<Id>, exited: set<Id>)
      ensures Valid() && this.live == live && this.exited == exited && stuck == {}
    {
      this.live, this.exited, this.used := live, exited, live;
      stuck, failures := {}, 0;
    }

    /** All containers, exited ones too; the value says whether it is running. */
    method List() returns (found: Option<map<Id, bool>>)
      modifies this`failures
      ensures found.Some? ==> found.value == (map id | id in live :: id !in exited) && failures == old(failures)
      ensures found.None? ==> failures > old(failures)
    {
      var ok: bool := *;
      if ok {
        found := Some(map id | id in live :: id !in exited);
      } else {
        failures := failures + 1;
        found := None;
      }
    }

    method Create() returns (id: Option<Id>)
      requires Valid()
      modifies this`live, this`exited, this`used, this`failures
      ensures Valid()
      ensures id.Some? ==> id.value !in old(used) && live == old(live) + {id.value} && used == old(used) + {id.value}
      ensures id.Some? ==> failures == old(failures) && exited == old(exited) + {id.value}
      ensures id.None? ==> live == old(live) && used == old(used) && exited == old(exited) && failures > old(failures)
    {
      var ok: bool := *;
      var next: Id := *;
      if ok && next !in used {
        live, exited, used := live + {next}, exited + {next}, used + {next};
        id := Some(next);
      } else {
        failures := failures + 1;
        id := None;
      }
    }

    method Start(id: Id) returns (ok: bool)
      modifies this`exited, this`failures
      ensures ok ==> exited == old(exited) - {id} && failures == old(failures)
      ensures !ok ==> exited == old(exited) && failures > old(failures)
    {
      ok := *;
      if ok {
        exited := exited - {id};
      } else {
        failures := failures + 1;
      }
    }

    method Remove(id: Id) returns (ok: bool)
      requires Valid()
      modifies this`live, this`stuck, this`failures
      ensures Valid()
      ensures ok ==> live == old(live) - {id} && stuck == old(stuck) && failures == old(failures)
      ensures !ok ==> live == old(live) && stuck == old(stuck) + {id} && failures > old(failures)
    {
      ok := *;
      if ok {
        live := live - {id};
      } else {
        failures, stuck := failures + 1, stuck + {id};
      }
    }
  }

  /** `small` is part of `large`. */
  ghost predicate PartOf(small: Containers, large: Containers) {
    small.Keys <= large.Keys && forall id :: id in small ==> small[id] == large[id]
  }

  class ContainerManager {
    var containers: Containers
    const maxWorkers: int
    const docker: Docker
    ghost var owned: set<Id>    // containers this manager created or adopted

    /** What the manager owns and Docker still has is in the map, unless removing it failed. */
    ghost predicate Valid()
      reads this, docker
    {
      && docker.Valid()
      && containers.Keys <= owned <= docker.used
      && forall id :: id in docker.live && id in owned ==> id in containers || id in docker.stuck
    }

    constructor (maxWorkers: int, docker: Docker)
      requires docker.Valid()
      ensures Valid() && containers == map[] && this.maxWorkers == maxWorkers && this.docker == docker
    {
      containers, owned := map[], {};
      this.maxWorkers, this.docker := maxWorkers, docker;
    }

    /** `ContainerStart`; if it fails the container is removed again. */
    method Launch(id: Id) returns (started: bool)
      requires docker.Valid()
      modifies docker`live, docker`exited, docker`stuck, docker`failures
      ensures docker.Valid() && old(docker.failures) <= docker.failures
      ensures old(docker.live) - {id} <= docker.live <= old(docker.live) && old(docker.stuck) <= docker.stuck
      ensures started ==> docker.live == old(docker.live) && id !in docker.exited
      ensures !started ==> (id in docker.live ==> id in docker.stuck) && docker.failures > old(docker.failures)
    {
      started := docker.Start(id);
      if !started {
        var _ := docker.Remove(id);
      }
    }

    method StartContainer() returns (ok: bool, ghost made: Option<Id>)
      requires Valid()
      modifies this, docker
      ensures Valid() && old(docker.used) <= docker.used && old(docker.failures) <= docker.failures
      ensures old(docker.live) <= docker.live
      ensures old(|containers.Keys|) >= maxWorkers ==> ok && made == None
      ensures old(|containers.Keys|) < maxWorkers ==> ok == made.Some?
      ensures made.None? ==> containers == old(containers)
      ensures made.Some? ==>
                && made.value !in old(docker.used) && made.value in docker.live && made.value !in docker.exited
                && containers == old(containers)[made.value := Idle]
      ensures !ok ==> docker.failures > old(docker.failures)
    {
      if |containers.Keys| >= maxWorkers {
        return true, None;
      }
      var id := docker.Create();
      if id.None? {
        return false, None;
      }
      owned := owned + {id.value};
      var started := Launch(id.value);
      if !started {
        return false, None;
      }
      containers := containers[id.value := Idle];
      assert containers.Keys == old(containers).Keys + {id.value};
      return true, id;
    }

    method RemoveContainer(id: Id)
      requires Valid()
      modifies this`containers, docker`live, docker`stuck, docker`failures
      ensures Valid() && containers == old(containers) - {id}
      ensures
        || (docker.live == old(docker.live) - {id} && docker.failures == old(docker.failures))
        || (docker.live == old(docker.live) && docker.failures > old(docker.failures))
    {
      var _ := docker.Remove(id);
      containers := containers - {id};
    }

    method RemoveAll(ids: set<Id>)
      requires Valid()
      modifies this`containers, docker`live, docker`stuck, docker`failures
      ensures Valid() && containers == old(containers) - ids && old(docker.failures) <= docker.failures
      ensures old(docker.live) - ids <= docker.live <= old(docker.live)
      ensures docker.failures == old(docker.failures) ==> docker.live !! ids
    {
      var todo := ids;
      while todo != {}
        invariant Valid() && todo <= ids && containers == old(containers) - (ids - todo)
        invariant old(docker.failures) <= docker.failures
        invariant old(docker.live) - ids <= docker.live <= old(docker.live)
        invariant docker.failures == old(docker.failures) ==> docker.live !! ids - todo
        decreases |todo|
      {
        var id :| id in todo;
        RemoveContainer(id);
        todo := todo - {id};
      }
    }

    /** Any `count` of the registered containers, or all of them if there are fewer. */
    method PickExcess(count: int) returns (toRemove: set<Id>)
      ensures toRemove <= containers.Keys
      ensures |containers.Keys - toRemove| == AtLeastZero(|containers.Keys| - AtLeastZero(count))
    {
      toRemove := {};
      var todo := containers.Keys;
      while todo != {}
        invariant todo <= containers.Keys && toRemove <= containers.Keys - todo
        invariant |toRemove| <= AtLeastZero(count)
        invariant |toRemove| < AtLeastZero(count) ==> toRemove == containers.Keys - todo
        decreases |todo|
      {
        var id :| id in todo;
        if |toRemove| < count {
          toRemove := toRemove + {id};
        }
        todo := todo - {id};
      }
      Remainder(containers.Keys, toRemove);
    }

    static lemma Remainder(all: set<Id>, part: set<Id>)
      requires part <= all
      ensures |part| <= |all| && |all - part| == |all| - |part|
    {
      SubsetSize(part, all);
      assert all == part + (all - part);
    }

    method RemoveExcessContainers(count: int)
      requires Valid()
      modifies this`containers, docker`live, docker`stuck, docker`failures
      ensures Valid() && PartOf(containers, old(containers)) && old(docker.failures) <= docker.failures
      ensures |containers.Keys| == AtLeastZero(old(|containers.Keys|) - AtLeastZero(count))
      ensures old(docker.live) - (old(containers).Keys - containers.Keys) <= docker.live <= old(docker.live)
      ensures docker.failures == old(docker.failures) ==> docker.live !! old(containers).Keys - containers.Keys
    {
      var toRemove := PickExcess(count);
      RemoveAll(toRemove);
      assert containers.Keys == old(containers).Keys - toRemove;
      assert toRemove == old(containers).Keys - containers.Keys;
    }

    /** The loops over `StartContainer`: `needed` attempts, of which `started` register a container. */
    method StartSeveral(needed: int) returns (ghost started: nat)
      requires Valid() && |containers.Keys| + AtLeastZero(needed) <= maxWorkers
      modifies this, docker
      ensures Valid() && PartOf(old(containers), containers) && old(docker.live) <= docker.live
      ensures forall id :: id in containers && id !in old(containers) ==>
                containers[id] == Idle && id !in old(docker.used)
      ensures |containers.Keys| == old(|containers.Keys|) + started && started <= AtLeastZero(needed)
      ensures old(docker.failures) <= docker.failures
      ensures docker.failures == old(docker.failures) ==> started == AtLeastZero(needed)
    {
      started := 0;
      var i := 0;
      while i < needed
        invariant 0 <= i <= AtLeastZero(needed) && started <= i
        invariant Valid() && PartOf(old(containers), containers)
        invariant old(docker.used) <= docker.used && old(docker.live) <= docker.live
        invariant forall id :: id in containers && id !in old(containers) ==>
                    containers[id] == Idle && id !in old(docker.used)
        invariant |containers.Keys| == old(|containers.Keys|) + started
        invariant old(docker.failures) <= docker.failures
        invariant docker.failures == old(docker.failures) ==> started == i
      {
        ghost var before := containers;
        var ok, made := StartContainer();
        if made.Some? {
          assert containers.Keys == before.Keys + {made.value};
          started := started + 1;
        }
        i := i + 1;
      }
    }

    /** `listed` says whether the first list call succeeded. Only what was dropped from the map again is
        removed from Docker. */
    method InitializePool() returns (ok: bool, ghost listed: bool)
      requires Valid()
      modifies this, docker
      ensures Valid()
      ensures ok <==> listed && |containers.Keys| > 0
      ensures listed ==> |containers.Keys| <= AtLeastZero(maxWorkers)
      ensures !listed ==> containers == old(containers) && docker.live == old(docker.live)
      ensures listed ==>
                old(docker.live) - (old(containers).Keys + old(docker.live) - containers.Keys) <= docker.live
      ensures docker.failures == old(docker.failures) ==>
                listed && docker.live !! old(containers).Keys + old(docker.live) - containers.Keys
      ensures forall id :: id in containers && id in old(docker.live) && (ok || id !in old(containers)) ==>
                containers[id] == if id in old(docker.exited) then Error else Idle
      ensures forall id :: id in containers && id in old(docker.used) - old(docker.live) ==>
                id in old(containers) && containers[id] == old(containers)[id]
      ensures forall id :: id in containers && id !in old(docker.used) ==> containers[id] == Idle
      ensures ok && |old(containers).Keys + old(docker.live)| <= maxWorkers ==>
                old(containers).Keys + old(docker.live) <= containers.Keys
      ensures docker.failures == old(docker.failures) ==>
                |containers.Keys| == AtLeastZero(maxWorkers) && ok == (maxWorkers > 0)
    {
      var found := docker.List();
      if found.None? {
        return false, false;
      }
      Adopt(found.value);
      assert containers.Keys == old(containers).Keys + old(docker.live);
      MatchLimit();
      return |containers.Keys| != 0, true;
    }

    /** The second half of `InitializePool`: remove the excess, or start what is missing. */
    method MatchLimit()
      requires Valid()
      modifies this, docker
      ensures Valid() && old(docker.failures) <= docker.failures
      ensures |containers.Keys| <= AtLeastZero(maxWorkers)
      ensures docker.failures == old(docker.failures) ==> |containers.Keys| == AtLeastZero(maxWorkers)
      ensures old(|containers.Keys|) <= maxWorkers ==> old(containers).Keys <= containers.Keys
      ensures old(docker.live) - (old(containers).Keys - containers.Keys) <= docker.live
      ensures docker.failures == old(docker.failures) ==> docker.live !! old(containers).Keys - containers.Keys
      ensures forall id :: id in containers && id in old(docker.used) ==>
                id in old(containers) && containers[id] == old(containers)[id]
      ensures forall id :: id in containers && id !in old(docker.used) ==> containers[id] == Idle
    {
      var currentCount := |containers.Keys|;
      if currentCount > maxWorkers {
        RemoveExcessContainers(currentCount - maxWorkers);
      } else if currentCount < maxWorkers {
        ghost var started := StartSeveral(maxWorkers - currentCount);
      }
    }

    method AdoptOne(id: Id, running: bool)
      requires Valid() && id in docker.live
      modifies this
      ensures Valid() && containers == old(containers)[id := if running then Idle else Error]
    {
      containers := containers[id := if running then Idle else Error];
      owned := owned + {id};
    }

    /** `now` is `before` with the entries of `found` outside `todo` put in. */
    static ghost predicate Adopted(before: Containers, found: map<Id, bool>, todo: set<Id>, now: Containers) {
      && before.Keys <= now.Keys
      && (forall id :: id in found && id !in todo ==> id in now && now[id] == if found[id] then Idle else Error)
      && (forall id :: id in now && id !in found ==> id in before && now[id] == before[id])
    }

    /** Registering what was listed, one container at a time. */
    method Adopt(found: map<Id, bool>)
      requires Valid() && found.Keys <= docker.live
      modifies this
      ensures Valid() && containers.Keys == old(containers).Keys + found.Keys
      ensures forall id :: id in found ==> containers[id] == if found[id] then Idle else Error
      ensures forall id :: id in containers && id !in found ==> containers[id] == old(containers)[id]
    {
      var todo := found.Keys;
      while todo != {}
        invariant Valid() && todo <= found.Keys <= docker.live
        invariant Adopted(old(containers), found, todo, containers)
        decreases |todo|
      {
        var id :| id in todo;
        AdoptOne(id, found[id]);
        todo := todo - {id};
      }
    }

    /** The registered containers that are listed, exited or not, and not in error. */
    ghost function Healthy(): set<Id>
      reads this, docker
    {
      set id | id in containers && id in docker.live && containers[id] != Error
    }

    method ScanListed(found: map<Id, bool>) returns (running: set<Id>)
      ensures running == set id | id in found && id in containers && containers[id] != Error
    {
      running := {};
      var todo := found.Keys;
      while todo != {}
        invariant todo <= found.Keys
        invariant running == set id | id in found && id !in todo && id in containers && containers[id] != Error
        decreases |todo|
      {
        var id :| id in todo;
        if id in containers {
          if containers[id] != Error {
            running := running + {id};
          }
        }
        todo := todo - {id};
      }
    }

    /** Removing the registered containers that were not found running. */
    method RemoveOthers(running: set<Id>) returns (currentCount: int)
      requires Valid() && running <= containers.Keys
      modifies this`containers, docker`live, docker`stuck, docker`failures
      ensures Valid() && old(docker.failures) <= docker.failures
      ensures containers.Keys == running && PartOf(containers, old(containers)) && currentCount == |running|
      ensures old(docker.live) - (old(containers).Keys - running) <= docker.live
    {
      var toRemove := containers.Keys - running;
      assert containers.Keys == toRemove + running;
      currentCount := |containers.Keys| - |toRemove|;
      RemoveAll(toRemove);
      assert containers.Keys == running;
    }

    /** Adjusting the count: the `running` containers stay as they are if there is room for them. */
    method Adjust(currentCount: int, running: set<Id>) returns (ghost started: nat)
      requires Valid() && containers.Keys == running && currentCount == |running|
      modifies this, docker
      ensures Valid() && old(docker.failures) <= docker.failures
      ensures |running| <= maxWorkers ==>
                && PartOf(old(containers), containers)
                && (forall id :: id in containers && id !in running ==>
                      containers[id] == Idle && id !in old(docker.used))
                && |containers.Keys| == |running| + started <= maxWorkers
                && old(docker.live) <= docker.live
      ensures |running| > maxWorkers ==> PartOf(containers, old(containers))
      ensures old(docker.live) - (running - containers.Keys) <= docker.live
      ensures |running| > maxWorkers || docker.failures == old(docker.failures) ==>
                |containers.Keys| == AtLeastZero(maxWorkers)
    {
      started := 0;
      if currentCount < maxWorkers {
        started := StartSeveral(maxWorkers - currentCount);
      } else if |running| > maxWorkers {
        RemoveExcessContainers(|running| - maxWorkers);
      }
    }

    /** One undisturbed health check keeps exactly the healthy containers, in their states, and adds
        fresh Idle ones; without Docker failures it ends with `maxWorkers` containers. */
    method CheckHealth() returns (ghost listed: bool, ghost started: nat)
      requires Valid()
      modifies this, docker
      ensures Valid() && old(docker.failures) <= docker.failures
      ensures !listed ==> containers == old(containers) && docker.failures > old(docker.failures)
      ensures listed && |old(Healthy())| <= maxWorkers ==>
                && (forall id :: id in old(Healthy()) ==> id in containers && containers[id] == old(containers)[id])
                && (forall id :: id in containers && id !in old(Healthy()) ==>
                      containers[id] == Idle && id !in old(docker.used))
                && |containers.Keys| == |old(Healthy())| + started <= maxWorkers
                && old(Healthy()) <= docker.live
      ensures old(docker.live) - (old(containers).Keys - containers.Keys) <= docker.live
      ensures listed && |old(Healthy())| <= maxWorkers ==>
                forall id :: id in old(containers) ==>
                  (id in containers <==> id in old(docker.live) && old(containers)[id] != Error)
      ensures listed && |old(Healthy())| > maxWorkers ==>
                containers.Keys <= old(Healthy()) && PartOf(containers, old(containers))
      ensures listed && (|old(Healthy())| > maxWorkers || docker.failures == old(docker.failures)) ==>
                |containers.Keys| == AtLeastZero(maxWorkers)
    {
      var found := docker.List();
      if found.None? {
        return false, 0;
      }
      listed := true;
      var running := ScanListed(found.value);
      assert running == old(Healthy());
      var currentCount := RemoveOthers(running);
      started := Adjust(currentCount, running);
    }

    /** The lock-held scan of `GetAvailableContainer`, in an arbitrary order. */
    method TryAssign() returns (id: Option<Id>)
      requires Valid()
      modifies this`containers
      ensures Valid()
      ensures id.None? ==> containers == old(containers) && Idle !in containers.Values
      ensures id.Some? ==>
                && id.value in old(containers) && old(containers)[id.value] == Idle
                && containers == old(containers)[id.value := Busy]
    {
      var todo := containers.Keys;
      while todo != {}
        invariant todo <= containers.Keys && containers == old(containers)
        invariant forall i :: i in containers && i !in todo ==> containers[i] != Idle
        decreases |todo|
      {
        var i :| i in todo;
        if containers[i] == Idle {
          containers := containers[i := Busy];
          return Some(i);
        }
        todo := todo - {i};
      }
      return None;
    }

    /** Other threads run while this one sleeps. Callers may rely on `Valid` only. */
    method Sleep()
      requires Valid()
      modifies this, docker
      ensures Valid()
    {
    }

    /** `views` are the maps that the scans met: at most ten, all but the last without an Idle entry. */
    method GetAvailableContainer() returns (id: Option<Id>, ghost views: seq<Containers>)
      requires Valid()
      modifies this, docker
      ensures Valid() && 0 < |views| <= 10 && views[0] == old(containers)
      ensures forall k :: 0 <= k < |views| - 1 ==> Idle !in views[k].Values
      ensures id.None? ==> |views| == 10 && Idle !in views[9].Values
      ensures id.Some? ==>
                var last := views[|views| - 1];
                id.value in last && last[id.value] == Idle && containers == last[id.value := Busy]
    {
      views := [];
      for i := 0 to MAX_RETRIES
        invariant Valid() && |views| == i
        invariant forall k :: 0 <= k < i ==> Idle !in views[k].Values
        invariant if i == 0 then containers == old(containers) else views[0] == old(containers)
      {
        views := views + [containers];
        id := TryAssign();
        if id.Some? {
          return;
        }
        Sleep();
      }
      return None, views;
    }

    method SetContainerState(id: Id, state: State)
      requires Valid()
      modifies this`containers
      ensures Valid() && containers.Keys == old(containers).Keys
      ensures forall i :: i in containers ==> containers[i] == if i == id then state else old(containers)[i]
    {
      if id in containers {
        containers := containers[id := state];
      }
    }

    /** Every registered container is gone from Docker afterwards, unless removing it failed. */
    method Shutdown()
      requires Valid()
      modifies this, docker
      ensures Valid() && containers == map[]
      ensures docker.live * old(containers).Keys <= docker.stuck
      ensures old(docker.live) - old(containers).Keys <= docker.live <= old(docker.live)
      ensures docker.failures == old(docker.failures) ==> docker.live == old(docker.live) - old(containers).Keys
    {
      var todo := containers.Keys;
      while todo != {}
        invariant Valid() && todo <= containers.Keys && containers == old(containers)
        invariant docker.live * (containers.Keys - todo) <= docker.stuck && old(docker.failures) <= docker.failures
        invariant old(docker.live) - (containers.Keys - todo) <= docker.live <= old(docker.live)
        invariant docker.failures == old(docker.failures) ==>
                    docker.live == old(docker.live) - (containers.Keys - todo)
        decreases |todo|
      {
        var id :| id in todo;
        var _ := docker.Remove(id);
        todo := todo - {id};
      }
      containers := map[];
    }
  }
}
