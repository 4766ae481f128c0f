/**
 The rate limiter object of executor/ratelimiter.go: two maps updated in place under one lock.

 Each method is one lock-held section, and its clock readings are arguments. `trace` records the
 calls made so far; `Valid` says the two maps are where those calls lead. Every answer is stated
 from the complete history of the caller, and from the answers the caller has had, not from the maps.
 */
module RateLimiting {
  import opened LimiterModel
  import opened LimiterRefinement
  import opened LimiterPromise

  class RateLimiter {
    var requests: map<string, seq<int>>
    var banned: map<string, int>
    const config: Config
    ghost var trace: Run

    ghost predicate Valid()
      reads this
    {
      Ordered(trace) && Store(requests, banned) == StoreAfter(config, trace)
    }

    constructor (maxRequests: int, window: int, ban: int)
      ensures Valid() && trace == Start && config == Config(maxRequests, window, ban)
    {
      requests, banned := map[], map[];
      config := Config(maxRequests, window, ban);
      trace := Start;
    }

    /** `Allow` asks and records; `Admit` is what it does to the two maps. */
    method Allow(ip: string, checked: int, now: int) returns (ok: bool)
      requires Valid() && Follows(trace, Call.Allow(ip, checked, now))
      modifies this
      ensures Valid() && trace == Then(old(trace), Call.Allow(ip, checked, now))
      ensures ok <==> Expected(config, old(trace), ip, checked, now)
      ensures ok <==> ip == "" || Judge(config, History(config, old(trace), ip), checked, now).Admitted?
      ensures ok && ip != "" ==>
                ip in requests && requests[ip] ==
                InWindow(AdmittedSince(History(config, old(trace), ip)), now - config.window) + [now]
    {
      ghost var call := Call.Allow(ip, checked, now);
      AllowExactlyWhenExpected(config, trace, ip, checked, now);
      AnswersFromHistory(config, trace, call);
      if AnswerAfter(config, trace, call) == Verdict(true) && ip != "" {
        StoredLogIsTheWindow(config, trace, call);
      }
      ok := Admit(ip, checked, now);
      trace := Then(trace, call);
    }

    method Admit(ip: string, checked: int, now: int) returns (ok: bool)
      modifies this`requests, this`banned
      ensures (Store(requests, banned), ok) ==
              AllowStep(config, Store(old(requests), old(banned)), ip, checked, now)
    {
      if ip == "" {
        return true;
      }
      if ip in banned {
        if checked < banned[ip] {
          return false;
        }
        banned := banned - {ip};
      }
      var entries := if ip in requests then requests[ip] else [];
      var valid := Prune(entries, now - config.window);
      if |valid| >= config.maxRequests {
        banned := banned[ip := now + config.ban];
        assert banned == old(banned)[ip := now + config.ban];
        requests := requests - {ip};
        return false;
      }
      requests := requests[ip := valid + [now]];
      assert banned == old(banned) - {ip};
      return true;
    }

    method IsBlocked(ip: string, at: int) returns (blocked: bool)
      requires Valid() && Follows(trace, Call.IsBlocked(ip, at))
      modifies this
      ensures Valid() && trace == Then(old(trace), Call.IsBlocked(ip, at))
      ensures blocked <==> ip != "" && InBan(config, old(trace), ip, at)
      ensures blocked <==> ip != "" && BannedAt(config, History(config, old(trace), ip), at)
    {
      ghost var call := Call.IsBlocked(ip, at);
      if ip != "" {
        QueriesTellTheBan(config, trace, ip, at);
      }
      AnswersFromHistory(config, trace, call);
      trace := Then(trace, call);
      if ip == "" || ip !in banned {
        return false;
      }
      if at < banned[ip] {
        return true;
      }
      banned := banned - {ip};
      return false;
    }

    method CooldownRemaining(ip: string, at: int) returns (left: int)
      requires Valid() && Follows(trace, Call.Cooldown(ip, at))
      modifies this
      ensures Valid() && trace == Then(old(trace), Call.Cooldown(ip, at))
      ensures left == if ip != "" && InBan(config, old(trace), ip, at)
                      then BanStart(config, old(trace), ip).value + config.ban - at else 0
      ensures Remaining(left) == SpecAnswer(config, History(config, old(trace), ip), Call.Cooldown(ip, at))
    {
      ghost var call := Call.Cooldown(ip, at);
      if ip != "" {
        QueriesTellTheBan(config, trace, ip, at);
      }
      AnswersFromHistory(config, trace, call);
      trace := Then(trace, call);
      if ip == "" || ip !in banned {
        return 0;
      }
      left := banned[ip] - at;
      if left < 0 {
        banned := banned - {ip};
        return 0;
      }
    }

    /** One tick of the background sweep. The maps are visited in an arbitrary order. */
    method CleanupTick(now: int)
      requires Valid() && Follows(trace, Sweep(now))
      modifies this
      ensures Valid() && trace == Then(old(trace), Sweep(now))
      ensures banned == RunningBans(old(banned), now)
      ensures requests == PrunedLogs(old(requests), now - config.window)
    {
      SweepMaps(now);
      trace := Then(trace, Sweep(now));
    }

    method SweepMaps(now: int)
      modifies this`requests, this`banned
      ensures banned == RunningBans(old(banned), now) && requests == PrunedLogs(old(requests), now - config.window)
      ensures Store(requests, banned) == SweepStep(config, Store(old(requests), old(banned)), now)
    {
      DropExpiredBans(now);
      DropStaleEntries(now - config.window);
    }

    method DropExpiredBans(now: int)
      modifies this`banned
      ensures banned == RunningBans(old(banned), now)
    {
      var todo := banned.Keys;
      while todo != {}
        invariant todo <= banned.Keys <= old(banned).Keys
        invariant forall ip :: ip in banned ==> banned[ip] == old(banned)[ip]
        invariant forall ip :: ip in old(banned) && ip !in todo ==> (ip in banned <==> now <= old(banned)[ip])
        decreases |todo|
      {
        var ip :| ip in todo;
        if now > banned[ip] {
          banned := banned - {ip};
        }
        todo := todo - {ip};
      }
    }

    method DropStaleEntries(cutoff: int)
      modifies this`requests
      ensures requests == PrunedLogs(old(requests), cutoff)
    {
      var todo := requests.Keys;
      while todo != {}
        invariant todo <= requests.Keys <= old(requests).Keys
        invariant forall ip :: ip in todo ==> requests[ip] == old(requests)[ip]
        invariant forall ip :: ip in requests && ip !in todo ==> requests[ip] == InWindow(old(requests)[ip], cutoff)
        invariant forall ip :: ip in old(requests) && ip !in todo ==>
                    (ip in requests <==> InWindow(old(requests)[ip], cutoff) != [])
        decreases |todo|
      {
        var ip :| ip in todo;
        var valid := Prune(requests[ip], cutoff);
        if |valid| == 0 {
          requests := requests - {ip};
        } else {
          requests := requests[ip := valid];
        }
        todo := todo - {ip};
      }
    }
  }

  /** The loop that keeps the entries strictly after `start`. */
  method Prune(entries: seq<int>, start: int) returns (valid: seq<int>)
    ensures valid == InWindow(entries, start)
  {
    valid := [];
    for i := 0 to |entries|
      invariant valid == InWindow(entries[..i], start)
    {
      assert entries[..i + 1] == entries[..i] + [entries[i]];
      InWindowAppend(entries[..i], entries[i], start);
      if entries[i] > start {
        valid := valid + [entries[i]];
      }
    }
    assert entries[..|entries|] == entries;
  }
}
