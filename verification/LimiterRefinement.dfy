/** The two maps of the limiter answer every call as the full history of the caller would. */
module LimiterRefinement {
  import opened Options
  import opened LimiterModel

  // Facts about pruning.

  lemma {:induction false} InWindowMembers(log: seq<int>, start: int)
    ensures forall t :: t in InWindow(log, start) ==> t in log && t > start
  {
    if log != [] {
      var n := |log| - 1;
      InWindowMembers(log[..n], start);
      assert log == log[..n] + [log[n]];
    }
  }

  lemma {:induction false} InWindowAppend(log: seq<int>, t: int, start: int)
    ensures InWindow(log + [t], start) == if t > start then InWindow(log, start) + [t] else InWindow(log, start)
  {
    assert (log + [t])[..|log|] == log;
  }

  lemma {:induction false} InWindowTwice(log: seq<int>, early: int, late: int)
    requires early <= late
    ensures InWindow(InWindow(log, early), late) == InWindow(log, late)
  {
    if log != [] {
      var n := |log| - 1;
      InWindowTwice(log[..n], early, late);
      if log[n] > early {
        InWindowAppend(InWindow(log[..n], early), log[n], late);
      }
    }
  }

  lemma {:induction false} InWindowKeepsAll(log: seq<int>, start: int)
    requires forall t :: t in log ==> t > start
    ensures InWindow(log, start) == log
  {
    if log != [] {
      var n := |log| - 1;
      assert forall t :: t in log[..n] ==> t in log;
      InWindowKeepsAll(log[..n], start);
      assert log[n] in log && log == log[..n] + [log[n]];
    }
  }

  predicate Sorted(log: seq<int>) {
    forall i, j :: 0 <= i < j < |log| ==> log[i] <= log[j]
  }

  lemma {:induction false} InWindowSorted(log: seq<int>, start: int)
    requires Sorted(log)
    ensures Sorted(InWindow(log, start))
  {
    if log != [] {
      var n := |log| - 1;
      InWindowSorted(log[..n], start);
      InWindowMembers(log[..n], start);
      var kept := InWindow(log[..n], start);
      forall k | 0 <= k < |kept| ensures kept[k] <= log[n] {
        assert kept[k] in kept && kept[k] in log[..n];
      }
    }
  }

  // What every reachable store looks like.

  predicate NotAfter(log: seq<int>, clock: int) {
    forall t :: t in log ==> t <= clock
  }

  /** A stored log is never empty, is in time order, lies in the past and never exceeds the limit. */
  predicate GoodLog(c: Config, log: seq<int>, clock: int) {
    log != [] && Sorted(log) && NotAfter(log, clock) && |log| <= c.maxRequests
  }

  ghost predicate Wellformed(c: Config, s: Store, clock: int) {
    && s.requests.Keys !! s.banned.Keys // no address is both banned and logged
    && forall ip :: ip in s.requests ==> GoodLog(c, s.requests[ip], clock)
  }

  lemma PrunedLog(c: Config, log: seq<int>, clock: int, start: int, now: int)
    requires clock <= now && (log == [] || GoodLog(c, log, clock))
    ensures
      var kept := InWindow(log, start);
      && (kept != [] ==> GoodLog(c, kept, now))
      && (|kept| < c.maxRequests ==> GoodLog(c, kept + [now], now))
  {
    InWindowSorted(log, start);
    InWindowMembers(log, start);
    var kept := InWindow(log, start);
    forall k | 0 <= k < |kept| ensures kept[k] <= now {
      assert kept[k] in kept && kept[k] in log;
    }
  }

  lemma StepWellformed(c: Config, s: Store, clock: int, call: Call)
    requires Wellformed(c, s, clock)
    requires clock <= call.First() <= call.Last()
    ensures Wellformed(c, Step(c, s, call).0, call.Last())
  {
    var t := Step(c, s, call).0;
    forall ip | ip in t.requests ensures GoodLog(c, t.requests[ip], call.Last()) {
      PrunedLog(c, LogOf(s, ip), clock, call.Last() - c.window, call.Last());
      assert ip in s.requests ==> NotAfter(s.requests[ip], call.Last());
    }
  }

  /** The latest reading of the clock, or `start` if there is none yet. */
  function ClockAfter(run: Run, start: int): int {
    if run.Then? then run.call.Last() else start
  }

  /** A time no later than any call of the run and the one that follows it. */
  function StartOf(run: Run, call: Call): int {
    match run
    case Start => call.First()
    case Then(before, earlier) => StartOf(before, earlier)
  }

  predicate Begins(run: Run, start: int) {
    match run
    case Start => true
    case Then(Start, call) => start <= call.First()
    case Then(before, _) => Begins(before, start)
  }

  /** Every reachable store is well formed at the time of the last call. */
  lemma {:induction false} ReachableWellformed(c: Config, run: Run, start: int)
    requires Ordered(run) && Begins(run, start)
    ensures Wellformed(c, StoreAfter(c, run), ClockAfter(run, start))
  {
    if run.Then? {
      ReachableWellformed(c, run.before, start);
      StepWellformed(c, StoreAfter(c, run.before), ClockAfter(run.before, start), run.call);
    }
  }

  // The simulation between the maps and the history.

  /** The stored entries of one address stand for its history `h`: a missing ban is one that has
      ended, and the stored log agrees with the history in every window still to come. */
  ghost predicate Stands(c: Config, s: Store, h: Past, ip: string, clock: int) {
    && (ip in s.banned ==> BanEnd(c, h) == Some(s.banned[ip]))
    && (ip !in s.banned ==> !BannedAt(c, h, clock))
    && SameWindows(LogOf(s, ip), AdmittedSince(h), clock - c.window)
  }

  predicate AgreeFrom(log: seq<int>, full: seq<int>, start: int) {
    InWindow(log, start) == InWindow(full, start)
  }

  ghost predicate SameWindows(log: seq<int>, full: seq<int>, from: int) {
    forall start :: start >= from ==> AgreeFrom(log, full, start)
  }

  lemma SameWindowsAdmit(log: seq<int>, full: seq<int>, from: int, cut: int, now: int)
    requires SameWindows(log, full, from) && from <= cut
    ensures SameWindows(InWindow(log, cut) + [now], full + [now], cut)
  {
    forall start | start >= cut
      ensures AgreeFrom(InWindow(log, cut) + [now], full + [now], start)
    {
      assert AgreeFrom(log, full, start);
      InWindowTwice(log, cut, start);
      InWindowAppend(InWindow(log, cut), now, start);
      InWindowAppend(full, now, start);
    }
  }

  lemma SameWindowsPrune(log: seq<int>, full: seq<int>, from: int, cut: int)
    requires SameWindows(log, full, from) && from <= cut
    ensures SameWindows(InWindow(log, cut), full, cut)
  {
    forall start | start >= cut ensures AgreeFrom(InWindow(log, cut), full, start) {
      assert AgreeFrom(log, full, start);
      InWindowTwice(log, cut, start);
    }
  }

  lemma WindowAgrees(c: Config, s: Store, h: Past, ip: string, clock: int, now: int)
    requires Stands(c, s, h, ip, clock) && clock <= now
    ensures InWindow(LogOf(s, ip), now - c.window) == InWindow(AdmittedSince(h), now - c.window)
  {
    assert AgreeFrom(LogOf(s, ip), AdmittedSince(h), now - c.window);
  }

  lemma StandsAdmit(c: Config, s: Store, h: Past, ip: string, clock: int, now: int)
    requires Stands(c, s, h, ip, clock) && clock <= now && !BannedAt(c, h, now)
    ensures
      var log := InWindow(LogOf(s, ip), now - c.window) + [now];
      Stands(c, Store(s.requests[ip := log], s.banned - {ip}), Ruled(h, now, Admitted), ip, now)
  {
    SameWindowsAdmit(LogOf(s, ip), AdmittedSince(h), clock - c.window, now - c.window, now);
  }

  lemma StandsStrike(c: Config, s: Store, h: Past, ip: string, now: int)
    ensures Stands(c, Store(s.requests - {ip}, s.banned[ip := now + c.ban]), Ruled(h, now, Struck), ip, now)
  {
  }

  lemma StandsAllow(c: Config, s: Store, h: Past, ip: string, clock: int, checked: int, now: int)
    requires ip != "" && Stands(c, s, h, ip, clock) && clock <= checked <= now
    ensures AllowStep(c, s, ip, checked, now).1 == Judge(c, h, checked, now).Admitted?
    ensures Stands(c, AllowStep(c, s, ip, checked, now).0, Ruled(h, now, Judge(c, h, checked, now)), ip, now)
  {
    WindowAgrees(c, s, h, ip, clock, now);
    match Judge(c, h, checked, now) {
      case Admitted => StandsAdmit(c, s, h, ip, clock, now);
      case Refused => assert AllowStep(c, s, ip, checked, now) == (s, false);
      case Struck => StandsStrike(c, s, h, ip, now);
    }
  }

  lemma SweptLog(requests: map<string, seq<int>>, ip: string, cutoff: int)
    ensures
      var pruned := PrunedLogs(requests, cutoff);
      LogOf(Store(pruned, map[]), ip) == InWindow(LogOf(Store(requests, map[]), ip), cutoff)
  {
  }

  lemma StandsSweep(c: Config, s: Store, h: Past, ip: string, clock: int, now: int)
    requires Stands(c, s, h, ip, clock) && clock <= now
    ensures Stands(c, SweepStep(c, s, now), h, ip, now)
  {
    SweptLog(s.requests, ip, now - c.window);
    SameWindowsPrune(LogOf(s, ip), AdmittedSince(h), clock - c.window, now - c.window);
    var t := SweepStep(c, s, now);
    assert ip !in t.banned ==> !BannedAt(c, h, now);
  }

  lemma {:induction false} StoreStandsForHistory(c: Config, run: Run, ip: string, start: int)
    requires Ordered(run) && Begins(run, start) && ip != ""
    ensures Stands(c, StoreAfter(c, run), History(c, run, ip), ip, ClockAfter(run, start))
  {
    if run.Then? {
      var before, call := run.before, run.call;
      StoreStandsForHistory(c, before, ip, start);
      var s, h, clock := StoreAfter(c, before), History(c, before, ip), ClockAfter(before, start);
      if call.Allow? && call.ip == ip {
        StandsAllow(c, s, h, ip, clock, call.checked, call.now);
      } else if call.Sweep? {
        StandsSweep(c, s, h, ip, clock, call.at);
      }
    }
  }

  lemma {:induction false} RunBegins(run: Run, call: Call)
    ensures Begins(run, StartOf(run, call))
    ensures Ordered(run) && Follows(run, call) ==> ClockAfter(run, StartOf(run, call)) <= call.First()
  {
    if run.Then? {
      RunBegins(run.before, run.call);
    }
  }

  /** Refinement: whatever sweeps and queries came before, a call is answered from the complete
      history of its own address. */
  lemma AnswersFromHistory(c: Config, run: Run, call: Call)
    requires Ordered(run) && Follows(run, call) && !call.Sweep?
    ensures AnswerAfter(c, run, call) == SpecAnswer(c, History(c, run, call.ip), call)
  {
    if call.ip != "" {
      var start := StartOf(run, call);
      RunBegins(run, call);
      StoreStandsForHistory(c, run, call.ip, start);
      if call.Allow? {
        StandsAllow(c, StoreAfter(c, run), History(c, run, call.ip), call.ip, ClockAfter(run, start),
                    call.checked, call.now);
      }
    }
  }

  /** The log kept after an admission is exactly the part of the history inside the window. */
  lemma StoredLogIsTheWindow(c: Config, run: Run, call: Call)
    requires Ordered(run) && Follows(run, call) && call.Allow? && call.ip != ""
    requires AnswerAfter(c, run, call) == Verdict(true)
    ensures LogOf(StoreAfter(c, Then(run, call)), call.ip) ==
            InWindow(AdmittedSince(History(c, run, call.ip)), call.now - c.window) + [call.now]
  {
    var start := StartOf(run, call);
    RunBegins(run, call);
    StoreStandsForHistory(c, run, call.ip, start);
    WindowAgrees(c, StoreAfter(c, run), History(c, run, call.ip), call.ip, ClockAfter(run, start), call.now);
  }

  // What cannot be observed.

  lemma {:induction false} HistoryIgnoresTheRest(c: Config, run: Run, ip: string)
    ensures History(c, AllowsOf(run, ip), ip) == History(c, run, ip)
  {
    if run.Then? {
      HistoryIgnoresTheRest(c, run.before, ip);
    }
  }

  lemma {:induction false} AllowsOfOrdered(run: Run, ip: string, call: Call)
    requires Ordered(run) && Follows(run, call)
    ensures Ordered(AllowsOf(run, ip)) && Follows(AllowsOf(run, ip), call)
  {
    if run.Then? {
      AllowsOfOrdered(run.before, ip, run.call);
      AllowsOfOrdered(run.before, ip, call);
    }
  }

  /** Transparency and independence: sweeps, `IsBlocked`, `Cooldown` and the calls of every other
      address may be inserted or deleted anywhere without changing an answer. */
  lemma OnlyOwnAllowsMatter(c: Config, run: Run, other: Run, call: Call)
    requires Ordered(run) && Follows(run, call) && Ordered(other) && Follows(other, call)
    requires !call.Sweep? && AllowsOf(run, call.ip) == AllowsOf(other, call.ip)
    ensures AnswerAfter(c, run, call) == AnswerAfter(c, other, call)
  {
    AnswersFromHistory(c, run, call);
    AnswersFromHistory(c, other, call);
    HistoryIgnoresTheRest(c, run, call.ip);
    HistoryIgnoresTheRest(c, other, call.ip);
  }

  /** The run projected onto one address, without its queries, is an ordered run that gives the
      same answer. */
  lemma ProjectedRunAgrees(c: Config, run: Run, call: Call)
    requires Ordered(run) && Follows(run, call) && !call.Sweep?
    ensures Ordered(AllowsOf(run, call.ip)) && Follows(AllowsOf(run, call.ip), call)
    ensures AnswerAfter(c, AllowsOf(run, call.ip), call) == AnswerAfter(c, run, call)
  {
    AllowsOfOrdered(run, call.ip, call);
    AnswersFromHistory(c, run, call);
    AnswersFromHistory(c, AllowsOf(run, call.ip), call);
    HistoryIgnoresTheRest(c, run, call.ip);
  }

  /** At one instant the three queries agree, although they expire a ban on different comparisons. */
  lemma QueriesAgree(c: Config, run: Run, ip: string, at: int, now: int)
    requires Ordered(run) && Follows(run, Allow(ip, at, now))
    ensures
      var left := AnswerAfter(c, run, Cooldown(ip, at)).left;
      var blocked := AnswerAfter(c, run, IsBlocked(ip, at)).yes;
      var ok := AnswerAfter(c, run, Allow(ip, at, now)).ok;
      left >= 0 && (left > 0 <==> blocked) && (blocked ==> !ok)
  {
    AnswersFromHistory(c, run, Cooldown(ip, at));
    AnswersFromHistory(c, run, IsBlocked(ip, at));
    AnswersFromHistory(c, run, Allow(ip, at, now));
  }
}
