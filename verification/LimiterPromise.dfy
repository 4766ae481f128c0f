/**
 What a client of the rate limiter can work out from the answers it has had, without knowing what
 the limiter stores or how it rules.
 */
module LimiterPromise {
  import opened Options
  import opened LimiterModel
  import opened LimiterRefinement
  import opened LimiterBound

  /** When the ban began that the latest refusals of `ip` belong to; none if its latest request was let
      through. A refusal during a ban belongs to that ban. */
  function BanStart(c: Config, run: Run, ip: string): Option<int> {
    match run
    case Start => None
    case Then(before, call) =>
      var start := BanStart(c, before, ip);
      if !call.Allow? || call.ip != ip then start
      else if AnswerAfter(c, before, call) == Verdict(true) then None
      else if start.Some? && call.checked < start.value + c.ban then start
      else Some(call.now)
  }

  /** How many requests of `ip` made in (after, upto] were let through since its latest refusal. */
  function PassedSince(c: Config, run: Run, ip: string, after: int, upto: int): nat {
    match run
    case Start => 0
    case Then(before, call) =>
      if !call.Allow? || call.ip != ip then PassedSince(c, before, ip, after, upto)
      else if AnswerAfter(c, before, call) != Verdict(true) then 0
      else PassedSince(c, before, ip, after, upto) + Hit(call.now, after, upto)
  }

  /** A ban began and has not ended at `t`. */
  predicate InBan(c: Config, run: Run, ip: string, t: int) {
    BanStart(c, run, ip).Some? && t < BanStart(c, run, ip).value + c.ban
  }

  /** What a client expects of its next request: it passes when no ban is running and the requests let
      through in the window, since the last refusal, are fewer than the limit. */
  predicate Expected(c: Config, run: Run, ip: string, checked: int, now: int) {
    || ip == ""
    || (!InBan(c, run, ip, checked) && PassedSince(c, run, ip, now - c.window, now) < c.maxRequests)
  }

  lemma {:induction false} AllCounted(log: seq<int>, after: int, upto: int)
    requires forall t :: t in log ==> t <= upto
    ensures CountIn(log, after, upto) == |InWindow(log, after)|
  {
    if log != [] {
      var rest, last := log[..|log| - 1], log[|log| - 1];
      assert last in log && forall t :: t in rest ==> t in log;
      AllCounted(rest, after, upto);
    }
  }

  /** What the answers tell agrees with the history that the limiter rules by. */
  ghost predicate Told(c: Config, run: Run, ip: string, h: Past) {
    match BanStart(c, run, ip)
    case Some(start) => BanEnd(c, h) == Some(start + c.ban) && AdmittedSince(h) == []
    case None => BanEnd(c, h).Some? ==> h.Ruled? && BanEnd(c, h).value <= h.now
  }

  /** One more request: the answers tell what it does to the history. */
  lemma OneMoreAnswer(c: Config, before: Run, call: Call)
    requires Ordered(Then(before, call)) && call.Allow? && call.ip != ""
    requires Told(c, before, call.ip, History(c, before, call.ip))
    ensures Told(c, Then(before, call), call.ip, History(c, Then(before, call), call.ip))
  {
    var h := History(c, before, call.ip);
    HistoryJudged(c, before, call.ip);
    AnswersFromHistory(c, before, call);
    assert h.Ruled? ==> h.now <= call.checked;
  }

  lemma {:induction false} AnswersTell(c: Config, run: Run, ip: string)
    requires Ordered(run) && ip != ""
    ensures Told(c, run, ip, History(c, run, ip))
  {
    if run.Then? {
      AnswersTell(c, run.before, ip);
      if run.call.Allow? && run.call.ip == ip {
        OneMoreAnswer(c, run.before, run.call);
      }
    }
  }

  lemma {:induction false} AnswersCount(c: Config, run: Run, ip: string, after: int, upto: int)
    requires Ordered(run) && ip != ""
    ensures CountIn(AdmittedSince(History(c, run, ip)), after, upto) == PassedSince(c, run, ip, after, upto)
  {
    if run.Then? {
      var before, call := run.before, run.call;
      AnswersCount(c, before, ip, after, upto);
      if call.Allow? && call.ip == ip {
        AnswersFromHistory(c, before, call);
        AnswersTell(c, before, ip);
        AnswersTell(c, run, ip);
        CountAppend(AdmittedSince(History(c, before, ip)), call.now, after, upto);
      }
    }
  }

  lemma InBanAgrees(c: Config, run: Run, ip: string, t: int)
    requires Ordered(run) && ip != "" && (run.Then? ==> run.call.Last() <= t)
    ensures InBan(c, run, ip, t) <==> BannedAt(c, History(c, run, ip), t)
  {
    AnswersTell(c, run, ip);
    HistoryJudged(c, run, ip);
  }

  lemma WindowCounted(c: Config, run: Run, ip: string, now: int)
    requires Ordered(run) && ip != "" && (run.Then? ==> run.call.Last() <= now)
    ensures |InWindow(AdmittedSince(History(c, run, ip)), now - c.window)| ==
            PassedSince(c, run, ip, now - c.window, now)
  {
    var h := History(c, run, ip);
    HistoryJudged(c, run, ip);
    if h.Ruled? {
      EpochStartsAfterBan(c, h);
    }
    AllCounted(AdmittedSince(h), now - c.window, now);
    AnswersCount(c, run, ip, now - c.window, now);
  }

  lemma ExpectedIsRuled(c: Config, run: Run, ip: string, checked: int, now: int)
    requires Ordered(run) && ip != "" && checked <= now && (run.Then? ==> run.call.Last() <= checked)
    ensures Expected(c, run, ip, checked, now) <==> Judge(c, History(c, run, ip), checked, now).Admitted?
  {
    InBanAgrees(c, run, ip, checked);
    WindowCounted(c, run, ip, now);
  }

  /** Over every run and every configuration, a request is let through exactly when a client would expect
      it from its earlier answers. */
  lemma AllowExactlyWhenExpected(c: Config, run: Run, ip: string, checked: int, now: int)
    requires Ordered(run) && Follows(run, Allow(ip, checked, now))
    ensures AnswerAfter(c, run, Allow(ip, checked, now)) == Verdict(Expected(c, run, ip, checked, now))
  {
    if ip != "" {
      AnswersFromHistory(c, run, Allow(ip, checked, now));
      ExpectedIsRuled(c, run, ip, checked, now);
    }
  }

  /** The queries answer from the same ban, and the cooldown is the time to its end. */
  lemma QueriesTellTheBan(c: Config, run: Run, ip: string, at: int)
    requires Ordered(run) && Follows(run, IsBlocked(ip, at)) && ip != ""
    ensures AnswerAfter(c, run, IsBlocked(ip, at)) == Blocked(InBan(c, run, ip, at))
    ensures AnswerAfter(c, run, Cooldown(ip, at)) ==
            Remaining(if InBan(c, run, ip, at) then BanStart(c, run, ip).value + c.ban - at else 0)
  {
    AnswersFromHistory(c, run, IsBlocked(ip, at));
    AnswersFromHistory(c, run, Cooldown(ip, at));
    AnswersTell(c, run, ip);
    InBanAgrees(c, run, ip, at);
  }

  /** No request of `ip` was refused after `latest`. */
  predicate NoRefusalAfter(c: Config, run: Run, ip: string, latest: int) {
    match run
    case Start => true
    case Then(before, call) =>
      && NoRefusalAfter(c, before, ip, latest)
      && (call.Allow? && call.ip == ip && AnswerAfter(c, before, call) != Verdict(true) ==> call.now <= latest)
  }

  lemma {:induction false} SinceIsPartOfAll(c: Config, run: Run, ip: string, after: int, upto: int, latest: int)
    ensures PassedSince(c, run, ip, after, upto) <= Passed(c, run, ip, after, upto)
    ensures NoRefusalAfter(c, run, ip, latest) && BanStart(c, run, ip).Some? ==> BanStart(c, run, ip).value <= latest
  {
    if run.Then? {
      SinceIsPartOfAll(c, run.before, ip, after, upto, latest);
    }
  }

  /** A request with room is let through: fewer than the limit passed in its window, and nothing was
      refused less than a ban ago. */
  lemma RoomMeansPass(c: Config, run: Run, ip: string, checked: int, now: int)
    requires Ordered(run) && Follows(run, Allow(ip, checked, now))
    requires Passed(c, run, ip, now - c.window, now) < Limit(c) && NoRefusalAfter(c, run, ip, checked - c.ban)
    ensures AnswerAfter(c, run, Allow(ip, checked, now)) == Verdict(true)
  {
    AllowExactlyWhenExpected(c, run, ip, checked, now);
    SinceIsPartOfAll(c, run, ip, now - c.window, now, checked - c.ban);
  }

  /** The cooldown reported at `at` ends at the first instant at which the address is no longer blocked,
      whatever is asked meanwhile, as long as the address itself makes no request. */
  lemma CooldownIsExact(c: Config, run: Run, ip: string, at: int, more: Run, later: int)
    requires Ordered(run) && Follows(run, Cooldown(ip, at)) && at <= later
    requires Ordered(more) && Follows(more, IsBlocked(ip, later)) && AllowsOf(more, ip) == AllowsOf(run, ip)
    ensures AnswerAfter(c, more, IsBlocked(ip, later)) ==
            Blocked(later < at + AnswerAfter(c, run, Cooldown(ip, at)).left)
  {
    AnswersFromHistory(c, run, Cooldown(ip, at));
    AnswersFromHistory(c, more, IsBlocked(ip, later));
    HistoryIgnoresTheRest(c, run, ip);
    HistoryIgnoresTheRest(c, more, ip);
  }

  lemma SweptLogIsTheWindow(c: Config, s: Store, h: Past, ip: string, clock: int, now: int)
    requires Stands(c, s, h, ip, clock) && clock <= now
    ensures
      var t, kept := SweepStep(c, s, now), InWindow(AdmittedSince(h), now - c.window);
      (ip in t.requests <==> kept != []) && (ip in t.requests ==> t.requests[ip] == kept)
  {
    WindowAgrees(c, s, h, ip, clock, now);
  }

  lemma SweptBansAreRunning(c: Config, s: Store, h: Past, ip: string, clock: int, now: int)
    requires Stands(c, s, h, ip, clock) && clock <= now
    ensures
      var t := SweepStep(c, s, now);
      && (ip in t.banned <==> ip in s.banned && BanEnd(c, h).Some? && BanEnd(c, h).value >= now)
      && (ip in t.banned ==> BanEnd(c, h) == Some(t.banned[ip]))
      && (BannedAt(c, h, now) ==> ip in t.banned)
  {
  }

  /** What the two maps hold after `run`. */
  lemma StoreStands(c: Config, run: Run, ip: string, now: int) returns (clock: int)
    requires Ordered(run) && Follows(run, Sweep(now)) && ip != ""
    ensures clock <= now && Stands(c, StoreAfter(c, run), History(c, run, ip), ip, clock)
  {
    var start := StartOf(run, Sweep(now));
    RunBegins(run, Sweep(now));
    StoreStandsForHistory(c, run, ip, start);
    clock := ClockAfter(run, start);
  }

  /** A sweep leaves nothing stale: the logs are exactly the admissions still in the window, and the bans
      are the recorded ones that have not ended, among them all that are still running. */
  lemma SweepLeavesExactly(c: Config, run: Run, ip: string, now: int)
    requires Ordered(run) && Follows(run, Sweep(now)) && ip != ""
    ensures
      var s, h := StoreAfter(c, Then(run, Sweep(now))), History(c, run, ip);
      var kept := InWindow(AdmittedSince(h), now - c.window);
      && (ip in s.requests <==> kept != []) && (ip in s.requests ==> s.requests[ip] == kept)
      && (ip in s.banned <==>
          ip in StoreAfter(c, run).banned && BanEnd(c, h).Some? && BanEnd(c, h).value >= now)
      && (ip in s.banned ==> BanEnd(c, h) == Some(s.banned[ip]))
      && (BannedAt(c, h, now) ==> ip in s.banned)
  {
    var clock := StoreStands(c, run, ip, now);
    var before, h := StoreAfter(c, run), History(c, run, ip);
    SweptLogIsTheWindow(c, before, h, ip, clock, now);
    SweptBansAreRunning(c, before, h, ip, clock, now);
    assert StoreAfter(c, Then(run, Sweep(now))) == SweepStep(c, before, now);
  }
}
