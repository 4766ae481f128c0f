/**
 How many requests of one address get through in one window, over every run.

 A ban forgets the requests that led to it, even those still inside the window. So the limit is
 kept within each ban-free epoch, and a window of length W meets at most ceil(W / B) epochs.
 */
module LimiterBound {
  import opened Options
  import opened LimiterModel
  import opened LimiterRefinement

  /** The quotient rounded up. */
  function CeilDiv(a: int, b: int): (q: nat)
    requires b > 0
    ensures a > 0 ==> q >= 1 && (q - 1) * b < a <= q * b
    ensures a <= 0 ==> q == 0
    decreases a
  {
    if a <= 0 then 0 else 1 + CeilDiv(a - b, b)
  }

  /** 1 if `t` lies in (after, upto]. */
  function Hit(t: int, after: int, upto: int): nat {
    if after < t <= upto then 1 else 0
  }

  /** Requests let through at a time in (after, upto]. */
  function AdmittedIn(h: Past, after: int, upto: int): nat {
    match h
    case Nothing => 0
    case Ruled(before, now, ruling) =>
      AdmittedIn(before, after, upto) + if ruling.Admitted? then Hit(now, after, upto) else 0
  }

  function CountIn(log: seq<int>, after: int, upto: int): nat {
    if log == [] then 0 else CountIn(log[..|log| - 1], after, upto) + Hit(log[|log| - 1], after, upto)
  }

  lemma CountAppend(log: seq<int>, t: int, after: int, upto: int)
    ensures CountIn(log + [t], after, upto) == CountIn(log, after, upto) + Hit(t, after, upto)
  {
    assert (log + [t])[..|log|] == log;
  }

  lemma {:induction false} CountedAreInWindow(log: seq<int>, after: int, start: int, upto: int)
    requires start <= after
    ensures CountIn(log, after, upto) <= |InWindow(log, start)|
  {
    if log != [] {
      CountedAreInWindow(log[..|log| - 1], after, start, upto);
    }
  }

  lemma {:induction false} NoneCounted(log: seq<int>, after: int, upto: int)
    requires forall t :: t in log ==> t > upto
    ensures CountIn(log, after, upto) == 0
  {
    if log != [] {
      var rest := log[..|log| - 1];
      assert log[|log| - 1] in log;
      forall t | t in rest ensures t > upto {
        assert t in log;
      }
      NoneCounted(rest, after, upto);
    }
  }

  /** The configured limit; with a negative one no request is let through, as with zero. */
  function Limit(c: Config): nat {
    if c.maxRequests < 0 then 0 else c.maxRequests
  }

  // Histories of ordered runs.

  function LastTime(h: Past, start: int): int {
    if h.Ruled? then h.now else start
  }

  ghost predicate RuledAfter(c: Config, before: Past, now: int, ruling: Ruling) {
    exists checked :: LastTime(before, checked) <= checked <= now && ruling == Judge(c, before, checked, now)
  }

  /** Every ruling was judged on what came before it, on a clock that does not run backwards. */
  ghost predicate Judged(c: Config, h: Past) {
    h.Ruled? ==> Judged(c, h.before) && RuledAfter(c, h.before, h.now, h.ruling)
  }

  lemma {:induction false} HistoryJudged(c: Config, run: Run, ip: string)
    requires Ordered(run)
    ensures Judged(c, History(c, run, ip))
    ensures History(c, run, ip).Ruled? ==> run.Then? && History(c, run, ip).now <= run.call.Last()
  {
    if run.Then? {
      HistoryJudged(c, run.before, ip);
      if run.call.Allow? && run.call.ip == ip {
        var h := History(c, run.before, ip);
        assert LastTime(h, run.call.checked) <= run.call.checked;
      }
    }
  }

  /** The admissions since the latest ban come no earlier than its end and no later than the last ruling. */
  lemma {:induction false} EpochStartsAfterBan(c: Config, h: Past)
    requires Judged(c, h) && h.Ruled?
    ensures forall t :: t in AdmittedSince(h) ==> t <= h.now
    ensures BanEnd(c, h).Some? ==> forall t :: t in AdmittedSince(h) ==> t >= BanEnd(c, h).value
  {
    if h.before.Ruled? {
      EpochStartsAfterBan(c, h.before);
    }
  }

  /** Inside one ban-free epoch no window holds more than the limit. */
  lemma {:induction false} EpochKeepsTheLimit(c: Config, h: Past, after: int, upto: int)
    requires Judged(c, h) && upto - after <= c.window
    ensures CountIn(AdmittedSince(h), after, upto) <= Limit(c)
  {
    if h.Ruled? {
      EpochKeepsTheLimit(c, h.before, after, upto);
      if h.ruling.Admitted? {
        var log := AdmittedSince(h.before);
        CountAppend(log, h.now, after, upto);
        if after < h.now <= upto {
          CountedAreInWindow(log, after, h.now - c.window, upto);
        }
      }
    }
  }

  /** The history up to and including the strike that started the latest ban. */
  function UpToStrike(h: Past): (g: Past)
    ensures g.Ruled? ==> g.ruling.Struck?
  {
    match h
    case Nothing => Nothing
    case Ruled(before, _, ruling) => if ruling.Struck? then h else UpToStrike(before)
  }

  function Length(h: Past): nat {
    if h.Ruled? then Length(h.before) + 1 else 0
  }

  lemma {:induction false} SplitAtStrike(c: Config, h: Past, after: int, upto: int)
    ensures AdmittedIn(h, after, upto) ==
            AdmittedIn(UpToStrike(h), after, upto) + CountIn(AdmittedSince(h), after, upto)
    ensures BanEnd(c, h) == BanEnd(c, UpToStrike(h))
    ensures Judged(c, h) ==> Judged(c, UpToStrike(h))
    ensures Length(UpToStrike(h)) <= Length(h)
  {
    if h.Ruled? && !h.ruling.Struck? {
      SplitAtStrike(c, h.before, after, upto);
      if h.ruling.Admitted? {
        CountAppend(AdmittedSince(h.before), h.now, after, upto);
      }
    }
  }

  /** Nothing is admitted after the last ruling of an ordered history. */
  lemma {:induction false} NothingLater(c: Config, h: Past, after: int, upto: int, cut: int)
    requires Judged(c, h) && cut <= upto && (h.Ruled? ==> h.now <= cut)
    ensures AdmittedIn(h, after, upto) == AdmittedIn(h, after, cut)
  {
    if h.Ruled? {
      NothingLater(c, h.before, after, upto, cut);
    }
  }

  lemma {:induction false} NoneInEmptyInterval(h: Past, after: int, upto: int)
    requires upto <= after
    ensures AdmittedIn(h, after, upto) == 0
  {
    if h.Ruled? {
      NoneInEmptyInterval(h.before, after, upto);
    }
  }

  lemma OneEpochMore(limit: nat, k: nat)
    requires k >= 1
    ensures limit * (k - 1) + limit == limit * k >= limit
  {
  }

  lemma EarlierEpochsEndABanBefore(c: Config, h: Past, after: int, upto: int)
    requires Judged(c, h) && c.ban > 0 && UpToStrike(h).Ruled?
    requires CountIn(AdmittedSince(h), after, upto) > 0
    ensures AdmittedIn(UpToStrike(h), after, upto) == AdmittedIn(UpToStrike(h), after, upto - c.ban)
  {
    var g := UpToStrike(h);
    SplitAtStrike(c, h, after, upto);
    EpochStartsAfterBan(c, h);
    if g.now + c.ban > upto {
      NoneCounted(AdmittedSince(h), after, upto);
    }
    NothingLater(c, g, after, upto, upto - c.ban);
  }

  /** One limit for each ban that begins within `width`. */
  function EpochBound(c: Config, width: int): nat
    requires c.ban > 0
    decreases width
  {
    if width <= 0 then 0 else Limit(c) + EpochBound(c, width - c.ban)
  }

  lemma {:induction false} EpochBoundIs(c: Config, width: int)
    requires c.ban > 0
    ensures EpochBound(c, width) == Limit(c) * CeilDiv(width, c.ban)
    decreases width
  {
    if width > 0 {
      EpochBoundIs(c, width - c.ban);
      OneEpochMore(Limit(c), CeilDiv(width, c.ban));
    }
  }

  /** The epochs met by (after, upto] are a ban apart, so there are at most ceil((upto - after) / ban). */
  lemma {:induction false} EpochsAreABanApart(c: Config, h: Past, after: int, upto: int)
    requires Judged(c, h) && c.ban > 0 && upto - after <= c.window
    ensures AdmittedIn(h, after, upto) <= EpochBound(c, upto - after)
    decreases Length(h)
  {
    if upto <= after {
      NoneInEmptyInterval(h, after, upto);
    } else {
      var g := UpToStrike(h);
      SplitAtStrike(c, h, after, upto);
      EpochKeepsTheLimit(c, h, after, upto);
      if g.Ruled? {
        var end := if CountIn(AdmittedSince(h), after, upto) == 0 then upto else upto - c.ban;
        if end < upto {
          EarlierEpochsEndABanBefore(c, h, after, upto);
        }
        EpochsAreABanApart(c, g.before, after, end);
      }
    }
  }

  // What the code lets through.

  /** How many of the requests of `ip` made in (after, upto] the limiter let through in this run. */
  function Passed(c: Config, run: Run, ip: string, after: int, upto: int): nat {
    match run
    case Start => 0
    case Then(before, call) =>
      Passed(c, before, ip, after, upto) +
      if call.Allow? && call.ip == ip && AnswerAfter(c, before, call) == Verdict(true)
      then Hit(call.now, after, upto) else 0
  }

  lemma {:induction false} PassedAreAdmitted(c: Config, run: Run, ip: string, after: int, upto: int)
    requires Ordered(run) && ip != ""
    ensures Passed(c, run, ip, after, upto) == AdmittedIn(History(c, run, ip), after, upto)
  {
    if run.Then? {
      PassedAreAdmitted(c, run.before, ip, after, upto);
      if run.call.Allow? && run.call.ip == ip {
        AnswersFromHistory(c, run.before, run.call);
      }
    }
  }

  function PassedInWindow(c: Config, run: Run, ip: string, after: int): nat {
    Passed(c, run, ip, after, after + c.window)
  }

  /** Over every run, at most M * ceil(W / B) requests of one address pass in any window. */
  lemma WindowBound(c: Config, run: Run, ip: string, after: int)
    requires Ordered(run) && ip != "" && c.ban > 0
    ensures PassedInWindow(c, run, ip, after) <= Limit(c) * CeilDiv(c.window, c.ban)
  {
    PassedAreAdmitted(c, run, ip, after, after + c.window);
    HistoryJudged(c, run, ip);
    EpochsAreABanApart(c, History(c, run, ip), after, after + c.window);
    EpochBoundIs(c, c.window);
  }

  /** `g` is an earlier state of the history `h`. */
  predicate Earlier(g: Past, h: Past) {
    h.Ruled? && (g == h.before || Earlier(g, h.before))
  }

  lemma {:induction false} BanOutlivesStrike(c: Config, g: Past, h: Past)
    requires Judged(c, h) && (g == h || Earlier(g, h)) && g.Ruled? && g.ruling.Struck?
    ensures BanEnd(c, h).Some? && g.now <= h.now && g.now + c.ban <= BanEnd(c, h).value
  {
    if g != h {
      BanOutlivesStrike(c, g, h.before);
    }
  }

  /** A ban is never extended: a later strike comes only after the earlier ban has run its full length. */
  lemma StrikesAreABanApart(c: Config, g: Past, h: Past)
    requires Judged(c, h) && Earlier(g, h)
    requires g.Ruled? && g.ruling.Struck? && h.ruling.Struck?
    ensures g.now + c.ban <= h.now
  {
    BanOutlivesStrike(c, g, h.before);
  }

  // The bound is met.

  /** `n` requests of `ip` at time `t`, after `run`. */
  function Knocking(run: Run, ip: string, t: int, n: nat): Run {
    if n == 0 then run else Then(Knocking(run, ip, t, n - 1), Allow(ip, t, t))
  }

  /** How long a banned address stays banned: a ban of no length ends as it starts. */
  function BanLength(c: Config): nat {
    if c.ban < 0 then 0 else c.ban
  }

  /** When the burst after `k` bans begins. */
  function BurstTime(c: Config, k: nat): nat {
    if k == 0 then 0 else BurstTime(c, k - 1) + BanLength(c)
  }

  lemma {:induction false} BurstTimeIs(c: Config, k: nat)
    ensures BurstTime(c, k) == k * BanLength(c)
  {
    if k > 0 {
      BurstTimeIs(c, k - 1);
    }
  }

  /** A run that fills the limit again as soon as the ban for the time before has ended, `k` times. */
  function Bursts(c: Config, ip: string, k: nat): Run {
    if k == 0 then Start else Knocking(Bursts(c, ip, k - 1), ip, BurstTime(c, k - 1), Limit(c) + 1)
  }

  /** No ban is running at `t`, and the `n` requests admitted since the last one were all made at `t`. */
  ghost predicate FilledAt(c: Config, run: Run, ip: string, t: int, n: nat) {
    var h := History(c, run, ip);
    && Ordered(run) && (run.Then? ==> run.call.Last() <= t)
    && |AdmittedSince(h)| == n && (forall s :: s in AdmittedSince(h) ==> s == t)
    && !BannedAt(c, h, t)
  }

  lemma {:induction false} FillTheLimit(c: Config, run: Run, ip: string, t: int, n: nat, after: int, upto: int)
    requires FilledAt(c, run, ip, t, 0) && n <= Limit(c) && after < t <= upto
    ensures
      var more := Knocking(run, ip, t, n);
      && FilledAt(c, more, ip, t, n)
      && AdmittedIn(History(c, more, ip), after, upto) == AdmittedIn(History(c, run, ip), after, upto) + n
  {
    if n > 0 {
      FillTheLimit(c, run, ip, t, n - 1, after, upto);
    }
  }

  /** One request too many starts a ban that ends at `t + ban`. */
  lemma OneTooMany(c: Config, run: Run, ip: string, t: int, after: int, upto: int)
    requires c.window > 0 && FilledAt(c, run, ip, t, Limit(c))
    ensures
      var more := Then(run, Allow(ip, t, t));
      && FilledAt(c, more, ip, t + BanLength(c), 0)
      && AdmittedIn(History(c, more, ip), after, upto) == AdmittedIn(History(c, run, ip), after, upto)
  {
    InWindowKeepsAll(AdmittedSince(History(c, run, ip)), t - c.window);
  }

  /** Filling the limit and being banned for it adds one limit to what has passed. */
  lemma OneMoreBurst(c: Config, run: Run, ip: string, t: nat, upto: int)
    requires FilledAt(c, run, ip, t, 0) && t <= upto && c.window > 0
    ensures
      var more := Knocking(run, ip, t, Limit(c) + 1);
      && FilledAt(c, more, ip, t + BanLength(c), 0)
      && AdmittedIn(History(c, more, ip), -1, upto) == AdmittedIn(History(c, run, ip), -1, upto) + Limit(c)
  {
    FillTheLimit(c, run, ip, t, Limit(c), -1, upto);
    OneTooMany(c, Knocking(run, ip, t, Limit(c)), ip, t, -1, upto);
  }

  lemma {:induction false} BurstsFillTheLimit(c: Config, ip: string, k: nat)
    requires c.window > 0 && (k > 0 ==> BurstTime(c, k - 1) < c.window)
    ensures FilledAt(c, Bursts(c, ip, k), ip, BurstTime(c, k), 0)
    ensures AdmittedIn(History(c, Bursts(c, ip, k), ip), -1, c.window - 1) == Limit(c) * k
  {
    if k > 0 {
      BurstsFillTheLimit(c, ip, k - 1);
      OneMoreBurst(c, Bursts(c, ip, k - 1), ip, BurstTime(c, k - 1), c.window - 1);
      OneEpochMore(Limit(c), k);
    }
  }

  lemma BurstsPass(c: Config, ip: string, k: nat)
    requires c.window > 0 && ip != "" && (k > 0 ==> BurstTime(c, k - 1) < c.window)
    ensures Ordered(Bursts(c, ip, k)) && PassedInWindow(c, Bursts(c, ip, k), ip, -1) == Limit(c) * k
  {
    BurstsFillTheLimit(c, ip, k);
    PassedAreAdmitted(c, Bursts(c, ip, k), ip, -1, c.window - 1);
    assert -1 + c.window == c.window - 1;
  }

  /** The bound is the best possible for every limit, every window and every ban that has a length. */
  lemma WindowBoundIsMet(c: Config, ip: string) returns (run: Run)
    requires c.ban > 0 && ip != ""
    ensures Ordered(run) && PassedInWindow(c, run, ip, -1) == Limit(c) * CeilDiv(c.window, c.ban)
  {
    if c.window <= 0 {
      return Start;
    }
    var k := CeilDiv(c.window, c.ban);
    BurstTimeIs(c, k - 1);
    BurstsPass(c, ip, k);
    run := Bursts(c, ip, k);
  }

  /** Without a ban there is no bound: any number of requests can pass at one instant. */
  lemma AnyNumberWithoutBan(c: Config, ip: string, n: nat) returns (run: Run)
    requires c.ban <= 0 && c.window > 0 && c.maxRequests > 0 && ip != ""
    ensures Ordered(run) && PassedInWindow(c, run, ip, -1) >= n
  {
    if n > 0 {
      BurstTimeIs(c, n - 1);
    }
    BurstsPass(c, ip, n);
    run := Bursts(c, ip, n);
    AtLeastOneEach(Limit(c), n);
  }

  lemma AtLeastOneEach(limit: nat, n: nat)
    requires limit >= 1
    ensures limit * n >= n
  {
    assert (limit - 1) * n >= 0;
  }

  /** No run ever lets more than `most` requests through in one window. */
  ghost predicate Keeps(c: Config, most: nat) {
    forall run, ip, after ::
      Ordered(run) && ip != "" ==> PassedInWindow(c, run, ip, after) <= most
  }

  lemma {:induction false} NothingPasses(c: Config, run: Run, ip: string, after: int, upto: int)
    requires c.maxRequests <= 0 || upto <= after
    requires ip != ""
    ensures Passed(c, run, ip, after, upto) == 0
  {
    if run.Then? {
      NothingPasses(c, run.before, ip, after, upto);
    }
  }

  lemma KeptWhenBanCoversWindow(c: Config)
    requires c.maxRequests <= 0 || c.window <= 0 || c.ban >= c.window
    ensures Keeps(c, Limit(c))
  {
    forall run, ip, after | Ordered(run) && ip != ""
      ensures PassedInWindow(c, run, ip, after) <= Limit(c)
    {
      if c.maxRequests <= 0 || c.window <= 0 {
        NothingPasses(c, run, ip, after, after + c.window);
      } else {
        WindowBound(c, run, ip, after);
        assert CeilDiv(c.window, c.ban) == 1;
      }
    }
  }

  /** The configured limit is kept in every window exactly when a ban lasts at least as long as the
      window, or nothing can pass or be counted anyway. */
  lemma LimitKeptIffBanCoversWindow(c: Config)
    ensures Keeps(c, Limit(c)) <==> c.maxRequests <= 0 || c.window <= 0 || c.ban >= c.window
  {
    if c.maxRequests <= 0 || c.window <= 0 || c.ban >= c.window {
      KeptWhenBanCoversWindow(c);
    } else if c.ban <= 0 {
      var run := AnyNumberWithoutBan(c, "a", Limit(c) + 1);
      assert PassedInWindow(c, run, "a", -1) > Limit(c);
    } else {
      var run := WindowBoundIsMet(c, "a");
      TwoEpochsAreMore(Limit(c), CeilDiv(c.window, c.ban));
      assert PassedInWindow(c, run, "a", -1) > Limit(c);
    }
  }

  lemma TwoEpochsAreMore(limit: nat, k: nat)
    requires limit >= 1 && k >= 2
    ensures limit * k > limit
  {
    OneEpochMore(limit, k);
    OneEpochMore(limit, k - 1);
  }

  lemma NothingBoundsIt(c: Config, most: nat)
    requires c.ban <= 0 && c.window > 0 && c.maxRequests > 0
    ensures !Keeps(c, most)
  {
    var run := AnyNumberWithoutBan(c, "a", most + 1);
    assert PassedInWindow(c, run, "a", -1) > most;
  }

  lemma EpochsBoundIt(c: Config)
    requires c.ban > 0
    ensures Keeps(c, Limit(c) * CeilDiv(c.window, c.ban))
  {
    forall run, ip, after | Ordered(run) && ip != ""
      ensures PassedInWindow(c, run, ip, after) <= Limit(c) * CeilDiv(c.window, c.ban)
    {
      WindowBound(c, run, ip, after);
    }
  }

  /** There is some bound on what passes in a window exactly when a ban has a length, or nothing can pass
      or be counted anyway. */
  lemma BoundedIffBanHasLength(c: Config)
    ensures (exists most :: Keeps(c, most)) <==> c.maxRequests <= 0 || c.window <= 0 || c.ban > 0
  {
    if c.maxRequests <= 0 || c.window <= 0 {
      KeptWhenBanCoversWindow(c);
    } else if c.ban > 0 {
      EpochsBoundIt(c);
    } else {
      forall most: nat ensures !Keeps(c, most) {
        NothingBoundsIt(c, most);
      }
    }
  }
}
