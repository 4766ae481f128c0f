/**
 The sliding-window rate limiter of executor/ratelimiter.go on values.

 Two descriptions of the same limiter live here. `Step` is what the code does to its two maps,
 with lazy expiry, pruning and the background sweep. `History` is what the limiter is for: the
 complete list of one address's rulings, each of them judged from that list alone.
 The clock is an integer and does not run backwards in lock order; Go's wrap-around of
 64-bit nanoseconds is not modelled.
 */
module LimiterModel {
  import opened Options

  datatype Config = Config(maxRequests: int, window: int, ban: int)

  /** One call, with every reading of the clock it makes. `Allow` reads it twice: once against
      the ban and, if that has passed, once more for the window. */
  datatype Call =
    | Allow(ip: string, checked: int, now: int)
    | IsBlocked(ip: string, at: int)
    | Cooldown(ip: string, at: int)
    | Sweep(at: int)
  {
    function First(): int {
      if Allow? then checked else at
    }

    function Last(): int {
      if Allow? then now else at
    }
  }

  datatype Answer = Verdict(ok: bool) | Blocked(yes: bool) | Remaining(left: int) | Swept

  datatype Store = Store(requests: map<string, seq<int>>, banned: map<string, int>)

  const EMPTY := Store(map[], map[])

  /** The entries strictly after `start`, in their order. */
  function InWindow(log: seq<int>, start: int): (kept: seq<int>)
    ensures |kept| <= |log|
  {
    if log == [] then []
    else
      var early, t := InWindow(log[..|log| - 1], start), log[|log| - 1];
      if t > start then early + [t] else early
  }

  function LogOf(s: Store, ip: string): seq<int> {
    if ip in s.requests then s.requests[ip] else []
  }

  function AllowStep(c: Config, s: Store, ip: string, checked: int, now: int): (Store, bool) {
    if ip == "" then (s, true)
    else if ip in s.banned && checked < s.banned[ip] then (s, false)
    else
      var valid := InWindow(LogOf(s, ip), now - c.window);
      if |valid| >= c.maxRequests then
        (Store(s.requests - {ip}, s.banned[ip := now + c.ban]), false)
      else
        (Store(s.requests[ip := valid + [now]], s.banned - {ip}), true)
  }

  /** The bans that have not ended before `now`. */
  function RunningBans(banned: map<string, int>, now: int): map<string, int> {
    map ip | ip in banned && now <= banned[ip] :: banned[ip]
  }

  /** The logs cut down to the entries after `cutoff`, the empty ones dropped. */
  function PrunedLogs(requests: map<string, seq<int>>, cutoff: int): map<string, seq<int>> {
    map ip | ip in requests && InWindow(requests[ip], cutoff) != [] :: InWindow(requests[ip], cutoff)
  }

  function SweepStep(c: Config, s: Store, now: int): Store {
    Store(PrunedLogs(s.requests, now - c.window), RunningBans(s.banned, now))
  }

  /** What one call does to the two maps, and what it answers. */
  function Step(c: Config, s: Store, call: Call): (Store, Answer) {
    match call
    case Allow(ip, checked, now) =>
      var (t, ok) := AllowStep(c, s, ip, checked, now);
      (t, Verdict(ok))
    case IsBlocked(ip, at) =>
      if ip == "" || ip !in s.banned then (s, Blocked(false))
      else if at < s.banned[ip] then (s, Blocked(true))
      else (s.(banned := s.banned - {ip}), Blocked(false))
    case Cooldown(ip, at) =>
      if ip == "" || ip !in s.banned then (s, Remaining(0))
      else if s.banned[ip] - at < 0 then (s.(banned := s.banned - {ip}), Remaining(0))
      else (s, Remaining(s.banned[ip] - at))
    case Sweep(at) => (SweepStep(c, s, at), Swept)
  }

  /** A run of calls, the latest outermost. */
  datatype Run = Start | Then(before: Run, call: Call)

  function StoreAfter(c: Config, run: Run): Store {
    match run
    case Start => EMPTY
    case Then(before, call) => Step(c, StoreAfter(c, before), call).0
  }

  /** The answer `call` gets when it is made right after `run`. */
  function AnswerAfter(c: Config, run: Run, call: Call): Answer {
    Step(c, StoreAfter(c, run), call).1
  }

  /** `call` may follow `run` on a clock that never runs backwards. */
  predicate Follows(run: Run, call: Call) {
    call.First() <= call.Last() && (run.Then? ==> run.call.Last() <= call.First())
  }

  predicate Ordered(run: Run) {
    run.Then? ==> Ordered(run.before) && Follows(run.before, run.call)
  }

  // The full-history specification.

  /** Admitted: let through. Refused: turned away during a ban. Struck: turned away for having
      filled the window, which starts a ban. */
  datatype Ruling = Admitted | Refused | Struck

  /** Every `Allow` call of one address so far, the latest outermost. */
  datatype Past = Nothing | Ruled(before: Past, now: int, ruling: Ruling)

  /** When the latest ban of this history ends. */
  function BanEnd(c: Config, h: Past): Option<int> {
    match h
    case Nothing => None
    case Ruled(before, now, ruling) => if ruling.Struck? then Some(now + c.ban) else BanEnd(c, before)
  }

  /** The times of the requests let through since the latest ban. */
  function AdmittedSince(h: Past): seq<int> {
    match h
    case Nothing => []
    case Ruled(before, now, Struck) => []
    case Ruled(before, now, Refused) => AdmittedSince(before)
    case Ruled(before, now, Admitted) => AdmittedSince(before) + [now]
  }

  predicate BannedAt(c: Config, h: Past, t: int) {
    BanEnd(c, h).Some? && t < BanEnd(c, h).value
  }

  function Judge(c: Config, h: Past, checked: int, now: int): Ruling {
    if BannedAt(c, h, checked) then Refused
    else if |InWindow(AdmittedSince(h), now - c.window)| >= c.maxRequests then Struck
    else Admitted
  }

  /** Every `Allow` call of one address in the run, judged from the ones before it. */
  function History(c: Config, run: Run, ip: string): Past {
    match run
    case Start => Nothing
    case Then(before, call) =>
      var h := History(c, before, ip);
      if call.Allow? && call.ip == ip then Ruled(h, call.now, Judge(c, h, call.checked, call.now)) else h
  }

  /** What the limiter should answer an address with this history. */
  function SpecAnswer(c: Config, h: Past, call: Call): Answer
    requires !call.Sweep?
  {
    match call
    case Allow(ip, checked, now) => Verdict(ip == "" || Judge(c, h, checked, now).Admitted?)
    case IsBlocked(ip, at) => Blocked(ip != "" && BannedAt(c, h, at))
    case Cooldown(ip, at) => Remaining(if ip != "" && BannedAt(c, h, at) then BanEnd(c, h).value - at else 0)
  }

  /** The `Allow` calls of one address, everything else dropped. */
  function AllowsOf(run: Run, ip: string): Run {
    match run
    case Start => Start
    case Then(before, call) =>
      if call.Allow? && call.ip == ip then Then(AllowsOf(before, ip), call) else AllowsOf(before, ip)
  }
}
