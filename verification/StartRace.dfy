/**
 `StartContainer` checks the size under the lock, lets the lock go, and registers later. Here any
 number of threads call it at once, up to `k` at a time, while others delete entries.
 The pool of PoolProtocol is the case of a single caller.
 */
module StartRace {
  import opened Counting
  import opened PoolProtocol

  datatype Race = Race(registered: set<Id>, calls: map<nat, StartPc>, used: set<Id>)

  datatype Move =
    | Call(t: nat)
    | Look(t: nat)                    // the size check, under the lock
    | Make(t: nat, id: Id, ok: bool)  // ContainerCreate
    | Launch(t: nat, ok: bool)        // ContainerStart
    | GiveUp(t: nat)                  // ContainerRemove after a failed start
    | Enter(t: nat)                   // registration, under the lock
    | Delete(id: Id)

  function End(s: Race, c: nat): Race {
    s.(calls := s.calls - {c})
  }

  predicate Moves(max: int, k: nat, m: Move, s: Race, t: Race) {
    match m
    case Call(c) => c !in s.calls && |s.calls.Keys| < k && t == s.(calls := s.calls[c := StartPc.Check])
    case Look(c) =>
      && c in s.calls && s.calls[c] == StartPc.Check
      && t == if |s.registered| >= max then End(s, c) else s.(calls := s.calls[c := Create])
    case Make(c, id, ok) =>
      && c in s.calls && s.calls[c] == Create && id !in s.used
      && t == if ok then s.(calls := s.calls[c := StartPc.Launch(id)], used := s.used + {id}) else End(s, c)
    case Launch(c, ok) =>
      && c in s.calls && s.calls[c].Launch?
      && t == s.(calls := s.calls[c := if ok then Register(s.calls[c].id) else Abort(s.calls[c].id)])
    case GiveUp(c) => c in s.calls && s.calls[c].Abort? && t == End(s, c)
    case Enter(c) =>
      c in s.calls && s.calls[c].Register? && t == End(s, c).(registered := s.registered + {s.calls[c].id})
    case Delete(id) => t == s.(registered := s.registered - {id})
  }

  /** The calls that have seen room and may still register a container. */
  function Admitted(s: Race): set<nat> {
    set c | c in s.calls && s.calls[c] != StartPc.Check
  }

  ghost predicate Bounded(max: int, k: nat, s: Race) {
    && |s.calls.Keys| <= k
    && |s.registered| + |Admitted(s)| <= max + k - 1
    && |s.registered| <= max + k - 1
  }

  /** A call that ends takes its own count with it, and may leave one container behind. */
  lemma EndKeepsBound(max: int, k: nat, c: nat, s: Race, t: Race)
    requires Bounded(max, k, s) && c in s.calls && t.calls == s.calls - {c}
    requires t.registered == s.registered || (s.calls[c] != StartPc.Check && |t.registered| <= |s.registered| + 1)
    ensures Bounded(max, k, t)
  {
    SubsetSize(t.calls.Keys, s.calls.Keys);
    assert Admitted(t) == Admitted(s) - {c};
  }

  /** A call that goes on counts as before, or from now on if it has just seen room. */
  lemma GoingOnKeepsBound(max: int, k: nat, c: nat, pc: StartPc, s: Race, t: Race)
    requires Bounded(max, k, s) && t.registered == s.registered
    requires t.calls == s.calls[c := pc] && pc != StartPc.Check
    requires c in s.calls && (s.calls[c] == StartPc.Check ==> |s.registered| < max)
    ensures Bounded(max, k, t)
  {
    assert t.calls.Keys == s.calls.Keys;
    assert Admitted(t) == Admitted(s) + {c};
    SubsetSize(Admitted(t), t.calls.Keys);
  }

  lemma CallKeepsBound(max: int, k: nat, c: nat, s: Race, t: Race)
    requires Bounded(max, k, s) && Moves(max, k, Call(c), s, t)
    ensures Bounded(max, k, t)
  {
    assert t.calls.Keys == s.calls.Keys + {c} && Admitted(t) == Admitted(s);
  }

  lemma DeleteKeepsBound(max: int, k: nat, id: Id, s: Race, t: Race)
    requires Bounded(max, k, s) && Moves(max, k, Delete(id), s, t)
    ensures Bounded(max, k, t)
  {
    assert Admitted(t) == Admitted(s);
    SubsetSize(t.registered, s.registered);
  }

  lemma EnterKeepsBound(max: int, k: nat, c: nat, s: Race, t: Race)
    requires Bounded(max, k, s) && Moves(max, k, Move.Enter(c), s, t)
    ensures Bounded(max, k, t)
  {
    EndKeepsBound(max, k, c, s, t);
  }

  lemma MoveKeepsBound(max: int, k: nat, m: Move, s: Race, t: Race)
    requires Bounded(max, k, s) && Moves(max, k, m, s, t)
    ensures Bounded(max, k, t)
  {
    match m {
      case Call(c) => CallKeepsBound(max, k, c, s, t);
      case Delete(id) => DeleteKeepsBound(max, k, id, s, t);
      case Look(c) =>
        if |s.registered| >= max {
          EndKeepsBound(max, k, c, s, t);
        } else {
          GoingOnKeepsBound(max, k, c, Create, s, t);
        }
      case Make(c, id, ok) =>
        if ok {
          GoingOnKeepsBound(max, k, c, StartPc.Launch(id), s, t);
        } else {
          EndKeepsBound(max, k, c, s, t);
        }
      case Launch(c, _) => GoingOnKeepsBound(max, k, c, t.calls[c], s, t);
      case GiveUp(c) => EndKeepsBound(max, k, c, s, t);
      case Enter(c) => EnterKeepsBound(max, k, c, s, t);
    }
  }

  /** A run of the race, the latest state outermost. */
  datatype History = Begin(s: Race) | Then(before: History, m: Move, s: Race)

  ghost predicate Runs(max: int, k: nat, h: History) {
    match h
    case Begin(s) => |s.registered| <= max && s.calls == map[]
    case Then(before, m, s) => Runs(max, k, before) && Moves(max, k, m, before.s, s)
  }

  /** With at most `k` calls in flight the pool overshoots by at most `k - 1`. */
  lemma {:induction false} OvershootBound(max: int, k: nat, h: History)
    requires k >= 1 && Runs(max, k, h)
    ensures |h.s.registered| <= max + k - 1 && Bounded(max, k, h.s)
  {
    match h {
      case Begin(s) => assert Admitted(s) == {};
      case Then(before, m, s) =>
        OvershootBound(max, k, before);
        MoveKeepsBound(max, k, m, before.s, s);
    }
  }

  // The bound is met.

  function Below(n: nat): (all: set<nat>)
    ensures |all| == n && forall i: nat :: i in all ==> i < n
  {
    if n == 0 then {} else Below(n - 1) + {n - 1}
  }

  /** `size` containers are registered, and the calls from `lo` to `n` have seen room. */
  ghost predicate Lined(s: Race, size: nat, lo: nat, n: nat) {
    && |s.registered| == size && s.registered <= s.used && (forall id :: id in s.used ==> id < size)
    && (forall c :: c in s.calls ==> lo <= c < n && s.calls[c] == Create)
    && (forall c :: lo <= c < n ==> c in s.calls)
    && |s.calls.Keys| == n - lo
  }

  lemma SeesRoom(max: int, k: nat, n: nat, s: Race) returns (called: Race, seen: Race)
    requires max >= 1 && n < k && Lined(s, max - 1, 0, n)
    ensures Moves(max, k, Call(n), s, called) && Moves(max, k, Look(n), called, seen)
    ensures Lined(seen, max - 1, 0, n + 1)
  {
    called := s.(calls := s.calls[n := StartPc.Check]);
    seen := called.(calls := called.calls[n := Create]);
    assert seen.calls.Keys == s.calls.Keys + {n};
  }

  lemma {:induction false} AllSeeRoom(max: int, k: nat, n: nat) returns (h: History)
    requires max >= 1 && n <= k
    ensures Runs(max, k, h) && Lined(h.s, max - 1, 0, n)
  {
    if n == 0 {
      h := Begin(Race(Below(max - 1), map[], Below(max - 1)));
    } else {
      h := AllSeeRoom(max, k, n - 1);
      var called, seen := SeesRoom(max, k, n - 1, h.s);
      h := Then(Then(h, Call(n - 1), called), Look(n - 1), seen);
    }
  }

  lemma OneFewerLined(size: nat, lo: nat, n: nat, s: Race, t: Race)
    requires lo < n && Lined(s, size, lo, n)
    requires t == Race(s.registered + {size}, s.calls - {lo}, s.used + {size})
    ensures Lined(t, size + 1, lo + 1, n)
  {
    assert t.calls.Keys == s.calls.Keys - {lo};
    assert size !in s.registered;
  }

  lemma Makes(max: int, k: nat, c: nat, id: Id, s: Race) returns (made: Race, launched: Race)
    requires c in s.calls && s.calls[c] == Create && id !in s.used
    ensures Moves(max, k, Make(c, id, true), s, made) && Moves(max, k, Move.Launch(c, true), made, launched)
    ensures launched == Race(s.registered, s.calls[c := Register(id)], s.used + {id})
  {
    made := s.(calls := s.calls[c := StartPc.Launch(id)], used := s.used + {id});
    launched := made.(calls := made.calls[c := Register(id)]);
    assert launched.calls == s.calls[c := Register(id)];
  }

  lemma Enters(max: int, k: nat, c: nat, s: Race) returns (made: Race, launched: Race, end: Race)
    requires max >= 1 && c < k && Lined(s, max - 1 + c, c, k)
    ensures Moves(max, k, Make(c, max - 1 + c, true), s, made)
    ensures Moves(max, k, Move.Launch(c, true), made, launched)
    ensures Moves(max, k, Move.Enter(c), launched, end)
    ensures Lined(end, max + c, c + 1, k)
  {
    var id := max - 1 + c;
    made, launched := Makes(max, k, c, id, s);
    end := End(launched, c).(registered := launched.registered + {id});
    assert end.calls == s.calls - {c};
    OneFewerLined(id, c, k, s, end);
  }

  lemma {:induction false} AllEnter(max: int, k: nat, done: nat) returns (h: History)
    requires max >= 1 && done <= k
    ensures Runs(max, k, h) && Lined(h.s, max - 1 + done, done, k)
  {
    if done == 0 {
      h := AllSeeRoom(max, k, k);
    } else {
      h := AllEnter(max, k, done - 1);
      var c := done - 1;
      var made, launched, end := Enters(max, k, c, h.s);
      h := Then(Then(Then(h, Make(c, max - 1 + c, true), made), Move.Launch(c, true), launched), Move.Enter(c), end);
    }
  }

  /** The overshoot is real: `k` callers can bring the pool to exactly `max + k - 1`. */
  lemma OvershootIsMet(max: int, k: nat) returns (h: History)
    requires max >= 1 && k >= 1
    ensures Runs(max, k, h) && |h.s.registered| == max + k - 1
  {
    h := AllEnter(max, k, k);
  }

  // Exactly when the limit is kept.

  /** With no room at all every call ends at the size check. */
  lemma {:induction false} NoRoomNoCall(k: nat, h: History)
    requires Runs(0, k, h)
    ensures h.s.registered == {} && forall c :: c in h.s.calls ==> h.s.calls[c] == StartPc.Check
  {
    if h.Then? {
      NoRoomNoCall(k, h.before);
    }
  }

  /** The limit is kept over every run exactly when the calls of `StartContainer` cannot overlap, or when
      there is no room to begin with. */
  lemma LimitKeptExactlyWhen(max: nat, k: nat)
    requires k >= 1
    ensures (forall h :: Runs(max, k, h) ==> |h.s.registered| <= max) <==> k == 1 || max == 0
  {
    if k == 1 || max == 0 {
      forall h | Runs(max, k, h) ensures |h.s.registered| <= max {
        if k == 1 {
          OvershootBound(max, k, h);
        } else {
          NoRoomNoCall(k, h);
        }
      }
    } else {
      var h := OvershootIsMet(max, k);
    }
  }
}
