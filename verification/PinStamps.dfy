/**
  How far the stamps of attempts may run back before the bounds of the PIN
  limiter are lost: not at all.
 */
module PinStamps {
  import opened Options
  import opened PinLimiter

  // No attempt or success carries a stamp that is older by more than `back` than
  // one passed in before it.
  ghost predicate StampsWithin(events: seq<Event>, t: int, back: nat)
    decreases |events|
  {
    events == [] || (
      && 0 <= events[0].now && (events[0].op == Query || t - back <= events[0].now)
      && StampsWithin(events[1..], Max(t, events[0].now), back))
  }

  // The bound for one address, in every run with such stamps.
  ghost predicate AddressBoundHolds(back: nat) {
    forall s, events, ip, t, from, to |
      Good(s, t) && StampsWithin(events, t, back) && NoSuccess(events, ip, from, to) && to - from <= HOUR ::
      Admitted(s, events, Some(ip), from, to) <= Allowance(to - from)
  }

  // The bound for all addresses together.
  ghost predicate OverallBoundHolds(back: nat) {
    forall s, events, t, from, to | Good(s, t) && StampsWithin(events, t, back) && to - from <= MINUTE ::
      Admitted(s, events, None, from, to) <= GLOBAL_FAIL_CAP
  }

  lemma {:induction false} WithinZero(events: seq<Event>, t: int)
    requires StampsWithin(events, t, 0)
    ensures InTime(events, t)
    decreases |events|
  {
    if events != [] {
      WithinZero(events[1..], Max(t, events[0].now));
    }
  }

  // A batch of attempts with the stamp x put in front of later events.
  lemma {:induction false} BatchFirst(batch: seq<Event>, rest: seq<Event>, start: int, x: int, back: nat)
    requires batch != [] && forall e <- batch :: e.op == Begin && e.now == x
    requires 0 <= x && start - back <= x && StampsWithin(rest, Max(start, x), back) && OnlyAttempts(rest)
    ensures StampsWithin(batch + rest, start, back) && OnlyAttempts(batch + rest)
    decreases |batch|
  {
    var all := batch + rest;
    assert all[0] == batch[0] && all[1..] == batch[1..] + rest && batch[0] in batch;
    if |batch| == 1 {
      assert all[1..] == rest;
    } else {
      BatchFirst(batch[1..], rest, Max(start, x), x, back);
    }
  }

  // --- one address -------------------------------------------------------------------------

  lemma {:induction false} SomeAttempts(s: Limiter, ip: string, t: int, level: nat, fails: nat, g: nat, n: nat, rest: seq<Event>, from: int, to: int)
    returns (s': Limiter)
    requires Ready(s, ip, t, level, fails, g) && fails + n < LOCK_THRESHOLD && level <= MAX_LEVEL
    requires g + n < GLOBAL_FAIL_CAP && from <= t < to
    ensures Admitted(s, Attempts(ip, t, n) + rest, Some(ip), from, to) == n + Admitted(s', rest, Some(ip), from, to)
    ensures Ready(s', ip, t, level, fails + n, g + n)
    ensures s'.globalUntil == s.globalUntil && LockOf(s', ip, t) == LockOf(s, ip, t)
    decreases n
  {
    hide Ready, Admits, Step, Attempts, LockOf;
    s' := s;
    if n == 0 {
      NoAttempts(ip, t, rest);
    } else {
      FirstAttempt(ip, t, n, rest);
      ReadyAttempt(s, ip, t, level, fails, g);
      s' := SomeAttempts(Step(s, Event(Begin, ip, t)), ip, t, level, fails + 1, g + 1, n - 1, rest, from, to);
    }
  }

  // The fifth attempt carries an old stamp: its lock ends a minute after that
  // stamp, not a minute after the others.
  lemma {:induction false} OldAttempt(s: Limiter, ip: string, t: int, early: int, later: int) returns (s': Limiter, level: nat)
    requires 0 <= early < t <= later && early + MINUTE <= later
    requires Ready(s, ip, t, 0, 4, 4) && s.globalUntil == LockOf(s, ip, t) == 0
    ensures s' == Step(s, Event(Begin, ip, early)) && level <= 1 && Ready(s', ip, later, level, 0, 5)
  {
    s' := Step(s, Event(Begin, ip, early));
    level := AttemptOf(Prune(s', later), ip).lockLevel;
  }

  // However little the stamp of the fifth attempt is older than those before it,
  // four more attempts get in within the minute: eight where five may.
  lemma {:induction false} OldStampPassesTheLock(ip: string, t: int, early: int) returns (events: seq<Event>)
    requires 0 <= early < t
    ensures StampsWithin(events, t, t - early) && OnlyAttempts(events)
    ensures Admitted(Fresh, events, Some(ip), t, t + MINUTE) == 8
  {
    hide Ready, Admits, Step, Attempts, OnlyAttempts, LockOf, StampsWithin;
    var later := Max(t, early + MINUTE);
    var stale := Event(Begin, ip, early);
    var again := Attempts(ip, later, 4) + [];
    events := Attempts(ip, t, 4) + ([stale] + again);
    FreshIsReady(ip, t);
    var s4 := SomeAttempts(Fresh, ip, t, 0, 0, 0, 4, [stale] + again, t, t + MINUTE);
    var s5, level := OldAttempt(s4, ip, t, early, later);
    assert ([stale] + again)[0] == stale && ([stale] + again)[1..] == again;
    var s9 := SomeAttempts(s5, ip, later, level, 0, 5, 4, [], t, t + MINUTE);
    AttemptsBatch(ip, later, 4);
    AttemptsBatch(ip, t, 4);
    BatchFirst(Attempts(ip, later, 4), [], t, later, t - early);
    BatchFirst([stale], again, t, early, t - early);
    BatchFirst(Attempts(ip, t, 4), [stale] + again, t, t, t - early);
  }

  lemma {:induction false} AttemptsBatch(ip: string, t: int, n: nat)
    requires n > 0
    ensures Attempts(ip, t, n) != [] && forall e <- Attempts(ip, t, n) :: e.op == Begin && e.now == t
  {
  }

  // --- all addresses together --------------------------------------------------------------

  // Addresses without end.
  function Name(k: nat): string {
    seq(k, _ => '1')
  }

  ghost predicate Unknown(s: Limiter, k: nat) {
    forall j: nat | k <= j :: Name(j) !in s.perIP
  }

  function NewAttempts(k: nat, n: nat, t: int): (r: seq<Event>)
    ensures |r| == n
  {
    seq(n, i requires 0 <= i < n => Event(Begin, Name(k + i), t))
  }

  // A limiter that does not lock all, has counted g of them, and does not know
  // the addresses from k on.
  ghost predicate Open(s: Limiter, k: nat, t: int, g: nat) {
    && Good(s, t) && Unknown(s, k) && s.globalUntil <= t
    && s.globalFails == g && (g > 0 ==> t - s.globalSeen <= ATTEMPT_TTL)
  }

  lemma {:induction false} NewcomerAdmitted(s: Limiter, k: nat, t: int, g: nat)
    requires Open(s, k, t, g) && g + 1 < GLOBAL_FAIL_CAP
    ensures var e := Event(Begin, Name(k), t);
            Admits(s, e) && Open(Step(s, e), k + 1, t, g + 1) && Step(s, e).globalUntil == s.globalUntil
  {
    var e := Event(Begin, Name(k), t);
    StepKeepsGood(s, e, t);
    assert Name(k) !in s.perIP;
    forall j: nat | k + 1 <= j
      ensures Name(j) !in Step(s, e).perIP
    {
      assert Name(j) !in s.perIP;
    }
  }

  lemma {:induction false} NewcomersAdmitted(s: Limiter, k: nat, n: nat, t: int, g: nat, rest: seq<Event>, from: int, to: int)
    returns (s': Limiter)
    requires Open(s, k, t, g) && g + n < GLOBAL_FAIL_CAP && from <= t < to
    ensures Open(s', k + n, t, g + n) && s'.globalUntil == s.globalUntil
    ensures Admitted(s, NewAttempts(k, n, t) + rest, None, from, to) == n + Admitted(s', rest, None, from, to)
    decreases n
  {
    hide Open, Admits, Step;
    s' := s;
    var events := NewAttempts(k, n, t) + rest;
    if n == 0 {
      assert events == rest;
    } else {
      var e := Event(Begin, Name(k), t);
      NewcomerAdmitted(s, k, t, g);
      assert NewAttempts(k, n, t)[1..] == NewAttempts(k + 1, n - 1, t);
      assert events[0] == e && events[1..] == NewAttempts(k + 1, n - 1, t) + rest;
      s' := NewcomersAdmitted(Step(s, e), k + 1, n - 1, t, g + 1, rest, from, to);
    }
  }

  // In order, thirty do get in, all in one minute: the overall bound is attained.
  lemma {:induction false} ThirtyAMinuteAreAttained(t: int) returns (events: seq<Event>)
    requires 0 <= t
    ensures InTime(events, t) && OnlyAttempts(events)
    ensures Admitted(Fresh, events, None, t, t + 60_000_000_000) == 30
  {
    hide Open, Step, Admits, NewAttempts;
    var last := [Event(Begin, Name(29), t)];
    events := NewAttempts(0, 29, t) + last;
    assert Open(Fresh, 0, t, 0) by { FreshIsOpen(t); }
    var s29 := NewcomersAdmitted(Fresh, 0, 29, t, 0, last, t, t + MINUTE);
    assert Admits(s29, last[0]) by { OpenAdmits(s29, 29, t, 29); }
    assert last[1..] == [] && Admitted(s29, last, None, t, t + MINUTE) == 1;
    NewBatch(0, 29, t);
    assert StampsWithin([], t, 0);
    BatchFirst(last, [], t, t, 0);
    assert last + [] == last;
    BatchFirst(NewAttempts(0, 29, t), last, t, t, 0);
    WithinZero(events, t);
  }

  lemma {:induction false} OpenAdmits(s: Limiter, k: nat, t: int, g: nat)
    requires Open(s, k, t, g)
    ensures Admits(s, Event(Begin, Name(k), t))
  {
    assert Name(k) !in s.perIP;
  }

  // The thirtieth attempt carries an old stamp.
  lemma {:induction false} OldNewcomer(s: Limiter, k: nat, t: int, early: int, later: int)
    requires Open(s, k, t, GLOBAL_FAIL_CAP - 1) && s.globalUntil <= early < t <= later && 0 <= early && early + MINUTE <= later
    ensures Open(Step(s, Event(Begin, Name(k), early)), k + 1, later, 0)
  {
    var e := Event(Begin, Name(k), early);
    assert Name(k) !in s.perIP;
    forall j: nat | k + 1 <= j
      ensures Name(j) !in Step(s, e).perIP
    {
      assert Name(j) !in s.perIP;
    }
  }

  // However little the stamp of the thirtieth attempt is older than those before
  // it, 31 attempts get in within the minute where 30 may.
  lemma {:induction false} OldStampPassesTheGlobalLock(t: int, early: int) returns (events: seq<Event>)
    requires 0 <= early < t
    ensures StampsWithin(events, t, t - early) && OnlyAttempts(events)
    ensures Admitted(Fresh, events, None, t, t + MINUTE) == 31
  {
    hide Open, Admits, Step, NewAttempts, OnlyAttempts, StampsWithin;
    var later := Max(t, early + MINUTE);
    var stale := Event(Begin, Name(29), early);
    var again := NewAttempts(30, 2, later) + [];
    events := NewAttempts(0, 29, t) + ([stale] + again);
    assert Open(Fresh, 0, t, 0) by { FreshIsOpen(t); }
    var s29 := NewcomersAdmitted(Fresh, 0, 29, t, 0, [stale] + again, t, t + MINUTE);
    OldNewcomer(s29, 29, t, early, later);
    assert ([stale] + again)[0] == stale && ([stale] + again)[1..] == again;
    var s31 := NewcomersAdmitted(Step(s29, stale), 30, 2, later, 0, [], t, t + MINUTE);
    NewBatch(30, 2, later);
    NewBatch(0, 29, t);
    BatchFirst(NewAttempts(30, 2, later), [], t, later, t - early);
    BatchFirst([stale], again, t, early, t - early);
    BatchFirst(NewAttempts(0, 29, t), [stale] + again, t, t, t - early);
  }

  // --- the exact condition -------------------------------------------------------------------

  // If stamps may run back at all, however little, both bounds are lost.
  lemma {:induction false} BoundsHoldExactlyInOrder(back: nat)
    ensures AddressBoundHolds(back) <==> back == 0
    ensures OverallBoundHolds(back) <==> back == 0
  {
    hide AddressBoundHolds, OverallBoundHolds;
    if back == 0 {
      AddressBoundInOrder();
      OverallBoundInOrder();
    } else {
      AddressBoundLost(back);
      OverallBoundLost(back);
    }
  }

  lemma {:induction false} AddressBoundInOrder()
    ensures AddressBoundHolds(0)
  {
    hide Admitted, Good, NoSuccess;
    forall s, events, ip, t, from, to |
      Good(s, t) && StampsWithin(events, t, 0) && NoSuccess(events, ip, from, to) && to - from <= HOUR
      ensures Admitted(s, events, Some(ip), from, to) <= Allowance(to - from)
    {
      WithinZero(events, t);
      AddressIsRateLimited(s, events, ip, t, from, to);
    }
  }

  lemma {:induction false} OverallBoundInOrder()
    ensures OverallBoundHolds(0)
  {
    hide Admitted, Good;
    forall s, events, t, from, to | Good(s, t) && StampsWithin(events, t, 0) && to - from <= MINUTE
      ensures Admitted(s, events, None, from, to) <= GLOBAL_FAIL_CAP
    {
      WithinZero(events, t);
      EverybodyIsRateLimited(s, events, t, from, to);
    }
  }

  lemma {:induction false} AddressBoundLost(back: nat)
    requires back > 0
    ensures !AddressBoundHolds(back)
  {
    hide Admitted, StampsWithin, Good;
    FreshIsGood(back);
    var events := OldStampPassesTheLock("", back, 0);
    assert NoSuccess(events, "", back, back + MINUTE);
    assert Admitted(Fresh, events, Some(""), back, back + MINUTE) > Allowance(back + MINUTE - back);
  }

  lemma {:induction false} OverallBoundLost(back: nat)
    requires back > 0
    ensures !OverallBoundHolds(back)
  {
    hide Admitted, StampsWithin, Good;
    FreshIsGood(back);
    var events := OldStampPassesTheGlobalLock(back, 0);
    assert Admitted(Fresh, events, None, back, back + MINUTE) > GLOBAL_FAIL_CAP;
  }

  lemma {:induction false} FreshIsOpen(t: int)
    requires 0 <= t
    ensures Open(Fresh, 0, t, 0)
  {
  }

  lemma {:induction false} NewBatch(k: nat, n: nat, t: int)
    requires n > 0
    ensures NewAttempts(k, n, t) != [] && forall e <- NewAttempts(k, n, t) :: e.op == Begin && e.now == t
  {
  }
}
