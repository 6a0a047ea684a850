/**
  The PIN rate limiter of internal/hub/pin_auth.go: a lock per client address
  that grows with every five attempts, a lock for all of them together, and
  pruning of entries that have been idle for an hour.

  Times are nanoseconds since Go's zero time, which is 0 here. They are the
  stamps the handlers pass in, not the times of the calls: handleAuthLogin reads
  the clock before it reads the request body.
 */
module PinLimiter {
  import opened Options

  const SECOND: int := 1_000_000_000
  const MINUTE: int := 60 * SECOND
  const HOUR: int := 60 * MINUTE

  const LOCK_THRESHOLD: nat := 5
  const GLOBAL_FAIL_CAP: nat := 30
  const ATTEMPT_TTL: int := HOUR
  const MAX_LEVEL: nat := 2

  function LockDuration(level: nat): (d: int)
    ensures MINUTE <= d <= 30 * MINUTE
  {
    if level == 0 then MINUTE else if level == 1 then 5 * MINUTE else 30 * MINUTE
  }

  function Min(a: int, b: int): int {
    if a <= b then a else b
  }

  function Max(a: int, b: int): int {
    if a >= b then a else b
  }

  datatype Attempt = Attempt(fails: nat, lockLevel: nat, lockedUntil: int, lastSeen: int)

  datatype Limiter = Limiter(perIP: map<string, Attempt>, globalFails: nat, globalUntil: int, globalSeen: int)

  const Fresh := Limiter(map[], 0, 0, 0)

  // --- what the operations do --------------------------------------------------------

  predicate Stale(a: Attempt, now: int) {
    now - a.lastSeen > ATTEMPT_TTL && now > a.lockedUntil
  }

  function Prune(s: Limiter, now: int): Limiter {
    s.(perIP := map ip | ip in s.perIP && !Stale(s.perIP[ip], now) :: s.perIP[ip])
  }

  function SecondsLeft(until: int, now: int): nat
    requires now < until
  {
    (until - now) / SECOND + 1
  }

  // 0 if an attempt may be made.
  function Retry(s: Limiter, ip: string, now: int): nat {
    if now < s.globalUntil then SecondsLeft(s.globalUntil, now)
    else if ip in s.perIP && now < s.perIP[ip].lockedUntil then SecondsLeft(s.perIP[ip].lockedUntil, now)
    else 0
  }

  function Counted(a: Attempt, now: int): Attempt {
    if a.fails + 1 >= LOCK_THRESHOLD then
      Attempt(0, if a.lockLevel < MAX_LEVEL then a.lockLevel + 1 else a.lockLevel, now + LockDuration(a.lockLevel), now)
    else a.(fails := a.fails + 1, lastSeen := now)
  }

  function CountedGlobally(s: Limiter, now: int): Limiter {
    var fails := (if now - s.globalSeen > ATTEMPT_TTL then 0 else s.globalFails) + 1;
    if fails >= GLOBAL_FAIL_CAP then s.(globalFails := 0, globalUntil := now + MINUTE, globalSeen := now)
    else s.(globalFails := fails, globalSeen := now)
  }

  function AttemptOf(s: Limiter, ip: string): Attempt {
    if ip in s.perIP then s.perIP[ip] else Attempt(0, 0, 0, 0)
  }

  function Admit(s: Limiter, ip: string, now: int): Limiter {
    CountedGlobally(s.(perIP := s.perIP[ip := Counted(AttemptOf(s, ip), now)]), now)
  }

  // --- the limiter itself ---------------------------------------------------------------

  class PinLimiter {
    var perIP: map<string, Attempt>
    var globalFails: nat
    var globalUntil: int
    var globalSeen: int

    ghost function State(): Limiter reads this {
      Limiter(perIP, globalFails, globalUntil, globalSeen)
    }

    constructor ()
      ensures State() == Fresh
    {
      perIP := map[];
      globalFails, globalUntil, globalSeen := 0, 0, 0;
    }

    method PruneLocked(now: int)
      modifies this`perIP
      ensures State() == Prune(old(State()), now)
    {
      var todo := perIP.Keys;
      while todo != {}
        invariant todo <= perIP.Keys <= old(perIP).Keys
        invariant forall ip | ip in perIP :: perIP[ip] == old(perIP)[ip]
        invariant forall ip | ip in old(perIP) && ip !in todo :: ip in perIP <==> !Stale(old(perIP)[ip], now)
        decreases todo
      {
        var ip :| ip in todo;
        todo := todo - {ip};
        var a := perIP[ip];
        if now - a.lastSeen > ATTEMPT_TTL && now > a.lockedUntil {
          perIP := perIP - {ip};
        }
      }
    }

    method RetryAfter(ip: string, now: int) returns (retry: nat)
      modifies this`perIP
      ensures State() == Prune(old(State()), now)
      ensures retry == Retry(State(), ip, now)
    {
      PruneLocked(now);
      if now < globalUntil {
        return (globalUntil - now) / SECOND + 1;
      }
      if ip in perIP && now < perIP[ip].lockedUntil {
        return (perIP[ip].lockedUntil - now) / SECOND + 1;
      }
      return 0;
    }

    method BeginAttempt(ip: string, now: int) returns (retry: nat)
      modifies this
      ensures var s := Prune(old(State()), now);
              retry == Retry(s, ip, now) && State() == (if retry == 0 then Admit(s, ip, now) else s)
    {
      retry := RetryAfter(ip, now);
      if retry > 0 {
        return;
      }
      var a := if ip in perIP then perIP[ip] else Attempt(0, 0, 0, 0);
      a := a.(lastSeen := now, fails := a.fails + 1);
      if a.fails >= LOCK_THRESHOLD {
        a := a.(lockedUntil := now + LockDuration(Min(a.lockLevel, MAX_LEVEL)));
        if a.lockLevel < MAX_LEVEL {
          a := a.(lockLevel := a.lockLevel + 1);
        }
        a := a.(fails := 0);
      }
      perIP := perIP[ip := a];
      if now - globalSeen > ATTEMPT_TTL {
        globalFails := 0;
      }
      globalSeen := now;
      globalFails := globalFails + 1;
      if globalFails >= GLOBAL_FAIL_CAP {
        globalUntil := now + LockDuration(0);
        globalFails := 0;
      }
    }

    method RecordSuccess(ip: string)
      modifies this`perIP
      ensures State() == old(State()).(perIP := old(perIP) - {ip})
    {
      perIP := perIP - {ip};
    }
  }

  // --- runs ----------------------------------------------------------------------------------

  datatype Op = Begin | Query | Success

  datatype Event = Event(op: Op, ip: string, now: int)

  function Step(s: Limiter, e: Event): Limiter {
    match e.op
    case Begin => var p := Prune(s, e.now); if Retry(p, e.ip, e.now) == 0 then Admit(p, e.ip, e.now) else p
    case Query => Prune(s, e.now)
    case Success => s.(perIP := s.perIP - {e.ip})
  }

  predicate Admits(s: Limiter, e: Event) {
    e.op == Begin && Retry(Prune(s, e.now), e.ip, e.now) == 0
  }

  ghost function After(s: Limiter, events: seq<Event>): Limiter
    decreases |events|
  {
    if events == [] then s else After(Step(s, events[0]), events[1..])
  }

  // No attempt or success carries a stamp older than one passed in before it. A
  // query may: after a failed attempt it repeats the attempt's own stamp.
  ghost predicate InTime(events: seq<Event>, t: int)
    decreases |events|
  {
    events == [] || ((events[0].op == Query || t <= events[0].now) && InTime(events[1..], Max(t, events[0].now)))
  }

  // Attempts admitted in [from, to), of one address or of all of them.
  ghost function Admitted(s: Limiter, events: seq<Event>, who: Option<string>, from: int, to: int): nat
    decreases |events|
  {
    if events == [] then 0
    else
      (if Admits(s, events[0]) && who in {None, Some(events[0].ip)} && from <= events[0].now < to then 1 else 0)
      + Admitted(Step(s, events[0]), events[1..], who, from, to)
  }

  ghost predicate NoSuccess(events: seq<Event>, ip: string, from: int, to: int) {
    forall e <- events :: e.op == Success && e.ip == ip ==> !(from <= e.now < to)
  }

  // What holds of every limiter a run has led to, at or after its last event.
  ghost predicate Good(s: Limiter, now: int) {
    && 0 <= now && s.globalFails < GLOBAL_FAIL_CAP && s.globalSeen <= now && s.globalUntil <= s.globalSeen + MINUTE
    && (forall ip | ip in s.perIP :: GoodAttempt(s.perIP[ip], now))
  }

  ghost predicate GoodAttempt(a: Attempt, now: int) {
    a.fails < LOCK_THRESHOLD && a.lockLevel <= MAX_LEVEL && 0 <= a.lastSeen <= now && a.lockedUntil <= a.lastSeen + 30 * MINUTE
  }

  lemma {:induction false} FreshIsGood(now: int)
    requires 0 <= now
    ensures Good(Fresh, now)
  {
  }

  lemma {:induction false} StepKeepsGood(s: Limiter, e: Event, t: int)
    requires Good(s, t) && (e.op == Query || t <= e.now)
    ensures Good(Step(s, e), Max(t, e.now))
  {
  }

  ghost function LatestStamp(events: seq<Event>, t: int): int
    decreases |events|
  {
    if events == [] then t else LatestStamp(events[1..], Max(t, events[0].now))
  }

  lemma {:induction false} RunKeepsGood(s: Limiter, events: seq<Event>, t: int)
    requires Good(s, t) && InTime(events, t)
    ensures Good(After(s, events), LatestStamp(events, t))
    decreases |events|
  {
    if events != [] {
      StepKeepsGood(s, events[0], t);
      RunKeepsGood(Step(s, events[0]), events[1..], Max(t, events[0].now));
    }
  }

  // --- one address: at most 5 a minute, 20 an hour -------------------------------------------

  // The attempts that can still be admitted before `to`, from time t on, by an
  // address that has `fails` counted at this lock level.
  ghost function Reserve(level: nat, fails: nat, t: int, to: int): (r: nat)
    requires fails < LOCK_THRESHOLD
    ensures t < to ==> r >= LOCK_THRESHOLD - fails
    decreases if t < to then to - t else 0
  {
    if t >= to then 0 else LOCK_THRESHOLD - fails + Reserve(level + 1, 0, t + LockDuration(level), to)
  }

  lemma {:induction false} ReserveShrinks(level: nat, level': nat, fails: nat, t: int, t': int, to: int)
    requires level <= level' && fails < LOCK_THRESHOLD && t <= t'
    ensures Reserve(level', fails, t', to) <= Reserve(level, 0, t, to)
    decreases if t < to then to - t else 0
  {
    if t' < to {
      ReserveShrinks(level + 1, level' + 1, 0, t + LockDuration(level), t' + LockDuration(level'), to);
    }
  }

  lemma {:induction false} TopLevelsAlike(level: nat, fails: nat, t: int, to: int)
    requires fails < LOCK_THRESHOLD
    ensures level >= MAX_LEVEL ==> Reserve(level + 1, fails, t, to) == Reserve(level, fails, t, to)
    decreases if t < to then to - t else 0
  {
    if t < to && level >= MAX_LEVEL {
      TopLevelsAlike(level + 1, 0, t + LockDuration(level), to);
    }
  }

  // An entry not touched since the window began may be pruned in it, so it is
  // worth as much as none.
  ghost function ReserveOf(s: Limiter, ip: string, from: int, t: int, to: int): nat
    requires Good(s, t)
  {
    if ip in s.perIP && s.perIP[ip].lastSeen >= from then
      Reserve(s.perIP[ip].lockLevel, s.perIP[ip].fails, Max(t, s.perIP[ip].lockedUntil), to)
    else
      Reserve(0, 0, t, to)
  }

  lemma {:induction false} ReserveOfAtMost(s: Limiter, ip: string, from: int, t: int, to: int)
    requires Good(s, t) && from <= t
    ensures ReserveOf(s, ip, from, t, to) <= Reserve(0, 0, from, to)
  {
    if ip in s.perIP && s.perIP[ip].lastSeen >= from {
      var a := s.perIP[ip];
      ReserveShrinks(0, a.lockLevel, a.fails, from, Max(t, a.lockedUntil), to);
    } else {
      ReserveShrinks(0, 0, 0, from, t, to);
    }
  }

  // The reserve of an entry only shrinks as time passes.
  lemma {:induction false} ReserveWaits(level: nat, fails: nat, t: int, t': int, to: int)
    requires fails < LOCK_THRESHOLD && t <= t'
    ensures Reserve(level, fails, t', to) <= Reserve(level, fails, t, to)
  {
    if t' < to {
      ReserveShrinks(level + 1, level + 1, 0, t + LockDuration(level), t' + LockDuration(level), to);
    }
  }

  lemma {:induction false} ReserveOfWaits(s: Limiter, ip: string, from: int, t: int, t': int, to: int)
    requires Good(s, t) && t <= t'
    ensures Good(s, t') && ReserveOf(s, ip, from, t', to) <= ReserveOf(s, ip, from, t, to)
  {
    if ip in s.perIP && s.perIP[ip].lastSeen >= from {
      var a := s.perIP[ip];
      ReserveWaits(a.lockLevel, a.fails, Max(t, a.lockedUntil), Max(t', a.lockedUntil), to);
    } else {
      ReserveWaits(0, 0, t, t', to);
    }
  }

  // Counting an attempt uses up one of the reserve.
  lemma {:induction false} CountedUsesReserve(a: Attempt, from: int, now: int, to: int)
    requires GoodAttempt(a, now) && now < to && a.lockedUntil <= now
    ensures var a' := Counted(a, now);
            GoodAttempt(a', now)
            && Reserve(a'.lockLevel, a'.fails, Max(now, a'.lockedUntil), to) + 1 == Reserve(a.lockLevel, a.fails, now, to)
  {
    TopLevelsAlike(a.lockLevel, 0, now + LockDuration(a.lockLevel), to);
  }

  lemma {:induction false} PruneKeepsReserve(s: Limiter, ip: string, from: int, now: int, t: int, to: int)
    requires Good(s, t) && now <= t && to - from <= ATTEMPT_TTL
    ensures Good(Prune(s, now), t)
    ensures ReserveOf(Prune(s, now), ip, from, t, to) == ReserveOf(s, ip, from, t, to)
  {
  }

  lemma {:induction false} AdmissionUsesReserve(s: Limiter, ip: string, from: int, now: int, to: int)
    requires Good(s, now) && from <= now < to && Retry(s, ip, now) == 0
    ensures Good(Admit(s, ip, now), now)
    ensures ReserveOf(Admit(s, ip, now), ip, from, now, to) + 1 <= ReserveOf(s, ip, from, now, to)
  {
    hide Reserve;
    var a := AttemptOf(s, ip);
    assert ip in s.perIP ==> GoodAttempt(a, now);
    CountedUsesReserve(a.(lastSeen := now), from, now, to);
    if !(ip in s.perIP && a.lastSeen >= from) {
      ReserveShrinks(0, a.lockLevel, a.fails, now, now, to);
    }
  }

  // t is the latest stamp so far, the step's own included.
  lemma {:induction false} StepUsesReserve(s: Limiter, e: Event, ip: string, from: int, t: int, to: int)
    requires Good(s, t) && from <= t && to - from <= ATTEMPT_TTL && Good(Step(s, e), t)
    requires e.now <= t && (e.op == Query || e.now == t)
    requires e.op == Success && e.ip == ip ==> t >= to
    ensures ReserveOf(Step(s, e), ip, from, t, to) + (if Admits(s, e) && e.ip == ip && e.now < to then 1 else 0)
         <= ReserveOf(s, ip, from, t, to)
  {
    hide Reserve;
    PruneKeepsReserve(s, ip, from, e.now, t, to);
    if Admits(s, e) && e.ip == ip {
      if t < to {
        AdmissionUsesReserve(Prune(s, e.now), ip, from, t, to);
      } else {
        NoReserve(Step(s, e), ip, from, t, to);
      }
    } else if e.op == Success && e.ip == ip {
      NoReserve(Step(s, e), ip, from, t, to);
    }
  }

  lemma {:induction false} NoReserve(s: Limiter, ip: string, from: int, t: int, to: int)
    requires Good(s, t) && t >= to
    ensures ReserveOf(s, ip, from, t, to) == 0
  {
  }

  lemma {:induction false} AdmittedWithinReserve(s: Limiter, events: seq<Event>, ip: string, from: int, t: int, to: int)
    requires Good(s, t) && InTime(events, t) && from <= t && to - from <= ATTEMPT_TTL
    requires NoSuccess(events, ip, from, to)
    ensures Admitted(s, events, Some(ip), from, to) <= ReserveOf(s, ip, from, t, to)
    decreases |events|
  {
    hide ReserveOf;
    if events != [] {
      var e := events[0];
      var t' := Max(t, e.now);
      ReserveOfWaits(s, ip, from, t, t', to);
      StepKeepsGood(s, e, t);
      assert e in events;
      StepUsesReserve(s, e, ip, from, t', to);
      AdmittedWithinReserve(Step(s, e), events[1..], ip, from, t', to);
    }
  }

  // What the escalating locks leave in a window of this length.
  function Allowance(window: int): nat {
    if window <= 0 then 0 else if window <= MINUTE then 5 else if window <= 6 * MINUTE then 10 else if window <= 36 * MINUTE then 15 else 20
  }

  lemma {:induction false} ReserveIsAllowance(from: int, to: int)
    requires to - from <= HOUR
    ensures Reserve(0, 0, from, to) == Allowance(to - from)
  {
    assert Reserve(0, 0, from, to) == if from >= to then 0 else 5 + Reserve(1, 0, from + MINUTE, to);
    assert Reserve(1, 0, from + MINUTE, to) == if from + MINUTE >= to then 0 else 5 + Reserve(2, 0, from + 6 * MINUTE, to);
    assert Reserve(2, 0, from + 6 * MINUTE, to) == if from + 6 * MINUTE >= to then 0 else 5 + Reserve(3, 0, from + 36 * MINUTE, to);
    assert Reserve(3, 0, from + 36 * MINUTE, to) == if from + 36 * MINUTE >= to then 0 else 5 + Reserve(4, 0, from + 66 * MINUTE, to);
  }

  // From every limiter a run can lead to, any half-open window of up to an hour
  // in which an address has no success admits no more of its attempts than the
  // locks allow: 5 in a minute, 20 in an hour. Pruning cannot help.
  lemma {:induction false} AddressIsRateLimited(s: Limiter, events: seq<Event>, ip: string, t: int, from: int, to: int)
    requires Good(s, t) && InTime(events, t)
    requires to - from <= HOUR && NoSuccess(events, ip, from, to)
    ensures Admitted(s, events, Some(ip), from, to) <= Allowance(to - from)
    decreases |events|
  {
    if events != [] {
      var e := events[0];
      StepKeepsGood(s, e, t);
      if Max(t, e.now) < from {
        AddressIsRateLimited(Step(s, e), events[1..], ip, Max(t, e.now), from, to);
      } else {
        var start := Max(t, from);
        assert Good(s, start) && (t < from ==> e.now >= from);
        AdmittedWithinReserve(s, events, ip, from, start, to);
        ReserveOfAtMost(s, ip, from, start, to);
        ReserveIsAllowance(from, to);
      }
    }
  }

  lemma {:induction false} WindowsAddUp(s: Limiter, events: seq<Event>, who: Option<string>, from: int, mid: int, to: int)
    requires from <= mid <= to
    ensures Admitted(s, events, who, from, to) == Admitted(s, events, who, from, mid) + Admitted(s, events, who, mid, to)
    decreases |events|
  {
    if events != [] {
      WindowsAddUp(Step(s, events[0]), events[1..], who, from, mid, to);
    }
  }

  // The address is not locked at time t and has this level and count.
  ghost predicate Ready(s: Limiter, ip: string, t: int, level: nat, fails: nat, globalFails: nat) {
    var a := AttemptOf(Prune(s, t), ip);
    && Good(s, t) && s.globalUntil <= t && s.globalFails <= globalFails
    && a.lockLevel == level && a.fails == fails && a.lockedUntil <= t
  }

  function Attempts(ip: string, t: int, n: nat): seq<Event> {
    seq(n, _ => Event(Begin, ip, t))
  }

  ghost function LockOf(s: Limiter, ip: string, t: int): int {
    AttemptOf(Prune(s, t), ip).lockedUntil
  }

  lemma {:induction false} ReadyAttempt(s: Limiter, ip: string, t: int, level: nat, fails: nat, g: nat)
    requires Ready(s, ip, t, level, fails, g) && fails < LOCK_THRESHOLD && level <= MAX_LEVEL && g + 1 < GLOBAL_FAIL_CAP
    ensures var e := Event(Begin, ip, t);
            && Admits(s, e)
            && Step(s, e).globalUntil == s.globalUntil
            && if fails + 1 < LOCK_THRESHOLD then Ready(Step(s, e), ip, t, level, fails + 1, g + 1) && LockOf(Step(s, e), ip, t) == LockOf(s, ip, t)
               else Ready(Step(s, e), ip, t + LockDuration(level), if level < MAX_LEVEL then level + 1 else level, 0, g + 1)
  {
    var e := Event(Begin, ip, t);
    StepKeepsGood(s, e, t);
    assert Step(s, e).perIP[ip] == Counted(AttemptOf(Prune(s, t), ip), t);
  }

  ghost predicate OnlyAttempts(events: seq<Event>) {
    forall e <- events :: e.op == Begin
  }

  // The attempts up to the next lock are all admitted, and then the lock is on.
  lemma {:induction false} AttemptsUntilLocked(s: Limiter, ip: string, t: int, level: nat, fails: nat, g: nat, rest: seq<Event>, from: int, to: int)
    returns (s': Limiter)
    requires Ready(s, ip, t, level, fails, g) && fails < LOCK_THRESHOLD && level <= MAX_LEVEL
    requires g + LOCK_THRESHOLD - fails < GLOBAL_FAIL_CAP && from <= t < to
    ensures Admitted(s, Attempts(ip, t, LOCK_THRESHOLD - fails) + rest, Some(ip), from, to)
         == LOCK_THRESHOLD - fails + Admitted(s', rest, Some(ip), from, to)
    ensures Ready(s', ip, t + LockDuration(level), if level < MAX_LEVEL then level + 1 else level, 0, g + LOCK_THRESHOLD - fails)
    decreases LOCK_THRESHOLD - fails
  {
    hide Ready, Admits, Step, Attempts;
    var e, n := Event(Begin, ip, t), LOCK_THRESHOLD - fails;
    FirstAttempt(ip, t, n, rest);
    ReadyAttempt(s, ip, t, level, fails, g);
    s' := Step(s, e);
    if n == 1 {
      NoAttempts(ip, t, rest);
    } else {
      s' := AttemptsUntilLocked(s', ip, t, level, fails + 1, g + 1, rest, from, to);
    }
  }

  lemma {:induction false} FirstAttempt(ip: string, t: int, n: nat, rest: seq<Event>)
    requires n > 0
    ensures Attempts(ip, t, n) + rest != [] && (Attempts(ip, t, n) + rest)[0] == Event(Begin, ip, t)
    ensures (Attempts(ip, t, n) + rest)[1..] == Attempts(ip, t, n - 1) + rest
  {
    assert Attempts(ip, t, n)[1..] == Attempts(ip, t, n - 1);
  }

  lemma {:induction false} NoAttempts(ip: string, t: int, rest: seq<Event>)
    ensures Attempts(ip, t, 0) + rest == rest
  {
  }

  // Attempts put in front of later ones.
  lemma {:induction false} AttemptsFirst(ip: string, t: int, n: nat, rest: seq<Event>, start: int)
    requires start <= t && InTime(rest, t) && OnlyAttempts(rest)
    ensures InTime(Attempts(ip, t, n) + rest, start) && OnlyAttempts(Attempts(ip, t, n) + rest)
  {
    if n == 0 {
      NoAttempts(ip, t, rest);
      if rest != [] {
        assert rest[0] in rest;
      }
    } else {
      FirstAttempt(ip, t, n, rest);
      AttemptsFirst(ip, t, n - 1, rest, t);
      assert OnlyAttempts(Attempts(ip, t, n) + rest);
    }
  }

  // The hourly bound is attained: an address that returns whenever its lock has
  // just ended gets all twenty.
  lemma {:induction false} TwentyAnHourAreAttained(ip: string, t: int) returns (events: seq<Event>)
    requires 0 <= t
    ensures InTime(events, t) && OnlyAttempts(events)
    ensures Admitted(Fresh, events, Some(ip), t, t + HOUR) == 20
  {
    hide Ready, Admits, Step, Attempts, InTime, OnlyAttempts;
    assert Ready(Fresh, ip, t, 0, 0, 0) by { FreshIsReady(ip, t); }
    var late := Attempts(ip, t + 36 * MINUTE, 5) + [];
    var middle := Attempts(ip, t + 6 * MINUTE, 5) + late;
    var early := Attempts(ip, t + MINUTE, 5) + middle;
    events := Attempts(ip, t, 5) + early;
    var s1 := AttemptsUntilLocked(Fresh, ip, t, 0, 0, 0, early, t, t + HOUR);
    var s2 := AttemptsUntilLocked(s1, ip, t + MINUTE, 1, 0, 5, middle, t, t + HOUR);
    var s3 := AttemptsUntilLocked(s2, ip, t + 6 * MINUTE, 2, 0, 10, late, t, t + HOUR);
    var s4 := AttemptsUntilLocked(s3, ip, t + 36 * MINUTE, 2, 0, 15, [], t, t + HOUR);
    assert InTime([], t + 36 * MINUTE) && OnlyAttempts([]) by { NoEvents(t + 36 * MINUTE); }
    AttemptsFirst(ip, t + 36 * MINUTE, 5, [], t + 6 * MINUTE);
    AttemptsFirst(ip, t + 6 * MINUTE, 5, late, t + MINUTE);
    AttemptsFirst(ip, t + MINUTE, 5, middle, t);
    AttemptsFirst(ip, t, 5, early, t);
  }

  lemma {:induction false} FreshIsReady(ip: string, t: int)
    requires 0 <= t
    ensures Ready(Fresh, ip, t, 0, 0, 0) && LockOf(Fresh, ip, t) == 0
  {
    FreshIsGood(t);
  }

  lemma {:induction false} NoEvents(t: int)
    ensures InTime([], t) && OnlyAttempts([])
  {
  }

  // However long an address keeps guessing in vain, it gets 20 guesses an hour.
  lemma {:induction false} AddressOverManyHours(s: Limiter, events: seq<Event>, ip: string, t: int, from: int, hours: nat)
    requires Good(s, t) && InTime(events, t)
    requires NoSuccess(events, ip, from, from + hours * HOUR)
    ensures Admitted(s, events, Some(ip), from, from + hours * HOUR) <= 20 * hours
  {
    if hours == 0 {
      AddressIsRateLimited(s, events, ip, t, from, from);
    } else {
      var mid, to := from + (hours - 1) * HOUR, from + hours * HOUR;
      AddressOverManyHours(s, events, ip, t, from, hours - 1);
      AddressIsRateLimited(s, events, ip, t, mid, to);
      WindowsAddUp(s, events, Some(ip), from, mid, to);
    }
  }

  // --- all addresses together: at most 30 a minute ---------------------------------------------

  ghost function GlobalReserve(s: Limiter, from: int, to: int): int {
    if s.globalUntil >= to then 0
    else if s.globalSeen < from then GLOBAL_FAIL_CAP
    else GLOBAL_FAIL_CAP - s.globalFails
  }

  lemma {:induction false} NothingAfterwards(s: Limiter, events: seq<Event>, who: Option<string>, from: int, t: int, to: int)
    requires InTime(events, t) && to <= t
    ensures Admitted(s, events, who, from, to) == 0
    decreases |events|
  {
    if events != [] {
      NothingAfterwards(Step(s, events[0]), events[1..], who, from, Max(t, events[0].now), to);
    }
  }

  lemma {:induction false} AdmittedWithinGlobalReserve(s: Limiter, events: seq<Event>, from: int, t: int, to: int)
    requires InTime(events, t) && from <= t && to - from <= MINUTE && s.globalFails < GLOBAL_FAIL_CAP
    ensures Admitted(s, events, None, from, to) <= GlobalReserve(s, from, to)
    decreases |events|
  {
    if events != [] {
      var e, t' := events[0], Max(t, events[0].now);
      if t' >= to {
        NothingAfterwards(Step(s, e), events[1..], None, from, t', to);
      } else {
        AdmittedWithinGlobalReserve(Step(s, e), events[1..], from, t', to);
      }
    }
  }

  // All addresses together get at most 30 attempts in any half-open minute,
  // successful ones included.
  lemma {:induction false} EverybodyIsRateLimited(s: Limiter, events: seq<Event>, t: int, from: int, to: int)
    requires Good(s, t) && InTime(events, t) && to - from <= MINUTE
    ensures Admitted(s, events, None, from, to) <= GLOBAL_FAIL_CAP
    decreases |events|
  {
    if events != [] {
      var e := events[0];
      StepKeepsGood(s, e, t);
      if Max(t, e.now) < from {
        EverybodyIsRateLimited(Step(s, e), events[1..], Max(t, e.now), from, to);
      } else {
        AdmittedWithinGlobalReserve(s, events, from, Max(t, from), to);
      }
    }
  }

  // Attempts of different addresses, none of them locked, at most an hour apart.
  ghost predicate Separate(s: Limiter, events: seq<Event>, t: int) {
    && (events != [] ==> t <= events[0].now)
    && (forall i | 0 <= i < |events| :: events[i].op == Begin && AttemptOf(s, events[i].ip).lockedUntil <= events[i].now)
    && (forall i, j | 0 <= i < j < |events| :: events[i].ip != events[j].ip && events[i].now <= events[j].now)
    && (forall i: nat | i + 1 < |events| :: WithinTheHour(events, i))
  }

  predicate WithinTheHour(events: seq<Event>, i: nat)
    requires i + 1 < |events|
  {
    events[i + 1].now <= events[i].now + 3_600_000_000_000
  }

  // What the overall count stands at for an attempt at this time.
  function Standing(s: Limiter, now: int): nat {
    if now > s.globalSeen + 3_600_000_000_000 then 0 else s.globalFails
  }

  lemma {:induction false} OneOfThem(s: Limiter, events: seq<Event>, t: int)
    requires Good(s, t) && events != [] && Separate(s, events, t) && s.globalUntil <= events[0].now
    ensures var e := events[0];
            var s' := Step(s, e);
            && (|events| > 1 ==> e.now <= events[1].now <= s'.globalSeen + 3_600_000_000_000)
            && Admits(s, e) && Good(s', e.now) && Separate(s', events[1..], e.now) && s'.globalSeen == e.now
            && if Standing(s, e.now) == 29 then s'.globalUntil == e.now + 60_000_000_000 && s'.globalFails == 0
               else s'.globalUntil == s.globalUntil && s'.globalFails == Standing(s, e.now) + 1
  {
    var e := events[0];
    StepKeepsGood(s, e, t);
    forall i | 0 <= i < |events[1..]|
      ensures AttemptOf(Step(s, e), events[1..][i].ip).lockedUntil <= events[1..][i].now
    {
      assert events[i + 1].ip != e.ip && 0 <= e.now <= events[i + 1].now;
    }
    assert |events| > 1 ==> WithinTheHour(events, 0);
    forall i: nat | i + 1 < |events[1..]|
      ensures WithinTheHour(events[1..], i)
    {
      assert WithinTheHour(events, i + 1);
    }
  }

  lemma {:induction false} OnlyTheLocksRefuse(s: Limiter, e: Event)
    requires e.op == Begin
    ensures e.now < s.globalUntil ==> !Admits(s, e)
    ensures s.globalUntil <= e.now && 0 <= e.now ==>
              (Admits(s, e) <==> AttemptOf(Prune(s, e.now), e.ip).lockedUntil <= e.now)
  {
  }

  // The overall lock falls exactly at the thirtieth attempt since it last fell
  // or an hour passed without any: from every limiter a run can lead to, all
  // attempts up to that one are admitted, and for a minute after it none is.
  lemma {:induction false} ThirtiethAttemptLocksAll(s: Limiter, events: seq<Event>, t: int)
    requires Good(s, t) && events != [] && Separate(s, events, t)
    requires s.globalUntil <= events[0].now || events[0].now > s.globalSeen + 3_600_000_000_000
    requires |events| == 30 - Standing(s, events[0].now)
    ensures forall i | 0 <= i < |events| :: Admits(After(s, events[..i]), events[i])
    ensures forall i | 0 <= i < |events| :: After(s, events[..i]).globalUntil == s.globalUntil
    ensures var s', last := After(s, events), events[|events| - 1].now;
            && s'.globalUntil == last + 60_000_000_000
            && (forall e: Event | e.op == Begin && e.now < last + 60_000_000_000 :: !Admits(s', e))
            && (forall e: Event | e.op == Begin && e.now >= last + 60_000_000_000 ::
                  Admits(s', e) <==> AttemptOf(Prune(s', e.now), e.ip).lockedUntil <= e.now)
    decreases |events|
  {
    hide Separate, Step, Admits;
    forall x: Event | x.op == Begin
      ensures var s' := After(s, events);
              && (x.now < s'.globalUntil ==> !Admits(s', x))
              && (s'.globalUntil <= x.now && 0 <= x.now ==>
                    (Admits(s', x) <==> AttemptOf(Prune(s', x.now), x.ip).lockedUntil <= x.now))
    {
      OnlyTheLocksRefuse(After(s, events), x);
    }
    var e := events[0];
    OneOfThem(s, events, t);
    var s1 := Step(s, e);
    assert events[..0] == [];
    if |events| > 1 {
      ThirtiethAttemptLocksAll(s1, events[1..], e.now);
      assert events[1..][..|events| - 1] == events[1..];
      forall i | 0 < i < |events|
        ensures Admits(After(s, events[..i]), events[i])
        ensures After(s, events[..i]).globalUntil == s.globalUntil
      {
        assert events[..i][0] == e && events[..i][1..] == events[1..][..i - 1] && events[i] == events[1..][i - 1];
      }
    } else {
      assert events == [e] && After(s, [e]) == s1;
    }
  }

  // --- what a success does -----------------------------------------------------------------

  // After a success only the lock for all can refuse the address, and its locks
  // start over; every other address is where it was.
  lemma {:induction false} SuccessForgetsTheAddress(s: Limiter, e: Event, other: string, t: int, from: int, to: int)
    requires Good(s, t) && e.op == Success && t <= e.now && from <= e.now
    ensures var s' := Step(s, e);
            && Good(s', e.now) && Good(s, e.now)
            && (Retry(Prune(s', e.now), e.ip, e.now) > 0 <==> e.now < s.globalUntil)
            && ReserveOf(s', e.ip, from, e.now, to) == Reserve(0, 0, e.now, to)
            && (other != e.ip ==>
                  && Retry(Prune(s', e.now), other, e.now) == Retry(Prune(s, e.now), other, e.now)
                  && ReserveOf(s', other, from, e.now, to) == ReserveOf(s, other, from, e.now, to))
  {
    hide Reserve;
    StepKeepsGood(s, e, t);
  }

  // --- what retryAfter tells ------------------------------------------------------------------

  // retryAfter is positive exactly when an attempt would be refused.
  lemma {:induction false} RetryForetellsRefusal(s: Limiter, ip: string, now: int)
    ensures Retry(Prune(s, now), ip, now) > 0 <==> !Admits(Step(s, Event(Query, ip, now)), Event(Begin, ip, now))
    ensures Admits(s, Event(Begin, ip, now)) <==> Admits(Step(s, Event(Query, ip, now)), Event(Begin, ip, now))
  {
  }

  // The lock a refusal is due to: the global one first.
  ghost function Lock(s: Limiter, ip: string, now: int): int {
    if now < s.globalUntil then s.globalUntil else AttemptOf(s, ip).lockedUntil
  }

  // Waiting as long as told outlasts that lock, by no more than a second.
  lemma {:induction false} WaitingOutlastsTheLock(s: Limiter, ip: string, now: int)
    requires Good(s, now) && Retry(s, ip, now) > 0
    ensures Lock(s, ip, now) < now + Retry(s, ip, now) * SECOND <= Lock(s, ip, now) + SECOND
    ensures Retry(s, ip, now) <= 30 * 60 + 1
  {
    assert ip in s.perIP ==> GoodAttempt(s.perIP[ip], now);
  }

  // Whoever waits as told, asks again and waits again gets in, unless the
  // limiter locked anew meanwhile.
  lemma {:induction false} TwoWaitsSuffice(s: Limiter, ip: string, now: int)
    requires Good(s, now)
    ensures var t1 := now + Retry(Prune(s, now), ip, now) * SECOND;
            var t2 := t1 + Retry(Prune(Prune(s, now), t1), ip, t1) * SECOND;
            Admits(Prune(Prune(s, now), t1), Event(Begin, ip, t2))
  {
    var p := Prune(s, now);
    var t1 := now + Retry(p, ip, now) * SECOND;
    var q := Prune(p, t1);
    if Retry(p, ip, now) > 0 {
      WaitingOutlastsTheLock(p, ip, now);
    }
    assert Good(q, t1);
    if Retry(q, ip, t1) > 0 {
      WaitingOutlastsTheLock(q, ip, t1);
    }
  }

  // An entry is never pruned while it is locked: an hour outlasts every lock.
  lemma {:induction false} PrunedExactlyWhenIdleForAnHour(s: Limiter, ip: string, now: int)
    requires Good(s, now) && ip in s.perIP
    ensures ip !in Prune(s, now).perIP <==> now - s.perIP[ip].lastSeen > ATTEMPT_TTL
  {
    assert GoodAttempt(s.perIP[ip], now);
  }
}
