/**
  The idle timer of the hub (internal/hub/idle_state.go): started when the last
  UI leaves, stopped when one connects, and guarded by a generation number
  against callbacks that are already on their way.
 */
module IdleTimer {

  const MINUTE: int := 60_000_000_000

  // A callback that has not run yet. Once fired it waits for the lock, and
  // stopping its timer no longer keeps it from running.
  datatype Callback = Callback(due: int, fired: bool)

  // The callbacks are known by their generation.
  datatype Timer = Timer(idleSet: bool, idleGen: nat, callbacks: map<nat, Callback>)

  datatype Event =
    | Start(now: int, idleMin: int)
    | Stop
    | Fire(now: int, gen: nat)
    | Run(gen: nat)

  predicate Enabled(t: Timer, e: Event) {
    match e
    case Fire(now, gen) => gen in t.callbacks && !t.callbacks[gen].fired && t.callbacks[gen].due <= now
    case Run(gen) => gen in t.callbacks && t.callbacks[gen].fired
    case _ => true
  }

  // Stopping a timer keeps its callback from firing, unless it has fired already.
  function Stopped(callbacks: map<nat, Callback>, gen: nat): map<nat, Callback> {
    if gen in callbacks && !callbacks[gen].fired then callbacks - {gen} else callbacks
  }

  function Next(t: Timer, e: Event): Timer
    requires Enabled(t, e)
  {
    match e
    case Start(now, idleMin) =>
      if idleMin <= 0 || t.idleSet then t
      else Timer(true, t.idleGen + 1, t.callbacks[t.idleGen + 1 := Callback(now + idleMin * MINUTE, false)])
    case Stop =>
      if !t.idleSet then t
      else Timer(false, t.idleGen + 1, Stopped(t.callbacks, t.idleGen))
    case Fire(_, gen) => t.(callbacks := t.callbacks[gen := t.callbacks[gen].(fired := true)])
    case Run(gen) =>
      if t.idleGen == gen then t.(idleSet := false, callbacks := t.callbacks - {gen})
      else t.(callbacks := t.callbacks - {gen})
  }

  predicate Kills(t: Timer, e: Event) {
    e.Run? && t.idleGen == e.gen
  }

  // --- the hub's fields -------------------------------------------------------------------

  class HubTimer {
    var idleSet: bool
    var idleGen: nat
    var callbacks: map<nat, Callback>

    ghost function State(): Timer reads this {
      Timer(idleSet, idleGen, callbacks)
    }

    constructor ()
      ensures State() == Fresh
    {
      idleSet, idleGen, callbacks := false, 0, map[];
    }

    method StartIdleTimerLocked(now: int, idleMin: int)
      modifies this
      ensures State() == Next(old(State()), Start(now, idleMin))
      ensures idleSet <==> old(idleSet) || idleMin > 0
      ensures old(idleSet) ==> State() == old(State())
      ensures old(Inv(State())) ==> Inv(State())
    {
      if idleMin <= 0 || idleSet {
        return;
      }
      idleGen := idleGen + 1;
      callbacks := callbacks[idleGen := Callback(now + idleMin * MINUTE, false)];
      idleSet := true;
    }

    method StopIdleTimerLocked()
      modifies this
      ensures State() == Next(old(State()), Stop)
      ensures !idleSet
      ensures old(Inv(State())) ==> forall gen <- callbacks :: gen < idleGen
    {
      if !idleSet {
        return;
      }
      callbacks := Stopped(callbacks, idleGen);
      idleGen := idleGen + 1;
      idleSet := false;
    }

    method RunCallback(gen: nat) returns (kill: bool)
      requires Enabled(State(), Run(gen))
      modifies this
      ensures State() == Next(old(State()), Run(gen))
      ensures kill == Kills(old(State()), Run(gen))
      ensures old(Inv(State())) && kill ==> old(idleSet) && !idleSet
      ensures !kill ==> idleSet == old(idleSet)
    {
      callbacks := callbacks - {gen};
      if idleGen != gen {
        return false;
      }
      idleSet := false;
      return true;
    }
  }

  // --- runs ---------------------------------------------------------------------------------

  const Fresh := Timer(false, 0, map[])

  ghost predicate ValidRun(events: seq<Event>)
    decreases |events|, 0
  {
    events == [] || (ValidRun(events[..|events| - 1]) && Enabled(After(events[..|events| - 1]), events[|events| - 1]))
  }

  ghost function After(events: seq<Event>): Timer
    requires ValidRun(events)
    decreases |events|, 1
  {
    if events == [] then Fresh else Next(After(events[..|events| - 1]), events[|events| - 1])
  }

  // A callback of the current generation exists exactly while the timer is set,
  // and the others are older.
  ghost predicate Inv(t: Timer) {
    && (t.idleSet <==> t.idleGen in t.callbacks)
    && (forall gen <- t.callbacks :: gen <= t.idleGen)
  }

  lemma {:induction false} PrefixIsValid(events: seq<Event>, k: nat)
    requires ValidRun(events) && k <= |events|
    ensures ValidRun(events[..k])
  {
    if k < |events| {
      PrefixIsValid(events[..|events| - 1], k);
      assert events[..|events| - 1][..k] == events[..k];
    } else {
      assert events[..k] == events;
    }
  }

  lemma {:induction false} EveryRunKeepsInv(events: seq<Event>)
    requires ValidRun(events)
    ensures Inv(After(events))
  {
    if events != [] {
      EveryRunKeepsInv(events[..|events| - 1]);
    }
  }

  // events[i] starts the timer, and not just finds it set already.
  ghost predicate Starts(events: seq<Event>, i: nat)
    requires ValidRun(events) && i < |events|
  {
    PrefixIsValid(events, i);
    events[i].Start? && events[i].idleMin > 0 && !After(events[..i]).idleSet
  }

  // Nothing after events[i] stopped the timer or started it anew.
  ghost predicate Undisturbed(events: seq<Event>, i: nat)
    requires ValidRun(events)
  {
    forall k: nat | i < k < |events| :: events[k] != Stop && !Starts(events, k)
  }

  ghost predicate FiredInTime(events: seq<Event>, i: nat, gen: nat)
    requires i < |events| && events[i].Start?
  {
    exists k :: i < k < |events| && events[k].Fire? && events[k].gen == gen && events[i].now + events[i].idleMin * MINUTE <= events[k].now
  }

  // While the timer is set, it has been so since some start.
  lemma {:induction false} SetSince(events: seq<Event>) returns (i: nat)
    requires ValidRun(events) && After(events).idleSet
    ensures i < |events| && Starts(events, i) && Undisturbed(events, i)
    ensures var t := After(events);
            && t.idleGen in t.callbacks && t.callbacks[t.idleGen].due == events[i].now + events[i].idleMin * MINUTE
            && (t.callbacks[t.idleGen].fired ==> FiredInTime(events, i, t.idleGen))
    decreases |events|
  {
    var n := |events| - 1;
    var before := events[..n];
    EveryRunKeepsInv(before);
    var t, e := After(before), events[n];
    if e.Start? && e.idleMin > 0 && !t.idleSet {
      i := n;
    } else {
      assert t.idleSet && e != Stop;
      i := SetSince(before);
      StartsInPrefix(events, n);
      assert events[i] == before[i] && !Starts(events, n);
      if t.callbacks[t.idleGen].fired {
        var k :| i < k < n && before[k].Fire? && before[k].gen == t.idleGen && before[i].now + before[i].idleMin * MINUTE <= before[k].now;
        assert events[k] == before[k];
      }
    }
  }

  lemma {:induction false} StartsInPrefix(events: seq<Event>, n: nat)
    requires ValidRun(events) && n <= |events|
    ensures ValidRun(events[..n])
    ensures forall k: nat | k < n :: Starts(events[..n], k) <==> Starts(events, k)
  {
    PrefixIsValid(events, n);
    forall k: nat | k < n
      ensures Starts(events[..n], k) <==> Starts(events, k)
    {
      assert events[..n][..k] == events[..k];
    }
  }

  // A callback decides to kill the wrappers only if no stop and no newer start
  // came after the start it belongs to, and only after the time set then.
  lemma {:induction false} KillsOnlyWhenUndisturbed(events: seq<Event>, gen: nat) returns (i: nat)
    requires ValidRun(events) && Enabled(After(events), Run(gen)) && Kills(After(events), Run(gen))
    ensures i < |events| && Starts(events, i) && Undisturbed(events, i) && FiredInTime(events, i, gen)
  {
    EveryRunKeepsInv(events);
    i := SetSince(events);
  }

  // A stop or a newer start disarms every callback there is, fired or not.
  lemma {:induction false} DisarmedForGood(events: seq<Event>, k: nat, gen: nat)
    requires ValidRun(events) && k < |events| && ValidRun(events[..k])
    requires gen in After(events[..k]).callbacks && (events[k] == Stop || Starts(events, k))
    ensures Enabled(After(events), Run(gen)) ==> !Kills(After(events), Run(gen))
  {
    EveryRunKeepsInv(events[..k]);
    GenerationsGrow(events, k);
  }

  lemma {:induction false} GenerationsGrow(events: seq<Event>, k: nat)
    requires ValidRun(events) && k < |events|
    ensures ValidRun(events[..k])
    ensures var t := After(events[..k]);
            && t.idleGen <= After(events).idleGen
            && ((events[k] == Stop && t.idleSet) || Starts(events, k) ==> t.idleGen < After(events).idleGen)
    decreases |events|
  {
    PrefixIsValid(events, k);
    var n := |events| - 1;
    if k < n {
      assert events[..n][..k] == events[..k];
      GenerationsGrow(events[..n], k);
    }
  }

  // Nothing keeps the timer from doing its work: as long as it is set, its
  // callback can fire once it is due, and then kills.
  lemma {:induction false} UnstoppedTimerKills(events: seq<Event>, now: int)
    requires ValidRun(events) && After(events).idleSet
    requires After(events).idleGen in After(events).callbacks ==> After(events).callbacks[After(events).idleGen].due <= now
    ensures var t := After(events);
            var fire := if t.idleGen in t.callbacks && t.callbacks[t.idleGen].fired then [] else [Fire(now, t.idleGen)];
            && ValidRun(events + fire) && Enabled(After(events + fire), Run(t.idleGen)) && Kills(After(events + fire), Run(t.idleGen))
  {
    EveryRunKeepsInv(events);
    var t := After(events);
    if t.callbacks[t.idleGen].fired {
      assert events + [] == events;
    } else {
      assert (events + [Fire(now, t.idleGen)])[..|events|] == events;
    }
  }
}
