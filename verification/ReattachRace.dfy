/**
  Exactly when a reattaching wrapper endangers the order of input.

  The comments of input_gate.go promise that a flush is never interleaved with
  a submission. Both hold inputMu, but reattachLoop (wrapper_loop.go) replaces
  the session object and with it the lock, so a thread still busy under the
  old lock runs beside threads that take the new one.
 */
module ReattachRace {
  import opened Options
  import opened InputGate
  import opened Text
  import opened InputOrder

  // Accepted, not sent and not dropped.
  ghost predicate Waits(s: State, x: Input) {
    x in s.pending || exists k :: 0 <= k < |s.threads| && x in Work(s.threads[k])
  }

  // A later submission was sent ahead of (a rest of) an earlier one.
  ghost predicate Overtaken(s: State) {
    exists i, x :: 0 <= i < |s.wire| && Waits(s, x) && x.ticket < s.wire[i].ticket
  }

  ghost predicate NoReattach(steps: seq<Step>) {
    forall step <- steps :: !step.Reattach?
  }

  ghost predicate CanReach(s: State, s': State) {
    exists steps :: NoReattach(steps) && ValidRun(s, steps) && After(s, steps) == s'
  }

  lemma {:induction false} ReachStep(s: State, step: Step)
    requires Enabled(s, step) && !step.Reattach?
    ensures CanReach(s, Apply(s, step))
  {
    var one := [step];
    assert one[0] == step && one[1..] == [];
    assert ValidRun(Apply(s, step), []) && After(Apply(s, step), []) == Apply(s, step);
    assert NoReattach(one) && ValidRun(s, one) && After(s, one) == Apply(s, step);
  }

  lemma {:induction false} ReachSelf(s: State)
    ensures CanReach(s, s)
  {
    assert NoReattach([]) && ValidRun(s, []) && After(s, []) == s;
  }

  lemma {:induction false} ReachTrans(a: State, b: State, c: State)
    requires CanReach(a, b) && CanReach(b, c)
    ensures CanReach(a, c)
  {
    var p :| NoReattach(p) && ValidRun(a, p) && After(a, p) == b;
    var q :| NoReattach(q) && ValidRun(b, q) && After(b, q) == c;
    RunConcat(a, p, q);
    assert NoReattach(p + q);
  }

  lemma {:induction false} RunConcat(s: State, p: seq<Step>, q: seq<Step>)
    requires ValidRun(s, p) && ValidRun(After(s, p), q)
    ensures ValidRun(s, p + q) && After(s, p + q) == After(After(s, p), q)
    decreases |p|
  {
    if p == [] {
      assert p + q == q;
    } else {
      assert (p + q)[1..] == p[1..] + q;
      RunConcat(Apply(s, p[0]), p[1..], q);
    }
  }

  // A wrapper has just reattached: the new session object is current, is not
  // gated, and nobody holds its lock.
  ghost predicate Fresh(s: State) {
    && s.wrapper.Some?
    && |s.sessions| >= 1 && s.current == Some(|s.sessions| - 1)
    && !s.sessions[|s.sessions| - 1].injectPending
    && Unlocked(s, |s.sessions| - 1)
  }

  // Thread k has in hand an entry x that was accepted earlier.
  ghost predicate HasInHand(s: State, k: nat, x: Input) {
    k < |s.threads| && x in Work(s.threads[k]) && x.ticket < |s.accepted|
  }

  ghost function LastSession(s: State): nat
    requires |s.sessions| >= 1
  {
    |s.sessions| - 1
  }

  lemma {:induction false} TwoSteps(s: State, first: Step, second: Step)
    requires Enabled(s, first) && !first.Reattach?
    requires Enabled(Apply(s, first), second) && !second.Reattach?
    ensures CanReach(s, Apply(Apply(s, first), second))
  {
    ReachStep(s, first);
    ReachStep(Apply(s, first), second);
    ReachTrans(s, Apply(s, first), Apply(Apply(s, first), second));
  }

  lemma {:induction false} SubmitterGetsLock(s: State, conn: Option<nat>, text: string) returns (s': State)
    requires Fresh(s)
    ensures CanReach(s, s')
    ensures s' == s.(threads := s.threads + [Holding(LastSession(s), false, conn, [Input(|s.accepted|, text)], Decide, false)],
                     accepted := s.accepted + [Submission(text, false)])
  {
    var start, take := StartSubmit(conn, text, false), Lock(|s.threads|);
    assert Enabled(Apply(s, start), take);
    TwoSteps(s, start, take);
    s' := Apply(Apply(s, start), take);
  }

  lemma {:induction false} FlusherGetsLock(s: State) returns (s': State)
    requires Fresh(s)
    ensures CanReach(s, s')
    ensures s' == s.(threads := s.threads + [Holding(LastSession(s), true, None, [], Drain, false)])
  {
    var take := Lock(|s.threads|);
    assert Enabled(Apply(s, StartFlush), take);
    TwoSteps(s, StartFlush, take);
    s' := Apply(Apply(s, StartFlush), take);
  }

  // A newcomer that finds the queue empty sends at once.
  lemma {:induction false} NewcomerOvertakes(s: State, k: nat, x: Input) returns (s': State)
    requires Fresh(s) && s.pending == [] && HasInHand(s, k, x)
    ensures CanReach(s, s') && Overtaken(s') && Waits(s', x)
    ensures s'.accepted == s.accepted + [Submission("x", false)]
    ensures exists gated :: s'.wire == s.wire + [Sent(|s.accepted|, "x", gated)]
  {
    var j := |s.threads|;
    var s2 := SubmitterGetsLock(s, Some(0), "x");
    assert s2.threads[k] == s.threads[k];
    var s3 := Apply(s2, Run(j, true));
    assert s3.threads[j].stage == First && s3.threads[j].work == [Input(|s.accepted|, "x")];
    assert !HasSuffix("x", PASTE_END + "\r");
    TwoSteps(s2, Run(j, true), Run(j, true));
    s' := Apply(s3, Run(j, true));
    ReachTrans(s, s2, s');
    assert s'.wire == s.wire + [Sent(|s.accepted|, "x", GateActive(s3))];
    assert s'.threads[k] == s.threads[k];
    assert Waits(s', x) && s'.wire[|s.wire|].ticket == |s.accepted|;
  }

  // A newcomer without a connection leaves its input in the queue.
  lemma {:induction false} NewcomerQueues(s: State) returns (s': State)
    requires Fresh(s) && s.pending == []
    ensures CanReach(s, s') && Fresh(s') && s'.pending == [Input(|s.accepted|, "x")] && |s.accepted| < |s'.accepted|
    ensures s.threads <= s'.threads && s'.sessions == s.sessions && s'.now == s.now
  {
    var j := |s.threads|;
    var s1 := SubmitterGetsLock(s, None, "x");
    var s2 := UnconnectedStores(s1, j);
    ReachTrans(s, s1, s2);
    s' := StoreAndUnlock(s2, j);
    ReachTrans(s, s2, s');
    assert s'.threads == s.threads + [Done];
  }

  lemma {:induction false} UnconnectedStores(s: State, j: nat) returns (s': State)
    requires j < |s.threads| && s.threads[j].Holding? && s.threads[j].session < |s.sessions| && s.threads[j].stage == Decide
    requires !Gated(s.sessions[s.threads[j].session], s.now) && s.pending == [] && s.threads[j].conn.None?
    requires s.threads[j].work != [] && s.threads[j].work[0].text != ""
    ensures CanReach(s, s') && s' == s.(threads := s.threads[j := s.threads[j].(stage := Store)])
  {
    hide HasSuffix, CanReach;
    TwoSteps(s, Run(j, false), Run(j, false));
    s' := Apply(Apply(s, Run(j, false)), Run(j, false));
  }

  lemma {:induction false} StoreAndUnlock(s: State, j: nat) returns (s': State)
    requires j < |s.threads| && s.threads[j].Holding? && s.threads[j].session < |s.sessions| && s.threads[j].stage == Store
    requires s.pending == [] && 0 < |s.threads[j].work| <= MAX_PENDING
    ensures CanReach(s, s') && s' == s.(threads := s.threads[j := Done], pending := s.threads[j].work)
  {
    hide CanReach;
    var work := s.threads[j].work;
    assert work + [] == work && [] + work == work && s.dropped + [] == s.dropped;
    TwoSteps(s, Run(j, false), Run(j, false));
    s' := Apply(Apply(s, Run(j, false)), Run(j, false));
  }

  // A flusher whose sends all succeed works off what it has in hand.
  lemma {:induction false} FlusherFinishes(s: State, j: nat) returns (s': State)
    requires j < |s.threads| && s.threads[j].Holding? && s.threads[j].session < |s.sessions|
    requires s.threads[j].stage == First && s.threads[j].work != [] && s.threads[j].conn.Some?
    ensures CanReach(s, s')
    ensures s' == s.(threads := s.threads[j := Done], wire := s'.wire)
    decreases |s.threads[j].work|
  {
    hide CanReach, HasSuffix;
    var s1 := HeadGoesOut(s, j);
    if s1.threads[j].stage == First {
      s' := FlusherFinishes(s1, j);
    } else {
      s' := Apply(s1, Run(j, true));
      ReachStep(s1, Run(j, true));
    }
    ReachTrans(s, s1, s');
    assert s'.threads == s.threads[j := Done];
  }

  lemma {:induction false} HeadGoesOut(s: State, j: nat) returns (s': State)
    requires j < |s.threads| && s.threads[j].Holding? && s.threads[j].session < |s.sessions|
    requires s.threads[j].stage == First && s.threads[j].work != [] && s.threads[j].conn.Some?
    ensures CanReach(s, s')
    ensures var rest := s.threads[j].work[1..];
            s' == s.(threads := s.threads[j := s.threads[j].(work := rest, stage := if rest == [] then Release else First)], wire := s'.wire)
  {
    hide CanReach, HasSuffix;
    ReachStep(s, Run(j, true));
    s' := Apply(s, Run(j, true));
    if s'.threads[j].stage == Second {
      var s1 := s';
      assert s1.threads[j].work[1..] == s.threads[j].work[1..];
      s' := Apply(s1, Run(j, true));
      ReachStep(s1, Run(j, true));
      ReachTrans(s, s1, s');
    }
  }

  // Under the new lock the queue can be emptied, whatever other threads hold.
  lemma {:induction false} QueueCanBeEmptied(s: State) returns (s': State)
    requires Fresh(s)
    ensures CanReach(s, s') && Fresh(s') && s'.pending == [] && s'.accepted == s.accepted
    ensures s.threads <= s'.threads
  {
    if s.pending == [] {
      ReachSelf(s);
      return s;
    }
    var j := |s.threads|;
    var s1 := FlusherGetsLock(s);
    var s2 := Apply(s1, Run(j, true));
    ReachStep(s1, Run(j, true));
    ReachTrans(s, s1, s2);
    s' := FlusherFinishes(s2, j);
    ReachTrans(s, s2, s');
    assert s'.threads == s.threads + [Done];
  }

  // Whoever has an accepted entry in hand under the old lock can be overtaken.
  lemma {:induction false} HolderIsOvertaken(s: State, k: nat, x: Input) returns (s': State)
    requires Fresh(s) && HasInHand(s, k, x)
    ensures CanReach(s, s') && Overtaken(s')
  {
    var s1 := QueueCanBeEmptied(s);
    assert s1.threads[k] == s.threads[k];
    s' := NewcomerOvertakes(s1, k, x);
    ReachTrans(s, s1, s');
  }

  // So can a flusher that is about to take the queue.
  lemma {:induction false} FlusherIsOvertaken(s: State, k: nat) returns (s': State)
    requires Fresh(s) && k < |s.threads| && s.threads[k].Holding? && s.threads[k].stage == Drain
    requires s.threads[k].session < |s.sessions| - 1
    requires forall x <- s.pending :: x.ticket < |s.accepted|
    ensures CanReach(s, s') && Overtaken(s')
  {
    // Any gate of the old session object expires.
    var stale := s.sessions[s.threads[k].session];
    var d: nat := GATE_MAX_AGE + (if stale.gateAt > s.now then stale.gateAt - s.now else 0);
    var s1 := Apply(s, Tick(d));
    ReachStep(s, Tick(d));
    assert !Gated(stale, s1.now);
    var s2 := s1;
    if s1.pending == [] {
      s2 := NewcomerQueues(s1);
      ReachTrans(s, s1, s2);
    }
    s' := TakenQueueIsOvertaken(s2, k);
    ReachTrans(s, s2, s');
  }

  lemma {:induction false} TakenQueueIsOvertaken(s: State, k: nat) returns (s': State)
    requires Fresh(s) && k < |s.threads| && s.threads[k].Holding? && s.threads[k].stage == Drain
    requires s.threads[k].session < |s.sessions| - 1 && !Gated(s.sessions[s.threads[k].session], s.now)
    requires s.pending != [] && s.pending[0].ticket < |s.accepted|
    ensures CanReach(s, s') && Overtaken(s')
  {
    var s1 := Apply(s, Run(k, true));
    ReachStep(s, Run(k, true));
    assert s1.threads == s.threads[k := s1.threads[k]];
    assert s.pending[0] in Work(s1.threads[k]);
    s' := NewcomerOvertakes(s1, k, s.pending[0]);
    ReachTrans(s, s1, s');
  }

  // The state a reattachment leaves behind.
  ghost predicate JustReattached(s: State) {
    && Shape(s) && Fresh(s)
    && (forall th <- s.threads :: Quiet(th) || th.session < |s.sessions| - 1)
    && (forall x: Input | Waits(s, x) :: x.ticket < |s.accepted|)
  }

  lemma {:induction false} BusyHolderIsOvertaken(s: State, k: nat) returns (s': State)
    requires JustReattached(s) && k < |s.threads| && s.threads[k].Holding? && !Quiet(s.threads[k])
    ensures CanReach(s, s') && Overtaken(s')
  {
    assert s.threads[k] in s.threads && ThreadFits(s, s.threads[k]);
    if s.threads[k].stage == Drain {
      assert forall x <- s.pending :: Waits(s, x);
      s' := FlusherIsOvertaken(s, k);
    } else {
      var x := s.threads[k].work[0];
      assert x in Work(s.threads[k]) && Waits(s, x);
      s' := HolderIsOvertaken(s, k, x);
    }
  }

  // Whoever is only about to unlock the old lock does so.
  lemma {:induction false} OldLockIsFreed(s: State, k: nat) returns (s': State)
    requires JustReattached(s) && k < |s.threads| && s.threads[k].Waiting?
    requires forall th <- s.threads :: th.Holding? ==> Quiet(th)
    ensures CanReach(s, s') && Fresh(s') && Enabled(s', Lock(k))
    ensures s' == s.(threads := s'.threads) && |s'.threads| == |s.threads| && s'.threads[k] == s.threads[k]
  {
    var session := s.threads[k].session;
    if Unlocked(s, session) {
      ReachSelf(s);
      return s;
    }
    var h :| 0 <= h < |s.threads| && IsHolder(s.threads[h], session);
    assert s.threads[h] in s.threads && ThreadFits(s, s.threads[h]);
    s' := Apply(s, Run(h, true));
    ReachStep(s, Run(h, true));
    assert s' == s.(threads := s.threads[h := Done]);
    forall j | 0 <= j < |s'.threads|
      ensures !IsHolder(s'.threads[j], session) && !IsHolder(s'.threads[j], LastSession(s))
    {
      assert j != h ==> s'.threads[j] == s.threads[j] && !IsHolder(s.threads[j], s.threads[h].session);
    }
  }

  // A thread that still waits for the old lock gets it, and is then overtaken.
  lemma {:induction false} WaiterIsOvertaken(s: State, k: nat) returns (s': State)
    requires JustReattached(s) && k < |s.threads| && s.threads[k].Waiting?
    requires forall th <- s.threads :: th.Holding? ==> Quiet(th)
    ensures CanReach(s, s') && Overtaken(s')
  {
    var th := s.threads[k];
    assert th in s.threads && th.session < |s.sessions| - 1;
    assert forall x <- s.pending :: Waits(s, x);
    var s1 := OldLockIsFreed(s, k);
    var s2 := LockTaken(s1, k);
    ReachTrans(s, s1, s2);
    if th.flush {
      s' := FlusherIsOvertaken(s2, k);
    } else {
      s' := HolderIsOvertaken(s2, k, Input(|s.accepted|, th.text));
    }
    ReachTrans(s, s2, s');
  }

  lemma {:induction false} LockTaken(s: State, k: nat) returns (s': State)
    requires Fresh(s) && Enabled(s, Lock(k)) && s.threads[k].session < |s.sessions| - 1
    ensures CanReach(s, s') && Fresh(s') && s'.pending == s.pending && s'.sessions == s.sessions
    ensures |s.accepted| <= |s'.accepted| && k < |s'.threads| && s'.threads[k].Holding?
    ensures s'.threads[k].session == s.threads[k].session
    ensures if s.threads[k].flush then s'.threads[k].stage == Drain else HasInHand(s', k, Input(|s.accepted|, s.threads[k].text))
  {
    s' := Apply(s, Lock(k));
    ReachStep(s, Lock(k));
    assert s'.threads == s.threads[k := s'.threads[k]];
  }

  lemma {:induction false} BusyThreadIsOvertaken(s: State) returns (s': State)
    requires JustReattached(s) && !Settled(s)
    ensures CanReach(s, s') && Overtaken(s')
  {
    if k :| 0 <= k < |s.threads| && s.threads[k].Holding? && !Quiet(s.threads[k]) {
      s' := BusyHolderIsOvertaken(s, k);
    } else {
      var k :| 0 <= k < |s.threads| && !Quiet(s.threads[k]);
      s' := WaiterIsOvertaken(s, k);
    }
  }

  lemma {:induction false} AfterReattaching(s: State, conn: nat)
    requires Inv(s)
    ensures JustReattached(Apply(s, Reattach(conn)))
  {
    hide Accounted, GateKept, Exclusive, InOrder, InHand;
    var s' := Apply(s, Reattach(conn));
    StepKeepsShape(s, Reattach(conn));
    OldSessionsOnly(s);
    WaitingWasAccepted(s);
    assert forall x :: Waits(s', x) <==> Waits(s, x) by { hide Shape; }
  }

  lemma {:induction false} OldSessionsOnly(s: State)
    requires Shape(s)
    ensures forall th <- s.threads :: Quiet(th) || th.session < |s.sessions|
    ensures Unlocked(s, |s.sessions|)
  {
    forall i | 0 <= i < |s.threads|
      ensures s.threads[i].Holding? ==> s.threads[i].session < |s.sessions|
      ensures Quiet(s.threads[i]) || s.threads[i].session < |s.sessions|
    {
      assert ThreadFits(s, s.threads[i]);
    }
  }

  lemma {:induction false} WaitingWasAccepted(s: State)
    requires Accounted(Unsent(s), s.wire, s.accepted)
    ensures forall x: Input | Waits(s, x) :: x.ticket < |s.accepted|
  {
    forall x: Input | Waits(s, x)
      ensures x.ticket < |s.accepted|
    {
      WaitingIsUnsent(s, x);
      assert RestFits(s.wire, s.accepted, x);
    }
  }

  lemma {:induction false} WaitingIsUnsent(s: State, x: Input)
    requires Waits(s, x)
    ensures x in Unsent(s)
  {
    if x !in s.pending {
      var k :| 0 <= k < |s.threads| && x in Work(s.threads[k]);
      HeldIsUnsent(s.threads, k, x);
    }
  }

  lemma {:induction false} InOrderMeansNotOvertaken(s: State)
    requires InOrder(s)
    ensures !Overtaken(s)
  {
    forall i, x | 0 <= i < |s.wire| && Waits(s, x)
      ensures s.wire[i].ticket <= x.ticket
    {
      WaitingIsInLine(s, x);
      var j :| 0 <= j < |Line(s)| && Line(s)[j] == x;
    }
  }

  lemma {:induction false} WaitingIsInLine(s: State, x: Input)
    requires Waits(s, x)
    ensures x in Line(s)
  {
    if x !in s.pending {
      var k :| 0 <= k < |s.threads| && x in Work(s.threads[k]);
      HeldIsInHands(s.threads, k, x);
    }
  }

  lemma {:induction false} HeldIsInHands(threads: seq<Thread>, k: nat, x: Input)
    requires k < |threads| && x in Work(threads[k])
    ensures x in Hands(threads)
  {
    if k < |threads| - 1 {
      HeldIsInHands(threads[..|threads| - 1], k, x);
    }
  }

  lemma {:induction false} NoReattachIsOrderly(s: State, steps: seq<Step>)
    requires NoReattach(steps) && ValidRun(s, steps)
    ensures OrderlyRun(s, steps)
    decreases |steps|
  {
    if steps != [] {
      assert steps[0] in steps;
      NoReattachIsOrderly(Apply(s, steps[0]), steps[1..]);
    }
  }

  // A reattachment keeps the order of input safe, whatever happens next, exactly
  // when nobody is between looking up the old session object and being done.
  lemma {:induction false} ReattachIsSafeExactlyWhenSettled(s: State, conn: nat)
    requires Inv(s) && InOrder(s)
    ensures Settled(s) <==> forall s' | CanReach(Apply(s, Reattach(conn)), s') :: !Overtaken(s')
  {
    var s1 := Apply(s, Reattach(conn));
    if Settled(s) {
      StepKeepsInv(s, Reattach(conn));
      ReattachKeepsOrder(s, conn);
      forall s' | CanReach(s1, s')
        ensures !Overtaken(s')
      {
        var steps :| NoReattach(steps) && ValidRun(s1, steps) && After(s1, steps) == s';
        NoReattachIsOrderly(s1, steps);
        OrderlyRunsKeepOrder(s1, steps);
        InOrderMeansNotOvertaken(s');
      }
    } else {
      AfterReattaching(s, conn);
      assert !Settled(s1);
      var s' := BusyThreadIsOvertaken(s1);
    }
  }

  // The wrapper has received the paste and another input, and the paste's return
  // still waits.
  ghost predicate TornApart(s: State, paste: string) {
    && s.accepted == [Submission(paste, false), Submission("x", false)]
    && |s.wire| == 2 && s.wire[0].text + "\r" == paste && s.wire[1].text == "x"
    && s.wire[0].ticket == 0 && s.wire[1].ticket == 1 && Waits(s, Input(0, "\r"))
  }

  // A concrete way to lose the order, open to every bracketed paste: the
  // connection is lost between its two parts, and another wrapper connection is
  // there before the carriage return has failed.
  lemma {:induction false} PasteCanBeTornApart(s: State, paste: string) returns (steps: seq<Step>, s': State)
    requires IsInit(s) && s.wrapper.Some? && !s.sessions[0].injectPending
    requires HasSuffix(paste, PASTE_END + "\r")
    ensures ValidRun(s, steps) && After(s, steps) == s' && Overtaken(s') && TornApart(s', paste)
  {
    hide HasSuffix, IsInit, CanReach, Overtaken, Waits;
    var s4 := PasteLosesConnection(s, paste);
    var s5 := Apply(s4, Reattach(1));
    s' := NewcomerOvertakes(s5, 0, Input(0, "\r"));
    steps := ReachAcrossReattaching(s, s4, 1, s');
    PasteEndsWithReturn(paste);
  }

  lemma {:induction false} PasteLosesConnection(s: State, paste: string) returns (s': State)
    requires IsInit(s) && s.wrapper.Some? && !s.sessions[0].injectPending
    requires HasSuffix(paste, PASTE_END + "\r")
    ensures CanReach(s, s') && Enabled(s', Reattach(1)) && Fresh(Apply(s', Reattach(1)))
    ensures s'.accepted == [Submission(paste, false)] && s'.pending == []
    ensures |s'.threads| == 1 && Work(s'.threads[0]) == [Input(0, "\r")]
    ensures exists gated :: s'.wire == [Sent(0, SplitBracketedPasteSubmit(paste).0, gated)]
  {
    hide HasSuffix;
    var s1 := SubmitterGetsLock(s, Some(0), paste);
    var s2 := PasteHalfSent(s1, 0);
    ReachTrans(s, s1, s2);
    s' := Apply(s2, Disconnect);
    ReachStep(s2, Disconnect);
    ReachTrans(s, s2, s');
    assert [] + [Submission(paste, false)] == [Submission(paste, false)];
  }

  lemma {:induction false} ReachAcrossReattaching(a: State, b: State, conn: nat, c: State) returns (steps: seq<Step>)
    requires CanReach(a, b) && Enabled(b, Reattach(conn)) && CanReach(Apply(b, Reattach(conn)), c)
    ensures ValidRun(a, steps) && After(a, steps) == c
  {
    hide Enabled, Apply;
    var p :| ValidRun(a, p) && After(a, p) == b;
    var q :| ValidRun(Apply(b, Reattach(conn)), q) && After(Apply(b, Reattach(conn)), q) == c;
    var again := [Reattach(conn)] + q;
    assert again[0] == Reattach(conn) && again[1..] == q;
    RunConcat(a, p, again);
    steps := p + again;
  }

  lemma {:induction false} PasteHalfSent(s: State, j: nat) returns (s': State)
    requires j < |s.threads| && s.threads[j].Holding? && s.threads[j].session < |s.sessions| && s.threads[j].stage == Decide
    requires !Gated(s.sessions[s.threads[j].session], s.now) && s.pending == [] && s.threads[j].conn.Some?
    requires |s.threads[j].work| == 1 && HasSuffix(s.threads[j].work[0].text, PASTE_END + "\r")
    ensures CanReach(s, s')
    ensures s' == s.(threads := s.threads[j := s.threads[j].(work := [Input(s.threads[j].work[0].ticket, "\r")], stage := Second)],
                     wire := s'.wire)
    ensures exists gated :: s'.wire == s.wire + [Sent(s.threads[j].work[0].ticket, SplitBracketedPasteSubmit(s.threads[j].work[0].text).0, gated)]
  {
    hide HasSuffix;
    TwoSteps(s, Run(j, true), Run(j, true));
    s' := Apply(Apply(s, Run(j, true)), Run(j, true));
    PasteEndsWithReturn(s.threads[j].work[0].text);
    var rest := Input(s.threads[j].work[0].ticket, "\r");
    assert s.threads[j].work[1..] == [] && [rest] + [] == [rest];
  }

  lemma {:induction false} PasteEndsWithReturn(text: string)
    requires HasSuffix(text, PASTE_END + "\r")
    ensures SplitBracketedPasteSubmit(text).1 == "\r"
  {
  }
}
