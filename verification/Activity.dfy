/**
  The activity of a session (internal/hub/idle_state.go, session_activity.go
  and handleHint in server.go): three independent axes, and a display state
  derived from them until the session has ended.

  Times are nanoseconds since Go's zero time, which is 0.
 */
module Activity {

  const IDLE_AFTER: int := 3_000_000_000
  const APPROVAL_VISIBLE_LEASE: int := 15_000_000_000

  datatype Display =
    | Running | Waiting | Standby
    | Completed | Error | Disconnected | Done | Timeout | Dismissed

  predicate IsTerminal(d: Display) {
    d in {Completed, Error, Disconnected, Done, Timeout, Dismissed}
  }

  datatype SessionActivity = SessionActivity(outputIdle: bool, workflowActive: bool, awaitingUser: bool, awaitingApproval: bool) {

    predicate IsIdle() {
      outputIdle && !workflowActive
    }

    function DisplayState(): Display {
      if awaitingUser then Waiting else if workflowActive || !outputIdle then Running else Standby
    }

    function Normalized(): (r: SessionActivity)
      ensures r.awaitingApproval ==> r.awaitingUser
    {
      if awaitingApproval then this.(awaitingUser := true) else this
    }
  }

  // hasPrompt: the detector currently sees a prompt on screen.
  datatype View = View(display: Display, activity: SessionActivity, lastOutputAt: int, approvalVisible: bool, approvalVisibleAt: int, hasPrompt: bool)

  datatype Event =
    | Output(now: int)
    | Tick(now: int)
    | Hint(now: int, visible: bool)
    | Prompt(present: bool)
    | MarkChild(outcome: Display)
    | SessionEnd(outcome: Display)
    | WrapperGone

  function WithActivity(v: View, a: SessionActivity): View {
    v.(activity := a.Normalized(), display := a.Normalized().DisplayState())
  }

  predicate LeaseExpired(v: View, now: int) {
    v.approvalVisible && !v.hasPrompt && now - v.approvalVisibleAt >= APPROVAL_VISIBLE_LEASE
  }

  predicate OutputQuiet(lastOutputAt: int, now: int) {
    lastOutputAt == 0 || now - lastOutputAt >= IDLE_AFTER
  }

  function Next(v: View, e: Event): View {
    match e
    case Output(now) =>
      var w := v.(lastOutputAt := now);
      if IsTerminal(v.display) then w
      else WithActivity(w, SessionActivity(false, !v.approvalVisible, v.approvalVisible, v.approvalVisible))
    case Tick(now) =>
      var w := if LeaseExpired(v, now) then v.(approvalVisible := false, approvalVisibleAt := 0) else v;
      if IsTerminal(v.display) then w
      else
        var quiet := v.activity.outputIdle || OutputQuiet(v.lastOutputAt, now);
        WithActivity(w, SessionActivity(quiet, !quiet && !w.approvalVisible, w.approvalVisible, w.approvalVisible))
    case Hint(now, visible) =>
      var w := v.(approvalVisible := visible, approvalVisibleAt := if visible then now else 0);
      if IsTerminal(v.display) then w
      else WithActivity(w, v.activity.(awaitingUser := visible, awaitingApproval := visible))
    case Prompt(present) => v.(hasPrompt := present)
    case MarkChild(outcome) => v.(display := outcome)
    case SessionEnd(outcome) => v.(display := outcome)
    case WrapperGone => if IsTerminal(v.display) then v else v.(display := Disconnected)
  }

  predicate Wellformed(e: Event) {
    match e
    case MarkChild(outcome) => outcome in {Done, Timeout}
    case SessionEnd(outcome) => outcome in {Completed, Error}
    case Output(now) => now > 0
    case Tick(now) => now > 0
    case Hint(now, _) => now > 0
    case _ => true
  }

  // --- the session object ----------------------------------------------------------------

  class Session {
    var display: Display
    var activity: SessionActivity
    var lastOutputAt: int
    var approvalVisible: bool
    var approvalVisibleAt: int
    var nativeApprovalSig: string

    function State(): View reads this {
      View(display, activity, lastOutputAt, approvalVisible, approvalVisibleAt, nativeApprovalSig != "")
    }

    constructor ()
      ensures State() == Registered
    {
      display, activity := Standby, SessionActivity(true, false, false, false);
      lastOutputAt, approvalVisible, approvalVisibleAt, nativeApprovalSig := 0, false, 0, "";
    }

    method MarkRunning(now: int)
      modifies this
      ensures State() == Next(old(State()), Output(now))
      ensures if IsTerminal(old(display)) then display == old(display) && activity == old(activity)
              else display == (if approvalVisible then Waiting else Running) && !activity.IsIdle()
                   && activity.awaitingUser == activity.awaitingApproval == approvalVisible == !activity.workflowActive
    {
      lastOutputAt := now;
      if IsTerminal(display) {
        return;
      }
      activity := activity.(outputIdle := false);
      activity := activity.(workflowActive := !approvalVisible);
      activity := activity.(awaitingApproval := approvalVisible);
      activity := activity.(awaitingUser := approvalVisible);
      activity := activity.Normalized();
      display := activity.DisplayState();
    }

    // One session's turn in evaluateIdle; tells whether the UI must be told.
    method Evaluate(now: int) returns (changed: bool)
      modifies this
      ensures State() == Next(old(State()), Tick(now))
      ensures approvalVisible ==> old(approvalVisible) && (nativeApprovalSig != "" || now - approvalVisibleAt < APPROVAL_VISIBLE_LEASE)
      ensures changed <==> old(display) != display || old(activity) != activity
    {
      if approvalVisible && nativeApprovalSig == "" && now - approvalVisibleAt >= APPROVAL_VISIBLE_LEASE {
        approvalVisible := false;
        approvalVisibleAt := 0;
      }
      if IsTerminal(display) {
        return false;
      }
      var before := activity;
      if lastOutputAt == 0 || now - lastOutputAt >= IDLE_AFTER {
        activity := activity.(outputIdle := true);
      }
      activity := activity.(awaitingApproval := approvalVisible);
      activity := activity.(awaitingUser := approvalVisible);
      activity := activity.(workflowActive := !activity.outputIdle && !activity.awaitingUser);
      activity := activity.Normalized();
      var newState := activity.DisplayState();
      changed := before != activity || newState != display;
      if changed {
        display := newState;
      }
    }

    method HandleHint(now: int, visible: bool)
      modifies this
      ensures State() == Next(old(State()), Hint(now, visible))
      ensures if IsTerminal(old(display)) then display == old(display) else display == Waiting <==> visible
      ensures activity == if IsTerminal(old(display)) then old(activity)
                          else old(activity).(awaitingUser := visible, awaitingApproval := visible)
    {
      approvalVisible := visible;
      approvalVisibleAt := if visible then now else 0;
      if !IsTerminal(display) {
        activity := activity.(awaitingApproval := approvalVisible);
        activity := activity.(awaitingUser := approvalVisible);
        activity := activity.Normalized();
        display := activity.DisplayState();
      }
    }

    method MarkChildState(outcome: Display)
      modifies this`display
      ensures State() == Next(old(State()), MarkChild(outcome))
      ensures display == outcome && activity == old(activity)
    {
      if display != outcome {
        display := outcome;
      }
    }
  }

  class Hub {
    var sessions: map<nat, Session>

    // Every session object is listed once.
    ghost predicate Valid() reads this {
      forall a, b | a in sessions && b in sessions && sessions[a] == sessions[b] :: a == b
    }

    // A tick reaches every session, and reports exactly those whose display or
    // activity it changed.
    method EvaluateIdle(now: int) returns (changes: set<nat>)
      requires Valid()
      modifies sessions.Values
      ensures sessions == old(sessions)
      ensures forall id | id in sessions :: sessions[id].State() == Next(old(sessions[id].State()), Tick(now))
      ensures changes == set id | id in sessions
                && (old(sessions[id].display) != sessions[id].display || old(sessions[id].activity) != sessions[id].activity)
    {
      changes := {};
      var todo := sessions.Keys;
      while todo != {}
        invariant todo <= sessions.Keys
        invariant sessions == old(sessions)
        invariant forall id | id in todo :: unchanged(sessions[id])
        invariant forall id | id in sessions && id !in todo :: sessions[id].State() == Next(old(sessions[id].State()), Tick(now))
        invariant forall id | id in sessions && id !in todo ::
                    id in changes <==> old(sessions[id].display) != sessions[id].display || old(sessions[id].activity) != sessions[id].activity
        invariant changes <= sessions.Keys - todo
        decreases todo
      {
        hide Next;
        var id :| id in todo;
        var changed := sessions[id].Evaluate(now);
        todo := todo - {id};
        if changed {
          changes := changes + {id};
        }
      }
    }
  }

  // --- over whole runs -----------------------------------------------------------------------

  const Registered := View(Standby, SessionActivity(true, false, false, false), 0, false, 0, false)

  // A wrapper that reattaches brings a new session object, with or without
  // output to replay.
  function Reattached(now: int, replay: bool): View {
    View(Running, SessionActivity(!replay, replay, false, false), if replay then now else 0, false, 0, false)
  }

  predicate Consistent(v: View) {
    IsTerminal(v.display) || v.display == v.activity.DisplayState()
  }

  // Approval is a kind of waiting; a workflow counts as active only while there
  // is output; and output is idle only if it has been quiet by now.
  predicate Sound(v: View, now: int) {
    && (v.activity.awaitingApproval ==> v.activity.awaitingUser)
    && (v.activity.workflowActive ==> !v.activity.outputIdle)
    && (v.activity.outputIdle && !IsTerminal(v.display) ==> OutputQuiet(v.lastOutputAt, now))
  }

  predicate Timed(e: Event) {
    e.Output? || e.Tick? || e.Hint?
  }

  ghost function After(v: View, events: seq<Event>): View {
    if events == [] then v else Next(After(v, events[..|events| - 1]), events[|events| - 1])
  }

  // The clock never runs back.
  ghost predicate InTime(events: seq<Event>, start: int) {
    && (forall e <- events :: Wellformed(e) && (Timed(e) ==> start <= e.now))
    && (forall i, j | 0 <= i < j < |events| && Timed(events[i]) && Timed(events[j]) :: events[i].now <= events[j].now)
  }

  ghost function Clock(events: seq<Event>, start: int): int {
    if events == [] then start
    else if Timed(events[|events| - 1]) then events[|events| - 1].now
    else Clock(events[..|events| - 1], start)
  }

  lemma {:induction false} StepKeepsSound(v: View, e: Event, before: int, now: int)
    requires Sound(v, before) && before <= now && Wellformed(e) && (Timed(e) ==> e.now == now)
    ensures Sound(Next(v, e), now)
    ensures Consistent(v) || (Timed(e) && !IsTerminal(v.display)) ==> Consistent(Next(v, e))
    ensures IsTerminal(v.display) ==> IsTerminal(Next(v, e).display)
  {
  }

  lemma {:induction false} ClockAdvances(events: seq<Event>, start: int)
    requires InTime(events, start)
    ensures start <= Clock(events, start)
    ensures forall i | 0 <= i < |events| && Timed(events[i]) :: events[i].now <= Clock(events, start)
  {
    if events != [] {
      var n := |events| - 1;
      if !Timed(events[n]) {
        ClockAdvances(events[..n], start);
        assert forall i | 0 <= i < n :: events[..n][i] == events[i];
      }
      assert events[n] in events;
    }
  }

  // Every run keeps the axes sound and the display state in line with them, and
  // never leaves the terminal states.
  lemma {:induction false} RunKeepsSound(v: View, events: seq<Event>, start: int)
    requires Sound(v, start) && InTime(events, start)
    ensures Sound(After(v, events), Clock(events, start))
    ensures Consistent(v) ==> Consistent(After(v, events))
    ensures IsTerminal(v.display) ==> IsTerminal(After(v, events).display)
  {
    if events != [] {
      var n := |events| - 1;
      var before := events[..n];
      RunKeepsSound(v, before, start);
      ClockAdvances(before, start);
      ClockInOrder(events, start);
      assert events[n] in events;
      StepKeepsSound(After(v, before), events[n], Clock(before, start), Clock(events, start));
    }
  }

  lemma {:induction false} ClockInOrder(events: seq<Event>, start: int)
    requires InTime(events, start) && events != []
    ensures Clock(events[..|events| - 1], start) <= Clock(events, start)
  {
    var n := |events| - 1;
    var before := events[..n];
    if Timed(events[n]) {
      ClockWasRead(before, start);
      assert events[n] in events;
    }
  }

  lemma {:induction false} ClockWasRead(events: seq<Event>, start: int)
    ensures Clock(events, start) == start || exists i :: 0 <= i < |events| && Timed(events[i]) && events[i].now == Clock(events, start)
  {
    if events != [] && !Timed(events[|events| - 1]) {
      var n := |events| - 1;
      ClockWasRead(events[..n], start);
      if Clock(events, start) != start {
        var i :| 0 <= i < n && Timed(events[..n][i]) && events[..n][i].now == Clock(events[..n], start);
        assert events[i] == events[..n][i];
      }
    }
  }

  lemma {:induction false} NewSessionsAreSound(now: int, replay: bool)
    ensures Sound(Registered, now) && Consistent(Registered)
    ensures Sound(Reattached(now, replay), now)
    ensures Consistent(Reattached(now, replay)) <==> replay
  {
  }

  // --- what the view says about the run ----------------------------------------------------

  ghost function LastOutput(v: View, events: seq<Event>): int {
    if events == [] then v.lastOutputAt
    else
      var last := events[|events| - 1];
      if last.Output? then last.now else LastOutput(v, events[..|events| - 1])
  }

  ghost function Detected(v: View, events: seq<Event>): bool {
    if events == [] then v.hasPrompt
    else
      var last := events[|events| - 1];
      if last.Prompt? then last.present else Detected(v, events[..|events| - 1])
  }

  // When the prompt was last asserted, unless that has been withdrawn or has
  // been found to be 15 seconds old with no prompt on screen.
  ghost function Asserted(v: View, events: seq<Event>): (at: set<int>) {
    if events == [] then (if v.approvalVisible then {v.approvalVisibleAt} else {})
    else
      var before := events[..|events| - 1];
      match events[|events| - 1]
      case Hint(now, visible) => if visible then {now} else {}
      case Tick(now) => set t | t in Asserted(v, before) && (Detected(v, before) || now < t + 15_000_000_000)
      case _ => Asserted(v, before)
  }

  // How the session has ended: as last marked or reported, or else by the loss
  // of its wrapper.
  ghost function Ending(v: View, events: seq<Event>): set<Display> {
    if events == [] then (if IsTerminal(v.display) then {v.display} else {})
    else
      var before := Ending(v, events[..|events| - 1]);
      match events[|events| - 1]
      case MarkChild(outcome) => {outcome}
      case SessionEnd(outcome) => {outcome}
      case WrapperGone => if before == {} then {Disconnected} else before
      case _ => before
  }

  ghost predicate Tells(v: View, events: seq<Event>, w: View) {
    && w.lastOutputAt == LastOutput(v, events) && w.hasPrompt == Detected(v, events)
    && Asserted(v, events) == (if w.approvalVisible then {w.approvalVisibleAt} else {})
    && Ending(v, events) == (if IsTerminal(w.display) then {w.display} else {})
  }

  lemma {:induction false} ViewTellsTheRun(v: View, events: seq<Event>)
    requires forall e <- events :: Wellformed(e)
    ensures Tells(v, events, After(v, events))
  {
    hide Next, Tells;
    if events != [] {
      var n := |events| - 1;
      assert events[n] in events;
      ViewTellsTheRun(v, events[..n]);
      TellsOneMore(v, events, After(v, events[..n]));
    } else {
      TellsNothing(v);
    }
  }

  lemma {:induction false} TellsNothing(v: View)
    ensures Tells(v, [], v)
  {
  }

  lemma {:induction false} TellsOneMore(v: View, events: seq<Event>, w: View)
    requires events != [] && Wellformed(events[|events| - 1]) && Tells(v, events[..|events| - 1], w)
    ensures Tells(v, events, Next(w, events[|events| - 1]))
  {
    TellsOutputAndPrompt(v, events, w);
    TellsAssertion(v, events, w);
    TellsEnding(v, events, w);
  }

  lemma {:induction false} TellsOutputAndPrompt(v: View, events: seq<Event>, w: View)
    requires events != [] && Tells(v, events[..|events| - 1], w)
    ensures var w' := Next(w, events[|events| - 1]);
            w'.lastOutputAt == LastOutput(v, events) && w'.hasPrompt == Detected(v, events)
  {
  }

  lemma {:induction false} TellsAssertion(v: View, events: seq<Event>, w: View)
    requires events != [] && Tells(v, events[..|events| - 1], w)
    ensures var w' := Next(w, events[|events| - 1]);
            Asserted(v, events) == (if w'.approvalVisible then {w'.approvalVisibleAt} else {})
  {
    hide LastOutput, Ending;
  }

  lemma {:induction false} TellsEnding(v: View, events: seq<Event>, w: View)
    requires events != [] && Wellformed(events[|events| - 1]) && Tells(v, events[..|events| - 1], w)
    ensures var w' := Next(w, events[|events| - 1]);
            Ending(v, events) == (if IsTerminal(w'.display) then {w'.display} else {})
  {
    hide LastOutput, Asserted, Detected;
  }

  // A prompt asserted counts while it is on screen, or was asserted less than
  // 15 seconds ago.
  predicate StillAsserted(asserted: set<int>, seen: bool, now: int) {
    exists t <- asserted :: seen || now < t + 15_000_000_000
  }

  lemma {:induction false} OneAssertion(at: int, seen: bool, now: int)
    ensures StillAsserted({at}, seen, now) <==> seen || now < at + 15_000_000_000
    ensures !StillAsserted({}, seen, now)
  {
    assert at in {at};
  }

  lemma {:induction false} TickOfView(v: View, now: int)
    requires Sound(v, now) && !IsTerminal(v.display)
    ensures var w := Next(v, Tick(now));
            && (w.approvalVisible <==> v.approvalVisible && (v.hasPrompt || now < v.approvalVisibleAt + 15_000_000_000))
            && w.display == (if w.approvalVisible then Waiting
                             else if v.lastOutputAt == 0 || v.lastOutputAt + 3_000_000_000 <= now then Standby
                             else Running)
            && (w.activity.IsIdle() <==> v.lastOutputAt == 0 || v.lastOutputAt + 3_000_000_000 <= now)
            && w.activity.awaitingUser == w.activity.awaitingApproval == w.approvalVisible
            && (w.activity.workflowActive <==> w.display == Running)
  {
  }

  // What a tick makes of a session that has not ended depends on nothing but the
  // last output, the last assertion of a prompt, and the prompt detector.
  lemma {:induction false} TickDecides(v: View, events: seq<Event>, start: int, now: int)
    requires Sound(v, start) && InTime(events + [Tick(now)], start) && Ending(v, events) == {}
    ensures var w, last := After(v, events + [Tick(now)]), LastOutput(v, events);
            && (w.approvalVisible <==> StillAsserted(Asserted(v, events), Detected(v, events), now))
            && w.display == (if w.approvalVisible then Waiting
                             else if last == 0 || last + 3_000_000_000 <= now then Standby
                             else Running)
            && (w.activity.IsIdle() <==> last == 0 || last + 3_000_000_000 <= now)
            && w.activity.awaitingUser == w.activity.awaitingApproval == w.approvalVisible
            && (w.activity.workflowActive <==> w.display == Running)
  {
    hide Next, Asserted, Detected, LastOutput, Ending, StillAsserted;
    var all, b := events + [Tick(now)], After(v, events);
    assert all[..|all| - 1] == events;
    assert forall e <- events :: e in all;
    RunKeepsSound(v, events, start) by {
      assert forall i | 0 <= i < |events| :: all[i] == events[i];
    }
    ClockInOrder(all, start);
    ViewTellsTheRun(v, events);
    TickOfView(b, now);
    OneAssertion(b.approvalVisibleAt, b.hasPrompt, now);
  }

  // After every tick a visible prompt is one that the detector still sees or
  // that was asserted less than 15 seconds ago, even once the session has ended.
  lemma {:induction false} NoStalePrompt(v: View, now: int)
    ensures var w := Next(v, Tick(now));
            w.approvalVisible ==> w.hasPrompt || now - w.approvalVisibleAt < APPROVAL_VISIBLE_LEASE
  {
  }

  // A session is idle exactly if its output is; waiting for the user aside, the
  // display state then says so.
  lemma {:induction false} IdleMeansQuiet(v: View, now: int)
    requires Sound(v, now) && Consistent(v) && !IsTerminal(v.display)
    ensures v.activity.IsIdle() <==> v.activity.outputIdle
    ensures v.activity.IsIdle() ==> v.display in {Standby, Waiting}
    ensures v.display == Standby ==> v.activity.IsIdle()
    ensures v.display == Waiting <==> v.activity.awaitingUser
  {
  }

  // A child marked done or timed out stays so, whatever its terminal still puts
  // out and even when its wrapper goes away, unless it is marked again or its
  // session reports its end.
  lemma {:induction false} MarksAreKept(v: View, outcome: Display, events: seq<Event>)
    requires outcome in {Done, Timeout} && forall e <- events :: !e.MarkChild? && !e.SessionEnd?
    ensures After(Next(v, MarkChild(outcome)), events).display == outcome
  {
    if events != [] {
      var n := |events| - 1;
      MarksAreKept(v, outcome, events[..n]);
      assert events[n] in events;
    }
  }
}
