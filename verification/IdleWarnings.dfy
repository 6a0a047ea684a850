/**
  How often the poller speaks up about one child over a whole run: once when
  it times out, never again after that or after it is done, and again about a
  silence exactly if some check in between took the child for active.

  A check goes by two time stamps. The session's last output: a wrapper that
  reattaches with a replay counts as output at that moment, and without one the
  stamp is gone (reattachLoop in wrapper_loop.go). And the child's last board
  write: a change of the board, whoever made it, is credited to whom its last
  header names, and to all children of a role if it names no more than that.
 */
module IdleWarnings {
  import opened Orchestration
  import opened RespawnRuns

  // The board with its jobs, the output stamps of the sessions, and the stamps
  // as the poller last looked at them: it does so before it takes the board's lock.
  datatype Hub = Hub(sys: System, outputs: map<nat, int>, seen: map<nat, int>)

  // With the authors of what has been written since the last step of the board.
  datatype Event =
    | Board(step: Step, authors: set<nat>)
    | Look
    | Output(id: nat, at: int)
    | Reattach(id: nat, at: int, replay: bool)

  predicate Possible(h: Hub, e: Event) {
    match e
    case Board(step, _) => Enabled(h.sys, step) && (step.Check? ==> step.outputs == h.seen)
    case Look => true
    case Output(_, at) => at > 0
    case Reattach(_, at, _) => at > 0
  }

  ghost function Happen(h: Hub, e: Event): Hub
    requires Possible(h, e)
  {
    match e
    case Board(step, _) => h.(sys := Apply(h.sys, step))
    case Look => h.(seen := h.outputs)
    case Output(id, at) => h.(outputs := h.outputs[id := at])
    case Reattach(id, at, replay) => h.(outputs := h.outputs[id := if replay then at else 0])
  }

  ghost predicate Valid(h: Hub, events: seq<Event>)
    decreases |events|
  {
    events == [] || (Possible(h, events[0]) && Valid(Happen(h, events[0]), events[1..]))
  }

  ghost function Later(h: Hub, events: seq<Event>): Hub
    requires Valid(h, events)
    decreases |events|
  {
    if events == [] then h else Later(Happen(h, events[0]), events[1..])
  }

  predicate IsCheck(e: Event) {
    e.Board? && e.step.Check?
  }

  ghost predicate Noticed(h: Hub, e: Event, id: nat, v: Verdict) {
    IsCheck(e) && id in h.sys.board.children && TimerVerdict(h.sys.board, id, e.step.now, e.step.outputs, e.step.cfg) == v
  }

  // How often that verdict falls on the child.
  ghost function Notices(h: Hub, events: seq<Event>, id: nat, v: Verdict): nat
    requires Valid(h, events)
    decreases |events|
  {
    if events == [] then 0
    else (if Noticed(h, events[0], id, v) then 1 else 0) + Notices(Happen(h, events[0]), events[1..], id, v)
  }

  // The child finished or timed out.
  predicate Settled(b: Orchestration.Board, id: nat) {
    id in b.children && (Finished(b, id) || id in b.timedOut)
  }

  // Something written is credited to the child, rightly or not.
  ghost predicate Credits(s: System, step: Step, id: nat)
    requires Enabled(s, step)
  {
    match step
    case ScanFiles(_, updates) => Touched(updates, id)
    case ChangeBoard(_, writer, _) =>
      var w := ResolveWriter(s.board, writer);
      id == w || (w == 0 && id in s.board.children && s.board.children[id].role == writer.role)
    case _ => false
  }

  lemma {:induction false} ChildAfterStep(s: System, step: Step, id: nat)
    requires Enabled(s, step) && id in s.board.children
    ensures var b' := Apply(s, step).board;
            && id in b'.children && b'.children[id].spawnedAt == s.board.children[id].spawnedAt
            && (Finished(s.board, id) ==> Finished(b', id))
            && (id in s.board.timedOut ==> id in b'.timedOut)
            && (!Credits(s, step, id) ==> b'.children[id].lastBoardWrite == s.board.children[id].lastBoardWrite)
            && (!step.Check? ==> b'.idleWarned == s.board.idleWarned)
  {
    hide OnlyChild, Touched, Completed, Wrote, Marks;
    match step
    case ScanFiles(now, updates) =>
      FilesCompleteOnlyTheirChild(s.board, now, updates, id);
      ScanSpares(s.board, now, updates);
    case ChangeBoard(now, writer, events) =>
      BoardCompletesOnlyItsWriter(s.board, now, writer, events, id);
      ChangeSpares(s.board, now, writer, events);
      WriterIsResolved(s.board, writer);
    case _ =>
  }

  lemma {:induction false} ChangeSpares(b: Orchestration.Board, now: int, writer: Writer, events: seq<DoneEvent>)
    requires 0 !in b.children
    ensures var b' := BoardChanged(b, now, writer, events); b'.timedOut == b.timedOut && b'.idleWarned == b.idleWarned
  {
  }

  lemma {:induction false} ScanSpares(b: Orchestration.Board, now: int, updates: seq<FileUpdate>)
    ensures var b' := FilesScanned(b, now, updates);
            b'.timedOut == b.timedOut && b'.idleWarned == b.idleWarned
  {
    if updates != [] {
      ScanSpares(b, now, updates[..|updates| - 1]);
    }
  }

  lemma {:induction false} ChildAfter(h: Hub, e: Event, id: nat)
    requires Possible(h, e) && id in h.sys.board.children
    ensures var b, b' := h.sys.board, Happen(h, e).sys.board;
            && id in b'.children
            && (Settled(b, id) ==> Settled(b', id)) && (Finished(b, id) ==> Finished(b', id))
            && (!IsCheck(e) ==> b'.idleWarned == b.idleWarned)
  {
    hide Enabled, Apply;
    if e.Board? {
      ChildAfterStep(h.sys, e.step, id);
    }
  }

  // After a child is done or has timed out, it stays so, and nothing more is
  // ever said about it.
  lemma {:induction false} SettledForGood(h: Hub, events: seq<Event>, id: nat)
    requires Valid(h, events) && Settled(h.sys.board, id)
    ensures Settled(Later(h, events).sys.board, id)
    ensures Finished(h.sys.board, id) ==> Finished(Later(h, events).sys.board, id)
    ensures Notices(h, events, id, TimesOut) == 0 && Notices(h, events, id, Warns) == 0
    decreases |events|
  {
    hide Possible, Happen;
    if events != [] {
      ChildAfter(h, events[0], id);
      SettledForGood(Happen(h, events[0]), events[1..], id);
    }
  }

  // A child times out at most once.
  lemma {:induction false} TimesOutAtMostOnce(h: Hub, events: seq<Event>, id: nat)
    requires Valid(h, events)
    ensures Notices(h, events, id, TimesOut) <= 1
    decreases |events|
  {
    hide Enabled, TimerVerdict;
    if events != [] {
      if Noticed(h, events[0], id, TimesOut) {
        CheckedChild(h.sys.board, id, events[0].step.now, events[0].step.outputs, events[0].step.cfg);
        SettledForGood(Happen(h, events[0]), events[1..], id);
      } else {
        TimesOutAtMostOnce(Happen(h, events[0]), events[1..], id);
      }
    }
  }

  // --- when a warning repeats ----------------------------------------------------------

  function LastActive(c: Child, output: int): int {
    if output != 0 && output > c.lastBoardWrite then output else c.lastBoardWrite
  }

  // As far as the poller has seen.
  function ActiveAt(h: Hub, id: nat): int
    requires id in h.sys.board.children
  {
    LastActive(h.sys.board.children[id], OutputOf(h.seen, id))
  }

  // A check with a threshold that leaves the child unsettled.
  ghost predicate Checks(h: Hub, e: Event, id: nat)
    requires Possible(h, e)
  {
    && IsCheck(e) && e.step.cfg.idleThreshold > 0
    && id in h.sys.board.children && !Settled(Happen(h, e).sys.board, id)
  }

  // Such a check that finds the silence no longer than its threshold ...
  ghost predicate Covers(h: Hub, e: Event, id: nat)
    requires Possible(h, e)
  {
    Checks(h, e, id) && e.step.now <= ActiveAt(h, id) + e.step.cfg.idleThreshold * SECOND
  }

  // ... or longer.
  ghost predicate Exceeds(h: Hub, e: Event, id: nat)
    requires Possible(h, e)
  {
    Checks(h, e, id) && e.step.now > ActiveAt(h, id) + e.step.cfg.idleThreshold * SECOND
  }

  // Some check finds the silence too long.
  ghost predicate ExceededAtSomeTime(h: Hub, events: seq<Event>, id: nat)
    requires Valid(h, events)
    decreases |events|
  {
    events != [] && (Exceeds(h, events[0], id) || ExceededAtSomeTime(Happen(h, events[0]), events[1..], id))
  }

  // Some check finds it short enough, and a later one too long.
  ghost predicate ExceededAfterCovered(h: Hub, events: seq<Event>, id: nat)
    requires Valid(h, events)
    decreases |events|
  {
    events != [] && (
      || (Covers(h, events[0], id) && ExceededAtSomeTime(Happen(h, events[0]), events[1..], id))
      || ExceededAfterCovered(Happen(h, events[0]), events[1..], id))
  }

  lemma {:induction false} CheckedChild(b: Orchestration.Board, id: nat, now: int, outputs: map<nat, int>, cfg: Config)
    requires id in b.children
    ensures var b', v := CheckTimers(b, now, outputs, cfg), TimerVerdict(b, id, now, outputs, cfg);
            && id in b'.children && b'.children[id] == b.children[id] && b'.done == b.done
            && (id in b'.idleWarned <==> (id in b.idleWarned && v != Rearms) || v == Warns)
            && (id in b'.timedOut <==> id in b.timedOut || v == TimesOut)
  {
    hide TimerVerdict;
  }

  // One event that leaves the child unsettled.
  lemma {:induction false} UnsettledStep(h: Hub, e: Event, id: nat)
    requires Possible(h, e) && id in h.sys.board.children && !Settled(Happen(h, e).sys.board, id)
    ensures var b, b' := h.sys.board, Happen(h, e).sys.board;
            && id in b'.children
            && (Noticed(h, e, id, Warns) <==> Exceeds(h, e, id) && id !in b.idleWarned)
            && (id in b'.idleWarned <==> Exceeds(h, e, id) || (id in b.idleWarned && !Covers(h, e, id)))
  {
    hide Enabled;
    ChildAfter(h, e, id);
    if IsCheck(e) {
      CheckedChild(h.sys.board, id, e.step.now, e.step.outputs, e.step.cfg);
    }
  }

  // A check that settles the child does not warn about it.
  lemma {:induction false} SettlingStep(h: Hub, e: Event, id: nat)
    requires Possible(h, e) && id in h.sys.board.children && Settled(Happen(h, e).sys.board, id)
    ensures !Noticed(h, e, id, Warns) && !Covers(h, e, id) && !Exceeds(h, e, id)
  {
    hide Enabled;
    if IsCheck(e) {
      CheckedChild(h.sys.board, id, e.step.now, e.step.outputs, e.step.cfg);
    }
  }

  lemma {:induction false} NoChecksOfTheSettled(h: Hub, events: seq<Event>, id: nat)
    requires Valid(h, events) && Settled(h.sys.board, id)
    ensures !ExceededAtSomeTime(h, events, id) && !ExceededAfterCovered(h, events, id)
    decreases |events|
  {
    hide Possible, Happen;
    if events != [] {
      ChildAfter(h, events[0], id);
      NoChecksOfTheSettled(Happen(h, events[0]), events[1..], id);
    }
  }

  // In every run, a child that has been warned about is warned about again
  // exactly if some check before it settles finds its silence no longer than the
  // threshold, and a later one longer than the threshold then.
  lemma {:induction false} WhenAWarningRepeats(h: Hub, events: seq<Event>, id: nat)
    requires Valid(h, events) && id in h.sys.board.children
    ensures Notices(h, events, id, Warns) > 0
       <==> if id in h.sys.board.idleWarned then ExceededAfterCovered(h, events, id) else ExceededAtSomeTime(h, events, id)
    decreases |events|
  {
    hide Possible, Happen, Settled, Covers, Exceeds, Noticed;
    if events != [] {
      var h', e := Happen(h, events[0]), events[0];
      ChildAfter(h, e, id);
      if Settled(h'.sys.board, id) {
        SettlingStep(h, e, id);
        SettledForGood(h', events[1..], id);
        NoChecksOfTheSettled(h', events[1..], id);
      } else {
        UnsettledStep(h, e, id);
        WhenAWarningRepeats(h', events[1..], id);
        NotBoth(h, e, id);
        CoveredThenExceeded(h', events[1..], id);
      }
    }
  }

  lemma {:induction false} NotBoth(h: Hub, e: Event, id: nat)
    requires Possible(h, e)
    ensures !(Covers(h, e, id) && Exceeds(h, e, id))
  {
  }

  lemma {:induction false} CoveredThenExceeded(h: Hub, events: seq<Event>, id: nat)
    requires Valid(h, events)
    ensures ExceededAfterCovered(h, events, id) ==> ExceededAtSomeTime(h, events, id)
    decreases |events|
  {
    hide Possible, Happen, Covers, Exceeds;
    if events != [] {
      CoveredThenExceeded(Happen(h, events[0]), events[1..], id);
    }
  }

  // --- one silence --------------------------------------------------------------------

  // The child is the author of nothing, and puts out nothing.
  ghost predicate SilentRun(h: Hub, events: seq<Event>, id: nat)
    requires Valid(h, events)
    decreases |events|
  {
    events == [] || (
      && (events[0].Board? ==> id !in events[0].authors)
      && (events[0].Output? ==> events[0].id != id)
      && SilentRun(Happen(h, events[0]), events[1..], id))
  }

  // What can make the poller take a silent child for active: a longer threshold
  // than the one it warned with, a replay by a wrapper that reattached, or what
  // somebody else wrote and the child is credited with.
  ghost predicate Misleads(h: Hub, e: Event, id: nat, threshold: int)
    requires Possible(h, e)
  {
    || (IsCheck(e) && e.step.cfg.idleThreshold > threshold)
    || (e.Reattach? && e.id == id && e.replay)
    || (e.Board? && Credits(h.sys, e.step, id))
  }

  // No check is older than `now`, and nothing misleads any.
  ghost predicate Undisturbed(h: Hub, events: seq<Event>, id: nat, now: int, threshold: int)
    requires Valid(h, events)
    decreases |events|
  {
    events == [] || (
      && (IsCheck(events[0]) ==> now <= events[0].step.now)
      && !Misleads(h, events[0], id, threshold)
      && Undisturbed(Happen(h, events[0]), events[1..], id, now, threshold))
  }

  // Nothing written or put out after that time, seen or not.
  predicate SilentSince(h: Hub, id: nat, active: int)
    requires id in h.sys.board.children
  {
    ActiveAt(h, id) <= active && LastActive(h.sys.board.children[id], OutputOf(h.outputs, id)) <= active
  }

  lemma {:induction false} SilenceOnlyGrows(h: Hub, e: Event, id: nat, threshold: int)
    requires Possible(h, e) && id in h.sys.board.children && !Misleads(h, e, id, threshold) && (e.Output? ==> e.id != id)
    ensures id in Happen(h, e).sys.board.children
    ensures forall active | SilentSince(h, id, active) :: SilentSince(Happen(h, e), id, active)
  {
    hide Enabled, Apply;
    if e.Board? {
      ChildAfterStep(h.sys, e.step, id);
    }
  }

  // In a silence that outlasts the threshold, nothing but that makes a check
  // find it short.
  lemma {:induction false} NeverCovered(h: Hub, events: seq<Event>, id: nat, active: int, now: int, threshold: int)
    requires Valid(h, events) && SilentRun(h, events, id) && id in h.sys.board.children && SilentSince(h, id, active)
    requires now > active + threshold * SECOND
    requires Undisturbed(h, events, id, now, threshold)
    ensures !ExceededAfterCovered(h, events, id)
    decreases |events|
  {
    hide Possible, Happen, Credits, ActiveAt, Exceeds, Settled, LastActive;
    if events != [] {
      SilenceOnlyGrows(h, events[0], id, threshold);
      assert SilentSince(Happen(h, events[0]), id, active);
      assert !Covers(h, events[0], id);
      NeverCovered(Happen(h, events[0]), events[1..], id, active, now, threshold);
    }
  }

  // A silence brings exactly one warning, however it ends, unless the threshold
  // is raised, a replay is taken for output, or something is credited to the
  // child that it did not write.
  lemma {:induction false} OneWarningPerSilence(h: Hub, events: seq<Event>, id: nat)
    requires events != [] && Valid(h, events) && SilentRun(h, events, id) && Noticed(h, events[0], id, Warns)
    requires OutputOf(h.seen, id) == OutputOf(h.outputs, id)
    requires Undisturbed(Happen(h, events[0]), events[1..], id, events[0].step.now, events[0].step.cfg.idleThreshold)
    ensures Notices(h, events, id, Warns) == 1
  {
    var first, h' := events[0], Happen(h, events[0]);
    WarnedChild(h, first, id);
    assert SilentSince(h', id, ActiveAt(h, id));
    WhenAWarningRepeats(h', events[1..], id);
    NeverCovered(h', events[1..], id, ActiveAt(h, id), first.step.now, first.step.cfg.idleThreshold);
  }

  lemma {:induction false} WarnedChild(h: Hub, e: Event, id: nat)
    requires Possible(h, e) && Noticed(h, e, id, Warns)
    ensures var h' := Happen(h, e);
            && id in h'.sys.board.children && id in h'.sys.board.idleWarned && ActiveAt(h', id) == ActiveAt(h, id)
            && h'.outputs == h.outputs && e.step.now > ActiveAt(h, id) + e.step.cfg.idleThreshold * SECOND
  {
    hide Enabled;
    CheckedChild(h.sys.board, id, e.step.now, e.step.outputs, e.step.cfg);
  }

  // --- runs that repeat a warning about one silence --------------------------------------

  ghost predicate Fresh(h: Hub, id: nat) {
    && id in h.sys.board.children && !Settled(h.sys.board, id) && id !in h.sys.board.idleWarned
    && h.sys.board.children[id].lastBoardWrite > 0 && OutputOf(h.seen, id) == OutputOf(h.outputs, id) == 0
  }

  function CheckAt(h: Hub, now: int, idleThreshold: int): Event {
    Event.Board(Check(now, h.seen, Config(0, idleThreshold, false, 0)), {})
  }

  // The threshold is raised for one check.
  lemma {:induction false} RaisedThresholdRepeatsWarning(h: Hub, id: nat) returns (events: seq<Event>)
    requires Fresh(h, id)
    ensures Valid(h, events) && SilentRun(h, events, id) && Notices(h, events, id, Warns) == 2
    ensures forall e <- events :: IsCheck(e)
  {
    hide Possible, Happen, Settled, Noticed;
    var active := h.sys.board.children[id].lastBoardWrite;
    var a := CheckAt(h, active + 11 * SECOND, 10);
    var h1 := AfterCheck(h, id, active + 11 * SECOND, 10);
    var b := CheckAt(h1, active + 12 * SECOND, 100);
    var h2 := AfterCheck(h1, id, active + 12 * SECOND, 100);
    var c := CheckAt(h2, active + 13 * SECOND, 10);
    var h3 := AfterCheck(h2, id, active + 13 * SECOND, 10);
    FirstEvent(h2, c, [], id);
    FirstEvent(h1, b, [c] + [], id);
    events := [a] + ([b] + ([c] + []));
    FirstEvent(h, a, [b] + ([c] + []), id);
  }

  // The threshold stays at ten seconds, and the wrapper reattaches with a replay.
  lemma {:induction false} ReplayRepeatsWarning(h: Hub, id: nat) returns (events: seq<Event>)
    requires Fresh(h, id)
    ensures Valid(h, events) && SilentRun(h, events, id) && Notices(h, events, id, Warns) == 2
    ensures forall e <- events :: IsCheck(e) ==> e.step.cfg.idleThreshold == 10
  {
    hide Settled, TimerVerdict, Enabled, Apply;
    var active := h.sys.board.children[id].lastBoardWrite;
    var a := CheckAt(h, active + 11 * SECOND, 10);
    var h1 := AfterCheck(h, id, active + 11 * SECOND, 10);
    var r := Reattach(id, active + 12 * SECOND, true);
    var h2 := Happen(Happen(h1, r), Look);
    var b, c, rest := RepeatedWarning(h2, id, active + 12 * SECOND);
    FirstEvent(Happen(h1, r), Look, rest, id);
    FirstEvent(h1, r, [Look] + rest, id);
    FirstEvent(h, a, [r] + ([Look] + rest), id);
    events := [a] + ([r] + ([Look] + rest));
  }

  // The threshold stays at ten seconds, nobody reattaches, and what somebody
  // else writes is credited to the child.
  lemma {:induction false} CreditRepeatsWarning(h: Hub, id: nat, writer: Writer, authors: set<nat>) returns (events: seq<Event>)
    requires Fresh(h, id) && 0 !in h.sys.board.children && id !in authors
    requires Credits(h.sys, ChangeBoard(0, writer, []), id)
    ensures Valid(h, events) && SilentRun(h, events, id) && Notices(h, events, id, Warns) == 2
    ensures forall e <- events :: e.Board? && (IsCheck(e) ==> e.step.cfg.idleThreshold == 10)
  {
    hide Settled, TimerVerdict, Noticed;
    var active := h.sys.board.children[id].lastBoardWrite;
    var a := CheckAt(h, active + 11 * SECOND, 10);
    var h1 := AfterCheck(h, id, active + 11 * SECOND, 10);
    var w := Event.Board(ChangeBoard(active + 12 * SECOND, writer, []), authors);
    var h2 := Credited(h1, id, active + 12 * SECOND, writer, authors);
    var b, c, rest := RepeatedWarning(h2, id, active + 12 * SECOND);
    FirstEvent(h1, w, rest, id);
    FirstEvent(h, a, [w] + rest, id);
    events := [a] + ([w] + rest);
  }

  // So it is with the section of a sibling that gives only the role they share.
  lemma {:induction false} UnsignedSectionRepeatsWarning(h: Hub, id: nat, sibling: nat) returns (events: seq<Event>)
    requires Fresh(h, id) && 0 !in h.sys.board.children && sibling in h.sys.board.children && sibling != id
    requires h.sys.board.children[sibling].role == h.sys.board.children[id].role
    ensures Valid(h, events) && SilentRun(h, events, id) && Notices(h, events, id, Warns) == 2
    ensures forall e <- events :: e.Board? && (IsCheck(e) ==> e.step.cfg.idleThreshold == 10)
  {
    var role := h.sys.board.children[id].role;
    assert forall x :: !OnlyChild(h.sys.board, role, x);
    events := CreditRepeatsWarning(h, id, Writer(role, 0), {sibling});
  }

  // A wrapper that reattaches without a replay makes the poller forget output:
  // it warns of ten seconds without any although there was some two seconds ago.
  lemma {:induction false} ForgottenOutputWarnsEarly(h: Hub, id: nat) returns (at: int, events: seq<Event>)
    requires Fresh(h, id)
    ensures events == [Output(id, at)] + ([Look] + ([Reattach(id, at + SECOND, false)] + ([Look] + [])))
    ensures Valid(h, events) && Noticed(Later(h, events), CheckAt(Later(h, events), at + 2 * SECOND, 10), id, Warns)
  {
    hide Settled, Noticed, Enabled, Apply;
    at := h.sys.board.children[id].lastBoardWrite + 20 * SECOND;
    var r := Reattach(id, at + SECOND, false);
    var h1 := Happen(h, Output(id, at));
    var h2 := Happen(h1, Look);
    var h3 := Happen(h2, r);
    FirstEvent(h3, Look, [], id);
    FirstEvent(h2, r, [Look] + [], id);
    FirstEvent(h1, Look, [r] + ([Look] + []), id);
    FirstEvent(h, Output(id, at), [Look] + ([r] + ([Look] + [])), id);
    events := [Output(id, at)] + ([Look] + ([r] + ([Look] + [])));
    var h4 := AfterCheck(Happen(h3, Look), id, at + 2 * SECOND, 10);
  }

  // --- steps of these runs --------------------------------------------------------------------

  lemma {:induction false} FirstEvent(h: Hub, e: Event, rest: seq<Event>, id: nat)
    requires Possible(h, e) && Valid(Happen(h, e), rest)
    ensures Valid(h, [e] + rest) && Later(h, [e] + rest) == Later(Happen(h, e), rest)
    ensures SilentRun(Happen(h, e), rest, id) && (e.Board? ==> id !in e.authors) && (e.Output? ==> e.id != id) ==> SilentRun(h, [e] + rest, id)
    ensures Notices(h, [e] + rest, id, Warns) == (if Noticed(h, e, id, Warns) then 1 else 0) + Notices(Happen(h, e), rest, id, Warns)
    ensures !IsCheck(e) ==> !Noticed(h, e, id, Warns)
  {
    hide Possible, Happen;
    var events := [e] + rest;
    assert events[0] == e && events[1..] == rest;
  }

  lemma {:induction false} AfterCheck(h: Hub, id: nat, now: int, threshold: int) returns (h': Hub)
    requires id in h.sys.board.children && !Settled(h.sys.board, id) && threshold > 0
    ensures Possible(h, CheckAt(h, now, threshold)) && h' == Happen(h, CheckAt(h, now, threshold))
    ensures h'.outputs == h.outputs && h'.seen == h.seen && h'.sys.board.children == h.sys.board.children && !Settled(h'.sys.board, id)
    ensures id in h'.sys.board.idleWarned <==> now > ActiveAt(h, id) + threshold * SECOND
    ensures Noticed(h, CheckAt(h, now, threshold), id, Warns) <==> now > ActiveAt(h, id) + threshold * SECOND && id !in h.sys.board.idleWarned
  {
    var e := CheckAt(h, now, threshold);
    h' := Happen(h, e);
    CheckedChild(h.sys.board, id, now, h.seen, e.step.cfg);
  }

  lemma {:induction false} Credited(h: Hub, id: nat, now: int, writer: Writer, authors: set<nat>) returns (h': Hub)
    requires id in h.sys.board.children && !Settled(h.sys.board, id) && 0 !in h.sys.board.children
    requires Credits(h.sys, ChangeBoard(0, writer, []), id)
    requires h.sys.board.children[id].lastBoardWrite <= now && OutputOf(h.seen, id) == 0
    ensures var w := Event.Board(ChangeBoard(now, writer, []), authors); Possible(h, w) && h' == Happen(h, w)
    ensures id in h'.sys.board.children && !Settled(h'.sys.board, id) && ActiveAt(h', id) == now
  {
    hide OnlyChild, Authorized;
    h' := Happen(h, Event.Board(ChangeBoard(now, writer, []), authors));
    assert !AnyAuthorized(WriterNoted(h.sys.board, now, ResolveWriter(h.sys.board, writer), writer.role), [], ResolveWriter(h.sys.board, writer));
  }

  // Taken for active, the child is warned about ten seconds later again.
  lemma {:induction false} RepeatedWarning(h: Hub, id: nat, stamp: int) returns (b: Event, c: Event, rest: seq<Event>)
    requires id in h.sys.board.children && !Settled(h.sys.board, id) && ActiveAt(h, id) == stamp
    ensures rest == [b] + ([c] + []) && Valid(h, rest) && SilentRun(h, rest, id) && Notices(h, rest, id, Warns) == 1
    ensures IsCheck(b) && b.step.cfg.idleThreshold == 10 && IsCheck(c) && c.step.cfg.idleThreshold == 10
  {
    hide Possible, Happen, Settled, Noticed;
    b := CheckAt(h, stamp + SECOND, 10);
    var h1 := AfterCheck(h, id, stamp + SECOND, 10);
    c := CheckAt(h1, stamp + 11 * SECOND, 10);
    var h2 := AfterCheck(h1, id, stamp + 11 * SECOND, 10);
    assert ActiveAt(h1, id) == stamp && Notices(h2, [], id, Warns) == 0;
    FirstEvent(h1, c, [], id);
    FirstEvent(h, b, [c] + [], id);
    rest := [b] + ([c] + []);
  }
}
