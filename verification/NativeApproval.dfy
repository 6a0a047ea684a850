/**
  The approval prompt that a session shows, as internal/hub/approval_native.go
  tracks it: detected on screen, announced, cleared after repeated misses,
  consumed by an answer.

  A signature is the prompt's hash and never empty; "" stands for no prompt.
  Times are nanoseconds since Go's zero time, which is 0.
 */
module NativeApproval {
  import opened Options

  const CLEAR_MISS_LIMIT: nat := 3
  const CONSUMED_TTL: int := 10_000_000_000
  const RESIZE_DEBOUNCE: int := 200_000_000

  datatype Approval = Approval(sig: string, clearMisses: nat, consumed: string, consumedAt: int, debounceUntil: int)

  const NoApproval := Approval("", 0, "", 0, 0)

  datatype Message = Detected(sig: string) | Cleared(sig: string)

  datatype Event =
    | Detection(now: int, screen: Option<string>)
    | Consume(now: int, sig: string)
    | ResetMisses
    | ResetHistory
    | Resize(now: int)
    | Reattach

  predicate Wellformed(e: Event) {
    match e
    case Detection(now, screen) => now >= 0 && screen != Some("")
    case Consume(now, _) => now >= 0
    case Resize(now) => now >= 0
    case _ => true
  }

  // What an event came to.
  datatype Entry =
    | Announced(sig: string, at: int)
    | SeenAgain(sig: string)
    | Suppressed(sig: string, at: int)
    | Missed
    | MissedOut(sig: string)
    | AnsweredActive(sig: string, at: int)
    | AnsweredOther(sig: string, at: int)
    | MissesReset
    | HistoryReset
    | Reattached
    | Ignored

  predicate RecentlyConsumed(a: Approval, sig: string, now: int) {
    a.consumed == sig && now - a.consumedAt < CONSUMED_TTL
  }

  function Next(a: Approval, e: Event): (Approval, Entry) {
    match e
    case Detection(now, None) =>
      if now < a.debounceUntil || a.sig == "" then (a, Ignored)
      else if a.clearMisses + 1 >= CLEAR_MISS_LIMIT then (a.(sig := "", clearMisses := 0), MissedOut(a.sig))
      else (a.(clearMisses := a.clearMisses + 1), Missed)
    case Detection(now, Some(sig)) =>
      if now < a.debounceUntil then (a, Ignored)
      else if RecentlyConsumed(a, sig, now) then (a, Suppressed(sig, now))
      else (a.(sig := sig, clearMisses := 0), if a.sig == sig then SeenAgain(sig) else Announced(sig, now))
    case Consume(now, sig) =>
      if sig == "" then (a, Ignored)
      else if a.sig == sig then (a.(sig := "", clearMisses := 0, consumed := sig, consumedAt := now), AnsweredActive(sig, now))
      else (a.(consumed := sig, consumedAt := now), AnsweredOther(sig, now))
    case ResetMisses => (a.(clearMisses := 0), MissesReset)
    case ResetHistory => (a.(sig := "", clearMisses := 0, consumed := "", consumedAt := 0), HistoryReset)
    case Resize(now) => (a.(debounceUntil := now + RESIZE_DEBOUNCE), Ignored)
    // A wrapper that reattaches gets a new session object, without any of this.
    case Reattach => (NoApproval, Reattached)
  }

  function MessageOf(entry: Entry): Option<Message> {
    match entry
    case Announced(sig, _) => Some(Detected(sig))
    case MissedOut(sig) => Some(Cleared(sig))
    case AnsweredActive(sig, _) => Some(Cleared(sig))
    case _ => None
  }

  // --- the session's fields ------------------------------------------------------------

  class SessionApproval {
    var nativeApprovalSig: string
    var clearMisses: nat
    var consumed: string
    var consumedAt: int
    var resizeDebounceUntil: int

    ghost function State(): Approval reads this {
      Approval(nativeApprovalSig, clearMisses, consumed, consumedAt, resizeDebounceUntil)
    }

    constructor ()
      ensures State() == NoApproval
    {
      nativeApprovalSig, clearMisses, consumed, consumedAt, resizeDebounceUntil := "", 0, "", 0, 0;
    }

    method HandleNativeApprovalDetection(now: int, approval: Option<string>) returns (msg: Option<Message>)
      modifies this`nativeApprovalSig, this`clearMisses
      ensures var (a, entry) := Next(old(State()), Detection(now, approval)); State() == a && msg == MessageOf(entry)
      ensures now < resizeDebounceUntil ==> State() == old(State()) && msg.None?
      // A prompt is announced exactly when it is not the active one and was not
      // answered less than ten seconds ago, ...
      ensures forall sig :: msg == Some(Detected(sig)) <==>
                && now >= resizeDebounceUntil && approval == Some(sig) && sig != old(nativeApprovalSig)
                && !(consumed == sig && now < consumedAt + 10_000_000_000)
      // ... and the active one cleared exactly when it is missed for the third time.
      ensures forall sig :: msg == Some(Cleared(sig)) <==>
                && now >= resizeDebounceUntil && approval.None? && sig == old(nativeApprovalSig) != "" && old(clearMisses) >= 2
      ensures nativeApprovalSig == match msg
                                   case Some(Detected(sig)) => sig
                                   case Some(Cleared(_)) => ""
                                   case None => old(nativeApprovalSig)
      ensures now >= resizeDebounceUntil && msg.None? ==>
                clearMisses == match approval
                               case None => if nativeApprovalSig == "" then old(clearMisses) else old(clearMisses) + 1
                               case Some(sig) =>
                                 if consumed == sig && now < consumedAt + 10_000_000_000 then old(clearMisses) else 0
      ensures msg.Some? ==> clearMisses == 0
    {
      msg := None;
      if now < resizeDebounceUntil {
        return;
      }
      if approval.None? {
        if nativeApprovalSig != "" {
          clearMisses := clearMisses + 1;
          if clearMisses >= CLEAR_MISS_LIMIT {
            msg := Some(Cleared(nativeApprovalSig));
            nativeApprovalSig := "";
            clearMisses := 0;
          }
        }
        return;
      }
      if consumed == approval.value && now - consumedAt < CONSUMED_TTL {
        return;
      }
      clearMisses := 0;
      if nativeApprovalSig != approval.value {
        nativeApprovalSig := approval.value;
        msg := Some(Detected(approval.value));
      }
    }

    method MarkNativeApprovalConsumed(now: int, sig: string) returns (msg: Option<Message>)
      modifies this`nativeApprovalSig, this`clearMisses, this`consumed, this`consumedAt
      ensures var (a, entry) := Next(old(State()), Consume(now, sig)); State() == a && msg == MessageOf(entry)
      ensures sig != "" ==> nativeApprovalSig != sig && RecentlyConsumed(State(), sig, now)
      ensures msg == (if old(nativeApprovalSig) == sig != "" then Some(Cleared(sig)) else None)
    {
      msg := None;
      if sig == "" {
        return;
      }
      consumed := sig;
      consumedAt := now;
      if nativeApprovalSig == sig {
        nativeApprovalSig := "";
        clearMisses := 0;
        msg := Some(Cleared(sig));
      }
    }

    method ResetNativeApprovalClearMisses()
      modifies this`clearMisses
      ensures State() == Next(old(State()), ResetMisses).0
    {
      clearMisses := 0;
    }

    method HandleHistoryReset()
      modifies this`nativeApprovalSig, this`clearMisses, this`consumed, this`consumedAt
      ensures State() == Next(old(State()), ResetHistory).0
    {
      nativeApprovalSig, clearMisses, consumed, consumedAt := "", 0, "", 0;
    }

    method HandleResize(now: int)
      modifies this`resizeDebounceUntil
      ensures State() == Next(old(State()), Resize(now)).0 && resizeDebounceUntil == now + 200_000_000
    {
      resizeDebounceUntil := now + RESIZE_DEBOUNCE;
    }
  }

  // --- runs -------------------------------------------------------------------------------

  ghost function After(a: Approval, events: seq<Event>): Approval {
    if events == [] then a else Next(After(a, events[..|events| - 1]), events[|events| - 1]).0
  }

  // What every event of a run came to.
  ghost function Log(a: Approval, events: seq<Event>): (log: seq<Entry>)
    ensures |log| == |events|
  {
    if events == [] then []
    else Log(a, events[..|events| - 1]) + [Next(After(a, events[..|events| - 1]), events[|events| - 1]).1]
  }

  // --- the same state, read off the log -----------------------------------------------

  // The prompt on display: announced, and since then neither answered, missed out,
  // reset nor lost with the session object.
  ghost function Active(log: seq<Entry>): string {
    if log == [] then ""
    else
      match log[|log| - 1]
      case Announced(sig, _) => sig
      case MissedOut(_) | AnsweredActive(_, _) | HistoryReset | Reattached => ""
      case _ => Active(log[..|log| - 1])
  }

  // Misses since the prompt was last seen or anything cleared it or its misses.
  ghost function MissesSince(log: seq<Entry>): nat {
    if log == [] then 0
    else
      match log[|log| - 1]
      case Missed => MissesSince(log[..|log| - 1]) + 1
      case Suppressed(_, _) | AnsweredOther(_, _) | Ignored => MissesSince(log[..|log| - 1])
      case _ => 0
  }

  // The last answer since the last reset or reattachment.
  ghost function LastAnswer(log: seq<Entry>): Option<(string, int)> {
    if log == [] then None
    else
      match log[|log| - 1]
      case AnsweredActive(sig, at) => Some((sig, at))
      case AnsweredOther(sig, at) => Some((sig, at))
      case HistoryReset | Reattached => None
      case _ => LastAnswer(log[..|log| - 1])
  }

  // The end of the last resize's 200 ms, unless the session object came later.
  ghost function QuietUntil(events: seq<Event>): int {
    if events == [] then 0
    else
      match events[|events| - 1]
      case Resize(now) => now + 200_000_000
      case Reattach => 0
      case _ => QuietUntil(events[..|events| - 1])
  }

  ghost predicate Reflects(a: Approval, log: seq<Entry>, events: seq<Event>) {
    && a.sig == Active(log) && a.clearMisses == MissesSince(log) && a.debounceUntil == QuietUntil(events)
    && a.clearMisses < CLEAR_MISS_LIMIT && (a.sig == "" ==> a.clearMisses == 0)
    && match LastAnswer(log)
       case Some(answer) => answer.0 != "" && (a.consumed, a.consumedAt) == answer
       case None => a.consumed == ""
  }

  // The prompt has been answered less than ten seconds ago.
  ghost predicate AnsweredLately(before: seq<Entry>, sig: string, now: int) {
    match LastAnswer(before)
    case Some(answer) => answer.0 == sig && now < answer.1 + 10_000_000_000
    case None => false
  }

  // What an event has to come to, given what happened before it.
  ghost predicate Due(before: seq<Entry>, earlier: seq<Event>, e: Event, entry: Entry) {
    match e
    case Detection(now, screen) => DetectionDue(before, now < QuietUntil(earlier), now, screen, entry)
    case Consume(now, sig) =>
      && (entry == Ignored <==> sig == "")
      && (entry == AnsweredActive(sig, now) <==> sig == Active(before) && sig != "")
      && (entry == AnsweredOther(sig, now) <==> sig != Active(before) && sig != "")
    case ResetMisses => entry == MissesReset
    case ResetHistory => entry == HistoryReset
    case Resize(_) => entry == Ignored
    case Reattach => entry == Reattached
  }

  ghost predicate DetectionDue(before: seq<Entry>, debounced: bool, now: int, screen: Option<string>, entry: Entry) {
    // Nothing comes of it within the debounce, or with nothing on screen and nothing active.
    && (entry == Ignored <==> debounced || (screen.None? && Active(before) == ""))
    && (entry == Missed <==> !debounced && screen.None? && Active(before) != "" && MissesSince(before) < 2)
    && (entry == MissedOut(Active(before)) <==> !debounced && screen.None? && Active(before) != "" && MissesSince(before) >= 2)
    && match screen
       case None => entry in {Ignored, Missed, MissedOut(Active(before))}
       case Some(sig) =>
         && entry in {Ignored, Suppressed(sig, now), SeenAgain(sig), Announced(sig, now)}
         && (entry == Suppressed(sig, now) <==> !debounced && AnsweredLately(before, sig, now))
         && (entry == SeenAgain(sig) <==> !debounced && !AnsweredLately(before, sig, now) && sig == Active(before))
         && (entry == Announced(sig, now) <==> !debounced && !AnsweredLately(before, sig, now) && sig != Active(before))
  }

  lemma {:induction false} StepIsDue(a: Approval, e: Event, before: seq<Entry>, earlier: seq<Event>)
    requires Reflects(a, before, earlier) && Wellformed(e)
    ensures Due(before, earlier, e, Next(a, e).1)
    ensures Reflects(Next(a, e).0, before + [Next(a, e).1], earlier + [e])
  {
    NextIsDue(a, e, before, earlier);
    NextReflects(a, e, before, earlier);
  }

  lemma {:induction false} NextIsDue(a: Approval, e: Event, before: seq<Entry>, earlier: seq<Event>)
    requires Reflects(a, before, earlier) && Wellformed(e)
    ensures Due(before, earlier, e, Next(a, e).1)
  {
  }

  lemma {:induction false} NextReflects(a: Approval, e: Event, before: seq<Entry>, earlier: seq<Event>)
    requires Reflects(a, before, earlier) && Wellformed(e)
    ensures Reflects(Next(a, e).0, before + [Next(a, e).1], earlier + [e])
  {
    hide Active, MissesSince, LastAnswer, QuietUntil;
    OneMoreEntry(before, Next(a, e).1);
    OneMoreEvent(earlier, e);
  }

  lemma {:induction false} OneMoreEvent(earlier: seq<Event>, e: Event)
    ensures QuietUntil(earlier + [e]) ==
            match e
            case Resize(now) => now + 200_000_000
            case Reattach => 0
            case _ => QuietUntil(earlier)
  {
    assert (earlier + [e])[..|earlier|] == earlier;
  }

  lemma {:induction false} OneMoreEntry(before: seq<Entry>, entry: Entry)
    ensures Active(before + [entry]) ==
            match entry
            case Announced(sig, _) => sig
            case MissedOut(_) | AnsweredActive(_, _) | HistoryReset | Reattached => ""
            case _ => Active(before)
    ensures MissesSince(before + [entry]) ==
            match entry
            case Missed => MissesSince(before) + 1
            case Suppressed(_, _) | AnsweredOther(_, _) | Ignored => MissesSince(before)
            case _ => 0
    ensures LastAnswer(before + [entry]) ==
            match entry
            case AnsweredActive(sig, at) => Some((sig, at))
            case AnsweredOther(sig, at) => Some((sig, at))
            case HistoryReset | Reattached => None
            case _ => LastAnswer(before)
  {
    assert (before + [entry])[..|before|] == before;
  }

  // In every run the session's fields say what the log of the run says, and
  // every event comes to what the log of the time before determines: a prompt
  // on screen is announced if and only if no resize is settling, it is not the
  // active one and it was not answered in the last ten seconds; it is cleared by
  // its answer, or by the third miss since it was last seen; a reattachment
  // starts all of this anew.
  lemma {:induction false} EveryEntryIsDue(events: seq<Event>, k: nat)
    requires forall e <- events :: Wellformed(e)
    requires k < |events|
    ensures Reflects(After(NoApproval, events), Log(NoApproval, events), events)
    ensures Due(Log(NoApproval, events)[..k], events[..k], events[k], Log(NoApproval, events)[k])
  {
    hide Reflects, Due;
    var n := |events| - 1;
    var log := Log(NoApproval, events[..n]);
    if n == 0 {
      assert Reflects(NoApproval, [], []) by { NothingYet(); }
      assert events[..0] == [] && log == [];
    } else {
      EveryEntryIsDue(events[..n], if k < n then k else 0);
    }
    assert events[n] in events;
    StepIsDue(After(NoApproval, events[..n]), events[n], log, events[..n]);
    assert events[..n] + [events[n]] == events;
    assert k < n ==> Log(NoApproval, events)[..k] == log[..k] && events[..n][..k] == events[..k];
    assert Log(NoApproval, events)[..n] == log;
  }

  lemma {:induction false} NothingYet()
    ensures Reflects(NoApproval, [], [])
  {
  }

  predicate Separates(entry: Entry, sig: string) {
    match entry
    case Announced(other, _) => other != sig
    case MissedOut(cleared) => cleared == sig
    case AnsweredActive(cleared, _) => cleared == sig
    case HistoryReset | Reattached => true
    case _ => false
  }

  // While nothing separates, an announced prompt stays the active one.
  lemma {:induction false} StaysActive(log: seq<Entry>, events: seq<Event>, i: nat, j: nat)
    requires i < j <= |log| == |events| && log[i].Announced?
    requires forall k | i < k < j :: Due(log[..k], events[..k], events[k], log[k]) && !Separates(log[k], log[i].sig)
    ensures Active(log[..j]) == log[i].sig
    decreases j
  {
    var before := log[..j];
    assert before[..j - 1] == log[..j - 1] && before[j - 1] == log[j - 1];
    if i < j - 1 {
      StaysActive(log, events, i, j - 1);
    }
  }

  // Two announcements of the same prompt have its clear, another prompt's
  // announcement, a reset or a reattachment between them.
  lemma {:induction false} AnnouncementsAreSeparated(events: seq<Event>, log: seq<Entry>, i: nat, j: nat)
    requires (forall e <- events :: Wellformed(e)) && log == Log(NoApproval, events)
    requires i < j < |log| && log[i].Announced? && log[j].Announced? && log[i].sig == log[j].sig
    ensures exists k :: i < k < j && Separates(log[k], log[i].sig)
  {
    hide Due, Separates;
    forall k | 0 <= k < |events|
      ensures Due(log[..k], events[..k], events[k], log[k])
    {
      EveryEntryIsDue(events, k);
    }
    if forall k | i < k < j :: !Separates(log[k], log[i].sig) {
      StaysActive(log, events, i, j);
      AnnouncedIsNew(log[..j], events[..j], events[j], log[j]);
      assert false;
    }
  }

  lemma {:induction false} AnnouncedIsNew(before: seq<Entry>, earlier: seq<Event>, e: Event, entry: Entry)
    requires Due(before, earlier, e, entry) && entry.Announced?
    ensures Active(before) != entry.sig
  {
  }

  predicate Forgets(entry: Entry) {
    entry.AnsweredActive? || entry.AnsweredOther? || entry.HistoryReset? || entry.Reattached?
  }

  // The prompt answered at log[i] is not announced before ten seconds are over,
  // whatever else is detected, unless another answer, a reset or a reattachment
  // comes first.
  lemma {:induction false} AnsweredStaysQuiet(events: seq<Event>, log: seq<Entry>, i: nat, j: nat)
    requires (forall e <- events :: Wellformed(e)) && log == Log(NoApproval, events)
    requires i < j < |log| && (log[i].AnsweredActive? || log[i].AnsweredOther?)
    requires log[j].Announced? && log[j].sig == log[i].sig
    requires forall k | i < k < j :: !Forgets(log[k])
    ensures log[j].at - log[i].at >= CONSUMED_TTL
  {
    EveryEntryIsDue(events, j);
    AnswerIsKept(log, i, j);
  }

  lemma {:induction false} AnswerIsKept(log: seq<Entry>, i: nat, j: nat)
    requires i < j <= |log| && (log[i].AnsweredActive? || log[i].AnsweredOther?)
    requires forall k | i < k < j :: !Forgets(log[k])
    ensures LastAnswer(log[..j]) == Some((log[i].sig, log[i].at))
    decreases j
  {
    var before := log[..j];
    assert before[..j - 1] == log[..j - 1] && before[j - 1] == log[j - 1];
    if i < j - 1 {
      AnswerIsKept(log, i, j - 1);
    }
  }

  // --- what the small steps are for ------------------------------------------------------------

  // After a history reset any prompt on screen is announced, the one just
  // answered included.
  lemma {:induction false} ResetLetsEveryPromptThrough(a: Approval, answered: string, at: int, now: int, sig: string)
    requires sig != "" && now >= a.debounceUntil
    ensures var reset := Next(Next(a, Consume(at, answered)).0, ResetHistory).0;
            Next(reset, Detection(now, Some(sig))) == (reset.(sig := sig), Announced(sig, now))
  {
  }

  // After a reattachment any prompt on screen is announced at once: one just
  // answered, and one announced before and never cleared, debounced or not.
  lemma {:induction false} ReattachmentAnnouncesAgain(a: Approval, now: int, sig: string)
    requires sig != "" && now >= 0
    ensures Next(Next(a, Reattach).0, Detection(now, Some(sig))) == (NoApproval.(sig := sig), Announced(sig, now))
  {
  }

  // A run in which the session's prompt is answered and announced again three
  // seconds later.
  lemma {:induction false} AnsweredPromptComesBack(sig: string, now: int) returns (events: seq<Event>)
    requires sig != "" && now >= 0
    ensures forall e <- events :: Wellformed(e)
    ensures Log(NoApproval, events)
         == [Announced(sig, now), AnsweredActive(sig, now), Reattached, Announced(sig, now + 3_000_000_000)]
  {
    var d, c, later := Detection(now, Some(sig)), Consume(now, sig), Detection(now + 3_000_000_000, Some(sig));
    events := [d, c, Reattach, later];
    assert events[..3] == [d, c, Reattach] && [d, c, Reattach][..2] == [d, c] && [d, c][..1] == [d] && [d][..0] == [];
    assert Log(NoApproval, [d]) == [Announced(sig, now)];
    assert Log(NoApproval, [d, c]) == [Announced(sig, now), AnsweredActive(sig, now)];
    assert Log(NoApproval, [d, c, Reattach]) == [Announced(sig, now), AnsweredActive(sig, now), Reattached];
  }

  // After its misses are reset it takes three more to clear a prompt.
  lemma {:induction false} ResetMissesStartOver(a: Approval, t1: int, t2: int, t3: int)
    requires a.sig != "" && a.debounceUntil <= t1 && a.debounceUntil <= t2 && a.debounceUntil <= t3
    ensures var a0 := Next(a, ResetMisses).0;
            var (a1, e1) := Next(a0, Detection(t1, None));
            var (a2, e2) := Next(a1, Detection(t2, None));
            e1 == e2 == Missed && Next(a2, Detection(t3, None)).1 == MissedOut(a.sig)
  {
  }

  // For 200 ms after a resize nothing on screen counts; afterwards everything
  // counts as it would have without the resize.
  lemma {:induction false} ResizeOnlyDelays(a: Approval, now: int, t: int, screen: Option<string>)
    requires a.debounceUntil <= now + RESIZE_DEBOUNCE
    ensures var resized, e := Next(a, Resize(now)).0, Detection(t, screen);
            if t < now + RESIZE_DEBOUNCE then Next(resized, e) == (resized, Ignored)
            else Next(resized, e).1 == Next(a, e).1 && Next(resized, e).0.(debounceUntil := a.debounceUntil) == Next(a, e).0
  {
  }
}
