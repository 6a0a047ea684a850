/**
  An orchestration board of internal/hub/orchestration.go: the children a
  conductor has spawned, their timers, their DONE marks and the retry of those
  that time out.

  Times are nanoseconds, and the zero time is 0. A child's provider stands for
  its restart data: it is "" until setChildRestartData has run.
 */
module Orchestration {
  import opened Options

  const SECOND: int := 1_000_000_000

  datatype Config = Config(childTimeout: int, idleThreshold: int, timeoutRespawn: bool, maxTimeoutRespawns: int)

  datatype Child = Child(parent: nat, role: string, spawnedAt: int, lastBoardWrite: int, done: bool, provider: string, timeoutRetries: int)

  datatype Board = Board(children: map<nat, Child>, sessions: map<nat, string>, done: set<nat>, timedOut: set<nat>, idleWarned: set<nat>)

  // --- the timers -------------------------------------------------------------------

  datatype Verdict = Nothing | TimesOut | Warns | Rearms

  // Silent for longer than t: nothing written, and no PTY output at all or none
  // since. (outputs has 0 for a session without any output.)
  predicate Silent(c: Child, output: int, now: int, t: int) {
    now - c.lastBoardWrite > t && (output != 0 ==> now - output > t)
  }

  function OutputOf(outputs: map<nat, int>, id: nat): int {
    if id in outputs then outputs[id] else 0
  }

  predicate Finished(b: Board, id: nat)
    requires id in b.children
  {
    b.children[id].done || id in b.done
  }

  function TimerVerdict(b: Board, id: nat, now: int, outputs: map<nat, int>, cfg: Config): Verdict
    requires id in b.children
  {
    var c := b.children[id];
    if Finished(b, id) || id in b.timedOut then Nothing
    else if cfg.childTimeout > 0 && now - c.spawnedAt > cfg.childTimeout * SECOND then TimesOut
    else if cfg.idleThreshold <= 0 then Nothing
    else if !Silent(c, OutputOf(outputs, id), now, cfg.idleThreshold * SECOND) then Rearms
    else if id in b.idleWarned then Nothing
    else Warns
  }

  function WithVerdict(b: Board, v: Verdict, now: int, outputs: map<nat, int>, cfg: Config): set<nat> {
    set id | id in b.children && TimerVerdict(b, id, now, outputs, cfg) == v
  }

  function CheckTimers(b: Board, now: int, outputs: map<nat, int>, cfg: Config): Board {
    b.(timedOut := b.timedOut + WithVerdict(b, TimesOut, now, outputs, cfg),
       idleWarned := b.idleWarned - WithVerdict(b, Rearms, now, outputs, cfg) + WithVerdict(b, Warns, now, outputs, cfg))
  }

  // --- completion ---------------------------------------------------------------------

  datatype DoneEvent = DoneEvent(role: string, session: nat)

  datatype Writer = Writer(role: string, session: nat)

  datatype FileUpdate = FileUpdate(id: nat, dones: seq<DoneEvent>)

  // The one child of that role.
  ghost predicate OnlyChild(b: Board, role: string, id: nat) {
    && role != "" && id in b.children && b.children[id].role == role
    && (forall other | other in b.children && b.children[other].role == role :: other == id)
  }

  ghost function UniqueChildSessionForRole(b: Board, role: string): (found: nat)
    requires 0 !in b.children
    ensures found == 0 <==> forall id :: !OnlyChild(b, role, id)
  {
    if id: nat :| OnlyChild(b, role, id) then id else 0
  }

  ghost function ResolveWriter(b: Board, writer: Writer): nat
    requires 0 !in b.children
  {
    if writer.session != 0 && writer.session in b.sessions then writer.session
    else UniqueChildSessionForRole(b, writer.role)
  }

  // A DONE mark in the shared file counts only for the child that wrote it.
  ghost predicate Authorized(b: Board, ev: DoneEvent, writerId: nat) {
    && writerId != 0 && writerId in b.children
    && (ev.session == writerId || (ev.session == 0 && OnlyChild(b, ev.role, writerId)))
  }

  ghost predicate AnyAuthorized(b: Board, events: seq<DoneEvent>, writerId: nat) {
    exists i :: 0 <= i < |events| && Authorized(b, events[i], writerId)
  }

  // Whoever wrote has been active; an unknown writer vouches for its role.
  function WriterNoted(b: Board, now: int, writerId: nat, role: string): Board {
    b.(children :=
         map id | id in b.children ::
           if id == writerId || (writerId == 0 && b.children[id].role == role) then b.children[id].(lastBoardWrite := now)
           else b.children[id])
  }

  function MarkedDone(b: Board, now: int, id: nat): Board
    requires id in b.children
  {
    b.(children := b.children[id := b.children[id].(done := true, lastBoardWrite := now)], done := b.done + {id})
  }

  ghost function DonesMarked(b: Board, now: int, events: seq<DoneEvent>, writerId: nat): Board {
    if AnyAuthorized(b, events, writerId) then MarkedDone(b, now, writerId) else b
  }

  ghost function BoardChanged(b: Board, now: int, writer: Writer, events: seq<DoneEvent>): Board
    requires 0 !in b.children
  {
    var w := ResolveWriter(b, writer);
    DonesMarked(WriterNoted(b, now, w, writer.role), now, events, w)
  }

  // In its own file a child need not name itself.
  predicate ClaimsDone(u: FileUpdate) {
    exists k :: 0 <= k < |u.dones| && u.dones[k].session in {0, u.id}
  }

  function UpdateSeen(b: Board, now: int, u: FileUpdate): Board {
    if u.id !in b.children then b
    else if ClaimsDone(u) then MarkedDone(b, now, u.id)
    else b.(children := b.children[u.id := b.children[u.id].(lastBoardWrite := now)])
  }

  function FilesScanned(b: Board, now: int, updates: seq<FileUpdate>): Board {
    if updates == [] then b
    else UpdateSeen(FilesScanned(b, now, updates[..|updates| - 1]), now, updates[|updates| - 1])
  }

  function SessionEnded(b: Board, id: nat): Board {
    if id !in b.children then b
    else b.(children := b.children[id := b.children[id].(done := true)], done := b.done + {id})
  }

  // --- spawning and retrying ------------------------------------------------------------

  // A session takes part in the board without being a child: the conductor.
  function SessionRegistered(b: Board, id: nat, role: string): Board {
    b.(sessions := b.sessions[id := role])
  }

  function Registered(b: Board, id: nat, parent: nat, role: string, now: int): Board {
    b.(children := b.children[id := Child(parent, role, now, now, false, "", 0)], sessions := b.sessions[id := role])
  }

  function RestartDataSet(b: Board, id: nat, provider: string, retries: int): Board {
    if id !in b.children then b
    else b.(children := b.children[id := b.children[id].(provider := provider, timeoutRetries := retries)])
  }

  predicate MayRespawn(b: Board, id: nat, max: int) {
    max > 0 && id in b.children && b.children[id].timeoutRetries < max && b.children[id].provider != ""
  }

  function Latched(b: Board, id: nat, max: int): Board
    requires id in b.children
  {
    b.(children := b.children[id := b.children[id].(timeoutRetries := max)])
  }

  // --- the board object -------------------------------------------------------------------

  datatype Notice = Timeout(parent: nat, child: nat, role: string) | Idle(parent: nat, child: nat, role: string)

  function NoticeDue(b: Board, id: nat, now: int, outputs: map<nat, int>, cfg: Config): Option<Notice>
    requires id in b.children
  {
    match TimerVerdict(b, id, now, outputs, cfg)
    case TimesOut => Some(Timeout(b.children[id].parent, id, b.children[id].role))
    case Warns => Some(Idle(b.children[id].parent, id, b.children[id].role))
    case _ => None
  }

  // Every child of `seen` gets the notice it is due, and gets it once.
  ghost predicate RightNotices(b: Board, notices: seq<Notice>, seen: set<nat>, now: int, outputs: map<nat, int>, cfg: Config) {
    && (forall i, j | 0 <= i < j < |notices| :: notices[i].child != notices[j].child)
    && (forall i | 0 <= i < |notices| ::
          && notices[i].child in seen && notices[i].child in b.children
          && NoticeDue(b, notices[i].child, now, outputs, cfg) == Some(notices[i]))
    && (forall id | id in seen && id in b.children && NoticeDue(b, id, now, outputs, cfg).Some? ::
          exists i :: 0 <= i < |notices| && notices[i].child == id)
  }

  lemma {:induction false} OneMoreNotice(b: Board, notices: seq<Notice>, seen: set<nat>, id: nat, now: int, outputs: map<nat, int>, cfg: Config)
    requires RightNotices(b, notices, seen, now, outputs, cfg) && id in b.children && id !in seen
    ensures match NoticeDue(b, id, now, outputs, cfg)
            case Some(notice) => RightNotices(b, notices + [notice], seen + {id}, now, outputs, cfg)
            case None => RightNotices(b, notices, seen + {id}, now, outputs, cfg)
  {
    hide TimerVerdict;
    if NoticeDue(b, id, now, outputs, cfg).Some? {
      var more := notices + [NoticeDue(b, id, now, outputs, cfg).value];
      assert more[|notices|].child == id;
      forall k | k in seen && k in b.children && NoticeDue(b, k, now, outputs, cfg).Some?
        ensures exists i :: 0 <= i < |more| && more[i].child == k
      {
        var i :| 0 <= i < |notices| && notices[i].child == k;
        assert more[i].child == k;
      }
    }
  }

  // The board once the children in `seen` have had their turn.
  ghost function CheckSome(b: Board, seen: set<nat>, now: int, outputs: map<nat, int>, cfg: Config): Board {
    b.(timedOut := b.timedOut + (seen * WithVerdict(b, TimesOut, now, outputs, cfg)),
       idleWarned := b.idleWarned - (seen * WithVerdict(b, Rearms, now, outputs, cfg)) + (seen * WithVerdict(b, Warns, now, outputs, cfg)))
  }

  lemma {:induction false} NoneAndAllChecked(b: Board, now: int, outputs: map<nat, int>, cfg: Config)
    ensures CheckSome(b, {}, now, outputs, cfg) == b && RightNotices(b, [], {}, now, outputs, cfg)
    ensures CheckSome(b, b.children.Keys, now, outputs, cfg) == CheckTimers(b, now, outputs, cfg)
  {
    assert forall v :: b.children.Keys * WithVerdict(b, v, now, outputs, cfg) == WithVerdict(b, v, now, outputs, cfg);
  }

  lemma {:induction false} OneMoreChecked(b: Board, seen: set<nat>, id: nat, now: int, outputs: map<nat, int>, cfg: Config,
                                          timedOut: set<nat>, idleWarned: set<nat>)
    requires id in b.children && id !in seen
    requires var some, v := CheckSome(b, seen, now, outputs, cfg), TimerVerdict(b, id, now, outputs, cfg);
             && timedOut == (if v == TimesOut then some.timedOut + {id} else some.timedOut)
             && idleWarned == match v
                              case Rearms => some.idleWarned - {id}
                              case Warns => some.idleWarned + {id}
                              case _ => some.idleWarned
    ensures b.(timedOut := timedOut, idleWarned := idleWarned) == CheckSome(b, seen + {id}, now, outputs, cfg)
  {
    hide TimerVerdict;
    var more := CheckSome(b, seen + {id}, now, outputs, cfg);
    assert timedOut == more.timedOut;
    assert idleWarned == more.idleWarned;
  }

  // A child's verdict does not depend on whose turn it was before.
  lemma {:induction false} SameVerdict(b: Board, seen: set<nat>, id: nat, now: int, outputs: map<nat, int>, cfg: Config)
    requires id in b.children && id !in seen
    ensures var some := CheckSome(b, seen, now, outputs, cfg);
            && TimerVerdict(some, id, now, outputs, cfg) == TimerVerdict(b, id, now, outputs, cfg)
            && NoticeDue(some, id, now, outputs, cfg) == NoticeDue(b, id, now, outputs, cfg)
  {
  }

  // --- what a check comes to ------------------------------------------------------------

  // A child that is still waited for, ...
  predicate Live(b: Board, id: nat) {
    id in b.children && !b.children[id].done && id !in b.done && id !in b.timedOut
  }

  // ... that has run for longer than it may, ...
  predicate Late(b: Board, id: nat, now: int, cfg: Config) {
    Live(b, id) && cfg.childTimeout > 0 && now > b.children[id].spawnedAt + cfg.childTimeout * 1_000_000_000
  }

  // ... or that has neither written nor put anything out for longer than it may.
  predicate Quiet(b: Board, id: nat, now: int, outputs: map<nat, int>, cfg: Config) {
    && Live(b, id)
    && now > b.children[id].lastBoardWrite + cfg.idleThreshold * 1_000_000_000
    && (id in outputs && outputs[id] != 0 ==> now > outputs[id] + cfg.idleThreshold * 1_000_000_000)
  }

  // The late children have timed out, and of those that are not late exactly
  // the quiet ones are warned of.
  ghost predicate TimersTell(b: Board, b': Board, now: int, outputs: map<nat, int>, cfg: Config) {
    && b'.children == b.children && b'.sessions == b.sessions && b'.done == b.done
    && (forall id :: id in b'.timedOut <==> id in b.timedOut || Late(b, id, now, cfg))
    && (forall id :: id in b'.idleWarned <==>
          if Live(b, id) && !Late(b, id, now, cfg) && cfg.idleThreshold > 0 then Quiet(b, id, now, outputs, cfg)
          else id in b.idleWarned)
  }

  // One notice for each child that has just timed out or been warned of, of
  // that kind, with its own parent and role.
  ghost predicate NoticesTell(b: Board, b': Board, notices: seq<Notice>) {
    && (forall i, j | 0 <= i < j < |notices| :: notices[i].child != notices[j].child)
    && (forall i | 0 <= i < |notices| ::
          && notices[i].child in b.children
          && notices[i].parent == b.children[notices[i].child].parent
          && notices[i].role == b.children[notices[i].child].role
          && (notices[i].Timeout? <==> notices[i].child in b'.timedOut - b.timedOut)
          && (notices[i].Idle? <==> notices[i].child in b'.idleWarned - b.idleWarned))
    && (forall id | id in (b'.timedOut - b.timedOut) + (b'.idleWarned - b.idleWarned) ::
          exists i :: 0 <= i < |notices| && notices[i].child == id)
  }

  lemma {:induction false} CheckTellsTheTimes(b: Board, notices: seq<Notice>, now: int, outputs: map<nat, int>, cfg: Config)
    requires RightNotices(b, notices, b.children.Keys, now, outputs, cfg)
    ensures var b' := CheckTimers(b, now, outputs, cfg);
            TimersTell(b, b', now, outputs, cfg) && NoticesTell(b, b', notices)
  {
    var b' := CheckTimers(b, now, outputs, cfg);
    forall id
      ensures id in b'.timedOut <==> id in b.timedOut || Late(b, id, now, cfg)
      ensures id in b'.idleWarned <==>
              if Live(b, id) && !Late(b, id, now, cfg) && cfg.idleThreshold > 0 then Quiet(b, id, now, outputs, cfg)
              else id in b.idleWarned
      ensures id in b'.timedOut - b.timedOut <==> id in b.children && TimerVerdict(b, id, now, outputs, cfg) == TimesOut
      ensures id in b'.idleWarned - b.idleWarned <==> id in b.children && TimerVerdict(b, id, now, outputs, cfg) == Warns
    {
    }
  }

  class OrchestrationBoard {
    var children: map<nat, Child>
    var sessions: map<nat, string>
    var done: set<nat>
    var timedOut: set<nat>
    var idleWarned: set<nat>

    ghost function State(): Board reads this {
      Board(children, sessions, done, timedOut, idleWarned)
    }

    constructor ()
      ensures State() == Board(map[], map[], {}, {}, {})
    {
      children, sessions, done, timedOut, idleWarned := map[], map[], {}, {}, {};
    }

    method RegisterBoardSession(id: nat, role: string)
      modifies this`sessions
      ensures State() == SessionRegistered(old(State()), id, role)
      ensures forall writer: Writer | 0 !in children && id != 0 && writer.session == id :: ResolveWriter(State(), writer) == id
    {
      sessions := sessions[id := role];
    }

    method RegisterBoardChild(id: nat, parent: nat, role: string, now: int)
      modifies this
      ensures State() == Registered(old(State()), id, parent, role, now)
    {
      sessions := sessions[id := role];
      children := children[id := Child(parent, role, now, now, false, "", 0)];
    }

    method SetChildRestartData(id: nat, provider: string, retries: int)
      modifies this`children
      ensures State() == RestartDataSet(old(State()), id, provider, retries)
    {
      if id in children {
        children := children[id := children[id].(provider := provider, timeoutRetries := retries)];
      }
    }

    // One child's turn.
    method CheckChild(id: nat, now: int, outputs: map<nat, int>, cfg: Config) returns (notice: Option<Notice>)
      requires id in children
      modifies this`timedOut, this`idleWarned
      ensures notice == NoticeDue(old(State()), id, now, outputs, cfg)
      ensures var v := TimerVerdict(old(State()), id, now, outputs, cfg);
              && timedOut == (if v == TimesOut then old(timedOut) + {id} else old(timedOut))
              && idleWarned == match v
                               case Rearms => old(idleWarned) - {id}
                               case Warns => old(idleWarned) + {id}
                               case _ => old(idleWarned)
    {
      var child := children[id];
      if child.done || id in done || id in timedOut {
        return None;
      }
      if cfg.childTimeout > 0 && now - child.spawnedAt > cfg.childTimeout * SECOND {
        timedOut := timedOut + {id};
        return Some(Timeout(child.parent, id, child.role));
      }
      if cfg.idleThreshold > 0 {
        var threshold := cfg.idleThreshold * SECOND;
        var boardIdle := now - child.lastBoardWrite > threshold;
        var ptyIdle := true;
        if id in outputs && outputs[id] != 0 {
          ptyIdle := now - outputs[id] > threshold;
        }
        if boardIdle && ptyIdle {
          if id !in idleWarned {
            idleWarned := idleWarned + {id};
            return Some(Idle(child.parent, id, child.role));
          }
        } else if id in idleWarned {
          idleWarned := idleWarned - {id};
        }
      }
      return None;
    }

    method CheckOrchestrationChildTimers(now: int, outputs: map<nat, int>, cfg: Config) returns (notices: seq<Notice>)
      modifies this`timedOut, this`idleWarned
      ensures State() == CheckTimers(old(State()), now, outputs, cfg)
      ensures RightNotices(old(State()), notices, children.Keys, now, outputs, cfg)
      ensures TimersTell(old(State()), State(), now, outputs, cfg) && NoticesTell(old(State()), State(), notices)
    {
      hide RightNotices, CheckSome, TimersTell, NoticesTell;
      notices := [];
      ghost var b := State();
      ghost var seen: set<nat> := {};
      var todo := children.Keys;
      NoneAndAllChecked(b, now, outputs, cfg);
      while todo != {}
        invariant children == b.children && sessions == b.sessions && done == b.done
        invariant todo !! seen && todo + seen == b.children.Keys
        invariant State() == CheckSome(b, seen, now, outputs, cfg)
        invariant RightNotices(b, notices, seen, now, outputs, cfg)
        decreases todo
      {
        var id :| id in todo;
        SameVerdict(b, seen, id, now, outputs, cfg);
        var notice := CheckChild(id, now, outputs, cfg);
        OneMoreChecked(b, seen, id, now, outputs, cfg, timedOut, idleWarned);
        OneMoreNotice(b, notices, seen, id, now, outputs, cfg);
        todo, seen := todo - {id}, seen + {id};
        if notice.Some? {
          notices := notices + [notice.value];
        }
      }
      assert seen == b.children.Keys;
      CheckTellsTheTimes(b, notices, now, outputs, cfg);
    }

    // The decision is latched, so that the same retry is not started twice.
    method RespawnTimedOutChild(id: nat, maxRetries: int) returns (child: Option<Child>)
      modifies this`children
      ensures child.Some? <==> MayRespawn(old(State()), id, maxRetries)
      ensures child.Some? <==>
                && 0 < maxRetries && id in old(children)
                && old(children)[id].timeoutRetries < maxRetries && old(children)[id].provider != ""
      ensures child.Some? ==> child.value == old(children)[id] && State() == Latched(old(State()), id, maxRetries)
      ensures child.Some? ==> children == old(children)[id := old(children)[id].(timeoutRetries := maxRetries)]
      ensures child.None? ==> State() == old(State())
      ensures !MayRespawn(State(), id, maxRetries)
    {
      if maxRetries <= 0 || id !in children {
        return None;
      }
      var c := children[id];
      if c.timeoutRetries >= maxRetries || c.provider == "" {
        return None;
      }
      children := children[id := c.(timeoutRetries := maxRetries)];
      return Some(c);
    }

    method CompleteOnSessionEnd(id: nat)
      modifies this`children, this`done
      ensures State() == SessionEnded(old(State()), id)
    {
      if id in children {
        done := done + {id};
        children := children[id := children[id].(done := true)];
      }
    }

    method FindUniqueChild(role: string) returns (found: nat)
      requires 0 !in children
      ensures found == UniqueChildSessionForRole(State(), role)
    {
      if role == "" {
        return 0;
      }
      found := 0;
      var todo := children.Keys;
      while todo != {}
        invariant todo <= children.Keys
        invariant found == 0 ==> forall id | id in children && id !in todo :: children[id].role != role
        invariant found != 0 ==> found in children && found !in todo && children[found].role == role
        invariant found != 0 ==> forall id | id in children && id !in todo && children[id].role == role :: id == found
        decreases todo
      {
        var id :| id in todo;
        todo := todo - {id};
        if children[id].role == role {
          if found != 0 {
            assert !OnlyChild(State(), role, id) && !OnlyChild(State(), role, found);
            assert forall other :: !OnlyChild(State(), role, other);
            return 0;
          }
          found := id;
        }
      }
      assert found != 0 ==> OnlyChild(State(), role, found);
    }

    method AuthorizeBoardDone(ev: DoneEvent, writerId: nat) returns (ok: bool)
      requires 0 !in children
      ensures ok <==> Authorized(State(), ev, writerId)
      ensures ok ==> writerId in children
    {
      var sessionId := ev.session;
      if sessionId == 0 {
        sessionId := FindUniqueChild(ev.role);
        assert OnlyChild(State(), ev.role, writerId) ==> sessionId == writerId;
      }
      ok := sessionId != 0 && writerId != 0 && sessionId == writerId && sessionId in children;
    }

    method HandleBoardChange(now: int, writer: Writer, events: seq<DoneEvent>)
      requires 0 !in children
      modifies this`children, this`done
      ensures State() == BoardChanged(old(State()), now, writer, events)
    {
      var writerId := writer.session;
      if writerId == 0 || writerId !in sessions {
        writerId := FindUniqueChild(writer.role);
      }
      children := NoteWriter(now, writerId, writer.role);
      MarkAuthorizedDones(now, events, writerId);
    }

    method MarkAuthorizedDones(now: int, events: seq<DoneEvent>, writerId: nat)
      requires 0 !in children
      modifies this`children, this`done
      ensures State() == DonesMarked(old(State()), now, events, writerId)
    {
      ghost var b := State();
      var i := 0;
      while i < |events|
        invariant 0 <= i <= |events|
        invariant State() == DonesMarked(b, now, events[..i], writerId)
      {
        hide AnyAuthorized, Authorized, OnlyChild;
        SameRoles(b, State());
        var ok := AuthorizeBoardDone(events[i], writerId);
        if ok {
          done := done + {writerId};
          children := children[writerId := children[writerId].(done := true, lastBoardWrite := now)];
        }
        i := i + 1;
      }
      assert events[..|events|] == events;
    }

    method NoteWriter(now: int, writerId: nat, role: string) returns (noted: map<nat, Child>)
      ensures noted == WriterNoted(State(), now, writerId, role).children
    {
      noted := children;
      var todo := children.Keys;
      while todo != {}
        invariant todo <= children.Keys == noted.Keys
        invariant forall id | id in todo :: noted[id] == children[id]
        invariant forall id | id in children && id !in todo :: noted[id] == WriterNoted(State(), now, writerId, role).children[id]
        decreases todo
      {
        var id :| id in todo;
        todo := todo - {id};
        if writerId == id || (writerId == 0 && role == children[id].role) {
          noted := noted[id := noted[id].(lastBoardWrite := now)];
        }
      }
    }

    method ScanOrchestrationChildFiles(now: int, updates: seq<FileUpdate>)
      modifies this`children, this`done
      ensures State() == FilesScanned(old(State()), now, updates)
    {
      ghost var b := State();
      var i := 0;
      while i < |updates|
        invariant 0 <= i <= |updates|
        invariant State() == FilesScanned(b, now, updates[..i])
      {
        var shorter, longer := updates[..i], updates[..i + 1];
        assert longer[..|longer| - 1] == shorter;
        ApplyUpdate(now, updates[i]);
        i := i + 1;
      }
      assert updates[..|updates|] == updates;
    }

    method ApplyUpdate(now: int, u: FileUpdate)
      modifies this`children, this`done
      ensures State() == UpdateSeen(old(State()), now, u)
    {
      if u.id !in children {
        return;
      }
      children := children[u.id := children[u.id].(lastBoardWrite := now)];
      var k := 0;
      while k < |u.dones|
        invariant 0 <= k <= |u.dones|
        invariant forall j | 0 <= j < k :: u.dones[j].session !in {0, u.id}
      {
        if u.dones[k].session in {0, u.id} {
          done := done + {u.id};
          children := children[u.id := children[u.id].(done := true)];
          break;
        }
        k := k + 1;
      }
      assert k < |u.dones| <==> ClaimsDone(u);
    }
  }

  lemma {:induction false} SameRoles(b: Board, b': Board)
    requires b'.children.Keys == b.children.Keys && forall k | k in b.children :: b'.children[k].role == b.children[k].role
    ensures forall role, id :: OnlyChild(b', role, id) <==> OnlyChild(b, role, id)
    ensures forall ev, w :: Authorized(b', ev, w) <==> Authorized(b, ev, w)
  {
    assert forall role, id :: OnlyChild(b', role, id) <==> OnlyChild(b, role, id);
  }

  // --- the life of one child ----------------------------------------------------------------

  // A section signed by a registered conductor is its own, credits no child with
  // anything, and completes none.
  lemma {:induction false} ConductorsSectionIsItsOwn(b: Board, id: nat, role: string, now: int, writer: Writer, events: seq<DoneEvent>, other: nat)
    requires 0 !in b.children && id != 0 && id !in b.children && writer.session == id && other in b.children
    ensures var b' := BoardChanged(SessionRegistered(b, id, role), now, writer, events);
            other in b'.children && b'.children[other] == b.children[other] && (Finished(b', other) <==> Finished(b, other))
  {
    hide OnlyChild;
    BoardCompletesOnlyItsWriter(SessionRegistered(b, id, role), now, writer, events, other);
  }

  // A new child is neither silent nor late at that time, cannot be retried before
  // its restart data is set, and leaves the other children as they were.
  lemma {:induction false} NewChildStartsClean(b: Board, id: nat, parent: nat, role: string, now: int, outputs: map<nat, int>, cfg: Config, other: nat)
    ensures var b' := Registered(b, id, parent, role, now);
            && id in b'.children && TimerVerdict(b', id, now, outputs, cfg) in {Nothing, Rearms}
            && !MayRespawn(b', id, cfg.maxTimeoutRespawns)
            && (id !in b.done ==> !Finished(b', id))
            && b'.children[id].parent == parent && b'.children[id].role == role && b'.children[id].spawnedAt == now
            && (other in b.children && other != id ==>
                  && other in b'.children && b'.children[other] == b.children[other]
                  && TimerVerdict(b', other, now, outputs, cfg) == TimerVerdict(b, other, now, outputs, cfg)
                  && (MayRespawn(b', other, cfg.maxTimeoutRespawns) <==> MayRespawn(b, other, cfg.maxTimeoutRespawns)))
  {
  }

  // Setting restart data allows retries up to the limit, of that child only, and
  // touches no timer.
  lemma {:induction false} RestartDataAllowsRetries(b: Board, id: nat, provider: string, retries: int, now: int, outputs: map<nat, int>, cfg: Config, other: nat)
    requires other in b.children
    ensures var b', max := RestartDataSet(b, id, provider, retries), cfg.maxTimeoutRespawns;
            && (MayRespawn(b', id, max) <==> id in b.children && provider != "" && retries < max && max > 0)
            && other in b'.children && (other != id ==> b'.children[other] == b.children[other])
            && (var c, c' := b.children[other], b'.children[other];
                c'.(provider := c.provider, timeoutRetries := c.timeoutRetries) == c)
            && TimerVerdict(b', other, now, outputs, cfg) == TimerVerdict(b, other, now, outputs, cfg)
            && (other != id ==> (MayRespawn(b', other, max) <==> MayRespawn(b, other, max)))
  {
  }

  // The end of its session settles a registered child, and no other.
  lemma {:induction false} SessionEndSettlesTheChild(b: Board, id: nat, now: int, outputs: map<nat, int>, cfg: Config, other: nat)
    requires id in b.children && other in b.children
    ensures var b' := SessionEnded(b, id);
            && id in b'.children && Finished(b', id) && TimerVerdict(b', id, now, outputs, cfg) == Nothing
            && (other != id ==> other in b'.children && (Finished(b', other) <==> Finished(b, other))
                                && TimerVerdict(b', other, now, outputs, cfg) == TimerVerdict(b, other, now, outputs, cfg))
  {
  }

  // An end that comes before the child is registered is lost: the child is
  // waited for all the same, and times out in the end.
  lemma {:induction false} EarlyEndIsLost(b: Board, id: nat, parent: nat, role: string, now: int, late: int, outputs: map<nat, int>, cfg: Config)
    requires id !in b.children && id !in b.done && id !in b.timedOut
    requires cfg.childTimeout > 0 && late > now + cfg.childTimeout * SECOND
    ensures var b' := Registered(SessionEnded(b, id), id, parent, role, now);
            !Finished(b', id) && TimerVerdict(b', id, late, outputs, cfg) == TimesOut
  {
  }

  // --- who can complete whom ------------------------------------------------------------------

  predicate Sole(b: Board, role: string, id: nat) {
    role != "" && (set k | k in b.children && b.children[k].role == role) == {id}
  }

  // Who wrote: the session the section names if it takes part in the board, or
  // else the only child of the role it names.
  predicate Wrote(b: Board, writer: Writer, id: nat) {
    if writer.session != 0 && writer.session in b.sessions then id == writer.session else Sole(b, writer.role, id)
  }

  // A mark that names the child, or names nobody while the child is the only one
  // of its role.
  predicate Marks(b: Board, ev: DoneEvent, id: nat) {
    ev.session == id || (ev.session == 0 && Sole(b, ev.role, id))
  }

  // Through the shared board only the section's writer can be completed, and
  // only by a mark that marks it; the writer is credited with activity, and all
  // children of the role when nobody can be told to have written.
  lemma {:induction false} BoardCompletesOnlyItsWriter(b: Board, now: int, writer: Writer, events: seq<DoneEvent>, id: nat)
    requires 0 !in b.children && id in b.children
    ensures var b', c := BoardChanged(b, now, writer, events), b.children[id];
            var completed := Wrote(b, writer, id) && exists i :: 0 <= i < |events| && Marks(b, events[i], id);
            var unknown := (forall k :: !Wrote(b, writer, k)) && c.role == writer.role;
            && id in b'.children && b'.children.Keys == b.children.Keys
            && b'.children[id] == (if completed then c.(done := true, lastBoardWrite := now)
                                   else if Wrote(b, writer, id) || unknown then c.(lastBoardWrite := now)
                                   else c)
            && (id in b'.done <==> id in b.done || completed)
            && (Finished(b', id) <==> Finished(b, id) || completed)
  {
    hide OnlyChild, Sole, ResolveWriter, Wrote;
    var w := ResolveWriter(b, writer);
    var noted := WriterNoted(b, now, w, writer.role);
    SameRoles(b, noted);
    assert AnyAuthorized(noted, events, w) <==> AnyAuthorized(b, events, w);
    WriterIsResolved(b, writer);
    assert (forall k :: !Wrote(b, writer, k)) <==> w == 0 by { assert w != 0 ==> Wrote(b, writer, w); }
    forall ev: DoneEvent ensures id == w ==> (Authorized(b, ev, w) <==> Marks(b, ev, id)) {
      OnlyIsSole(b, ev.role, id);
    }
    assert id == w ==> (AnyAuthorized(b, events, w) <==> exists i :: 0 <= i < |events| && Marks(b, events[i], id));
  }

  lemma {:induction false} OnlyIsSole(b: Board, role: string, id: nat)
    ensures OnlyChild(b, role, id) <==> Sole(b, role, id)
  {
    var all := set k | k in b.children && b.children[k].role == role;
    if OnlyChild(b, role, id) {
      assert all == {id};
    }
    if Sole(b, role, id) {
      assert id in all;
      assert forall k | k in b.children && b.children[k].role == role :: k in all;
    }
  }

  lemma {:induction false} WriterIsResolved(b: Board, writer: Writer)
    requires 0 !in b.children
    ensures var w := ResolveWriter(b, writer);
            && (w != 0 ==> forall id :: Wrote(b, writer, id) <==> id == w)
            && (w == 0 ==> forall id :: !Wrote(b, writer, id))
  {
    hide OnlyChild, Sole;
    forall id: nat ensures OnlyChild(b, writer.role, id) <==> Sole(b, writer.role, id) {
      OnlyIsSole(b, writer.role, id);
    }
    OnlyOneSole(b, writer.role);
  }

  lemma {:induction false} OnlyOneSole(b: Board, role: string)
    ensures forall i, j | Sole(b, role, i) && Sole(b, role, j) :: i == j
  {
    forall i, j | Sole(b, role, i) && Sole(b, role, j) ensures i == j {
      assert i in {j};
    }
  }

  predicate Touched(updates: seq<FileUpdate>, id: nat) {
    exists i :: 0 <= i < |updates| && updates[i].id == id
  }

  // In the file of a child, a mark without a name is its own.
  predicate Completed(updates: seq<FileUpdate>, id: nat) {
    exists i, k :: 0 <= i < |updates| && updates[i].id == id && 0 <= k < |updates[i].dones| && updates[i].dones[k].session in {0, id}
  }

  // A progress file speaks for its own child only.
  lemma {:induction false} FilesCompleteOnlyTheirChild(b: Board, now: int, updates: seq<FileUpdate>, id: nat)
    requires id in b.children
    ensures var b', c := FilesScanned(b, now, updates), b.children[id];
            && id in b'.children
            && b'.children[id] == (if !Touched(updates, id) then c
                                   else if Completed(updates, id) then c.(done := true, lastBoardWrite := now)
                                   else c.(lastBoardWrite := now))
            && (id in b'.done <==> id in b.done || Completed(updates, id))
            && (Finished(b', id) <==> Finished(b, id) || Completed(updates, id))
  {
    hide ClaimsDone, Touched, Completed;
    if updates != [] {
      var n := |updates| - 1;
      FilesCompleteOnlyTheirChild(b, now, updates[..n], id);
      OneMoreUpdate(updates, id);
    } else {
      assert !Touched(updates, id) && !Completed(updates, id) by { NoUpdates(id); }
    }
  }

  lemma {:induction false} NoUpdates(id: nat)
    ensures !Touched([], id) && !Completed([], id)
  {
  }

  lemma {:induction false} OneMoreUpdate(updates: seq<FileUpdate>, id: nat)
    requires updates != []
    ensures Completed(updates, id) ==> Touched(updates, id)
    ensures var n := |updates| - 1;
            && (Completed(updates[..n], id) ==> Touched(updates[..n], id))
            && (Touched(updates, id) <==> Touched(updates[..n], id) || updates[n].id == id)
            && (Completed(updates, id) <==> Completed(updates[..n], id) || (updates[n].id == id && ClaimsDone(updates[n])))
  {
    var n := |updates| - 1;
    if i :| 0 <= i < |updates| && updates[i].id == id && i < n {
      assert updates[..n][i] == updates[i];
    }
    if Completed(updates, id) {
      var i, k :| 0 <= i < |updates| && updates[i].id == id && 0 <= k < |updates[i].dones| && updates[i].dones[k].session in {0, id};
      assert i < n ==> updates[..n][i] == updates[i];
    }
  }

}
