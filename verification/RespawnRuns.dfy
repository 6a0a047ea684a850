/**
  Whole runs of an orchestration board: spawns and retries are asynchronous
  jobs that register a child first and set its restart data later, and the
  poller's retry decisions come after the check that called for them.
 */
module RespawnRuns {
  import opened Options
  import opened Orchestration

  // A job spawns a child: one the conductor asked for, or the successor of a
  // child that timed out. Every job knows the original its lineage began with.
  datatype Stage = Spawning | Registered(id: nat) | Over

  datatype Job = Job(from: Option<nat>, origin: nat, depth: nat, parent: nat, role: string, provider: string, retries: int, stage: Stage)

  // The poller is about to ask for a retry of this child.
  datatype Call = Call(id: nat, max: int)

  datatype System = System(board: Board, calls: set<Call>, jobs: seq<Job>, bornOf: map<nat, nat>)

  datatype Step =
    | StartSpawn(parent: nat, role: string, provider: string)
    | SpawnFails(j: nat)
    | Register(j: nat, id: nat, now: int)
    | SetData(j: nat)
    | Check(now: int, outputs: map<nat, int>, cfg: Config)
    | Respawn(call: Call)
    | ScanFiles(now: int, updates: seq<FileUpdate>)
    | ChangeBoard(now: int, writer: Writer, events: seq<DoneEvent>)
    | EndSession(id: nat)
    | RegisterSession(id: nat, role: string)

  predicate Enabled(s: System, step: Step) {
    match step
    case SpawnFails(j) => j < |s.jobs| && s.jobs[j].stage == Spawning
    // Session numbers start at 1 and are not used twice.
    case Register(j, id, _) => j < |s.jobs| && s.jobs[j].stage == Spawning && id > 0 && id !in s.board.children
    case SetData(j) => j < |s.jobs| && s.jobs[j].stage.Registered?
    case Respawn(call) => call in s.calls && (call.id in s.board.children ==> call.id in s.bornOf && s.bornOf[call.id] < |s.jobs|)
    case ChangeBoard(_, _, _) => 0 !in s.board.children
    case StartSpawn(_, _, _) | Check(_, _, _) | ScanFiles(_, _) | EndSession(_) | RegisterSession(_, _) => true
  }

  ghost function Apply(s: System, step: Step): System
    requires Enabled(s, step)
  {
    match step
    case StartSpawn(parent, role, provider) =>
      s.(jobs := s.jobs + [Job(None, |s.jobs|, 0, parent, role, provider, 0, Spawning)])
    case SpawnFails(j) => s.(jobs := s.jobs[j := s.jobs[j].(stage := Over)])
    case Register(j, id, now) =>
      s.(board := Orchestration.Registered(s.board, id, s.jobs[j].parent, s.jobs[j].role, now),
         jobs := s.jobs[j := s.jobs[j].(stage := Registered(id))],
         bornOf := s.bornOf[id := j])
    case SetData(j) =>
      s.(board := RestartDataSet(s.board, s.jobs[j].stage.id, s.jobs[j].provider, s.jobs[j].retries),
         jobs := s.jobs[j := s.jobs[j].(stage := Over)])
    case Check(now, outputs, cfg) =>
      s.(board := CheckTimers(s.board, now, outputs, cfg),
         calls := if cfg.timeoutRespawn then s.calls + CallsFor(s.board, now, outputs, cfg) else s.calls)
    case Respawn(call) =>
      var s' := s.(calls := s.calls - {call});
      if MayRespawn(s.board, call.id, call.max) then Successor(s', call) else s'
    case ScanFiles(now, updates) => s.(board := FilesScanned(s.board, now, updates))
    case ChangeBoard(now, writer, events) => s.(board := BoardChanged(s.board, now, writer, events))
    case EndSession(id) => s.(board := SessionEnded(s.board, id))
    case RegisterSession(id, role) => s.(board := SessionRegistered(s.board, id, role))
  }

  function CallsFor(b: Board, now: int, outputs: map<nat, int>, cfg: Config): set<Call> {
    set id | id in WithVerdict(b, TimesOut, now, outputs, cfg) :: Call(id, cfg.maxTimeoutRespawns)
  }

  // The timed-out child is latched, and a job for its successor starts.
  function Successor(s: System, call: Call): System
    requires call.id in s.board.children && call.id in s.bornOf && s.bornOf[call.id] < |s.jobs|
  {
    var c, born := s.board.children[call.id], s.jobs[s.bornOf[call.id]];
    s.(board := Latched(s.board, call.id, call.max),
       jobs := s.jobs + [Job(Some(call.id), born.origin, born.depth + 1, c.parent, c.role, c.provider, c.timeoutRetries + 1, Spawning)])
  }

  const Start := System(Board(map[], map[], {}, {}, {}), {}, [], map[])

  ghost predicate ValidRun(s: System, steps: seq<Step>)
    decreases |steps|
  {
    steps == [] || (Enabled(s, steps[0]) && ValidRun(Apply(s, steps[0]), steps[1..]))
  }

  ghost function After(s: System, steps: seq<Step>): System
    requires ValidRun(s, steps)
    decreases |steps|
  {
    if steps == [] then s else After(Apply(s, steps[0]), steps[1..])
  }

  // --- what every run keeps ---------------------------------------------------------

  // Children and the jobs they were born of.
  ghost predicate Linked(s: System) {
    && s.bornOf.Keys == s.board.children.Keys && 0 !in s.bornOf
    && (forall x | x in s.bornOf :: s.bornOf[x] < |s.jobs| && s.jobs[s.bornOf[x]].stage != Spawning)
    && (forall x, y | x in s.bornOf && y in s.bornOf && s.bornOf[x] == s.bornOf[y] :: x == y)
  }

  ghost predicate Succeeded(s: System, id: nat) {
    exists i :: 0 <= i < |s.jobs| && s.jobs[i].from == Some(id)
  }

  // The poller calls for a retry of a child once at most, before it has one.
  ghost predicate CallsFit(s: System) {
    && (forall c <- s.calls :: c.id in s.board.timedOut && !Succeeded(s, c.id))
    && (forall c, d | c in s.calls && d in s.calls && c.id == d.id :: c == d)
  }

  // Until a job has set the restart data, its child has none.
  ghost predicate StageFits(s: System, i: nat)
    requires i < |s.jobs|
  {
    s.jobs[i].stage.Registered? ==>
      var id := s.jobs[i].stage.id;
      id in s.bornOf && s.bornOf[id] == i && id in s.board.children && s.board.children[id].provider == ""
  }

  ghost predicate OriginFits(s: System, i: nat)
    requires i < |s.jobs|
  {
    var job := s.jobs[i];
    match job.from
    case None => job.origin == i && job.depth == 0
    case Some(x) =>
      && x in s.bornOf && x in s.board.timedOut && s.bornOf[x] < i
      && s.jobs[s.bornOf[x]].origin == job.origin && job.depth == s.jobs[s.bornOf[x]].depth + 1
      && s.jobs[s.bornOf[x]].stage == Over
  }

  ghost predicate JobFits(s: System, i: nat)
    requires i < |s.jobs|
  {
    s.jobs[i].retries == s.jobs[i].depth && StageFits(s, i) && OriginFits(s, i)
  }

  // A child with restart data and no successor yet still has its own count.
  ghost predicate ChildFits(s: System, x: nat)
    requires x in s.board.children
  {
    s.board.children[x].provider != "" ==>
      && x in s.bornOf && s.bornOf[x] < |s.jobs| && s.jobs[s.bornOf[x]].stage == Over
      && (!Succeeded(s, x) ==> s.board.children[x].timeoutRetries == s.jobs[s.bornOf[x]].retries)
  }

  ghost predicate OneSuccessorEach(s: System) {
    forall i, j | 0 <= i < |s.jobs| && 0 <= j < |s.jobs| && s.jobs[i].from == s.jobs[j].from && s.jobs[i].from.Some? :: i == j
  }

  ghost predicate Inv(s: System) {
    && Linked(s) && CallsFit(s) && OneSuccessorEach(s)
    && (forall i: nat | i < |s.jobs| :: JobFits(s, i))
    && (forall x | x in s.board.children :: ChildFits(s, x))
  }

  // No retry limit above m was ever in force.
  ghost predicate Within(s: System, m: nat) {
    && (forall c <- s.calls :: c.max <= m)
    && (forall i | 0 <= i < |s.jobs| :: s.jobs[i].depth <= m)
  }

  predicate LimitWithin(step: Step, m: nat) {
    step.Check? ==> step.cfg.maxTimeoutRespawns <= m
  }

  // What a step that only touches the board's records must leave alone.
  ghost predicate SameRetryData(b: Board, b': Board) {
    b'.timedOut == b.timedOut && SameChildren(b, b')
  }

  // Jobs only ever change their stage, and what is over stays over.
  ghost predicate Evolves(s: System, s': System) {
    && |s.jobs| <= |s'.jobs|
    && (forall k: nat | k < |s.jobs| ::
          s'.jobs[k] == s.jobs[k].(stage := s'.jobs[k].stage) && (s.jobs[k].stage == Over ==> s'.jobs[k].stage == Over))
    && (forall x | x in s.bornOf :: x in s'.bornOf && s'.bornOf[x] == s.bornOf[x])
    && s.board.timedOut <= s'.board.timedOut
  }

  lemma {:induction false} JobStaysFit(s: System, s': System, i: nat)
    requires Evolves(s, s') && i < |s.jobs| && JobFits(s, i) && StageFits(s', i)
    ensures JobFits(s', i)
  {
  }

  lemma {:induction false} JobsStayFit(s: System, s': System)
    requires Evolves(s, s') && (forall i: nat | i < |s.jobs| :: JobFits(s, i))
    requires forall i: nat | i < |s.jobs| && s'.jobs[i].stage.Registered? :: s'.jobs[i].stage == s.jobs[i].stage
    requires forall x | x in s.board.children ::
               x in s'.board.children && s'.board.children[x].provider == s.board.children[x].provider
    ensures forall i: nat | i < |s.jobs| :: JobFits(s', i)
  {
    forall i: nat | i < |s.jobs|
      ensures JobFits(s', i)
    {
      assert JobFits(s, i);
      assert StageFits(s', i);
      JobStaysFit(s, s', i);
    }
  }

  lemma {:induction false} ChildStaysFit(s: System, s': System, x: nat)
    requires Evolves(s, s') && x in s.board.children && x in s'.board.children && ChildFits(s, x)
    requires s'.board.children[x].provider == s.board.children[x].provider
    requires s'.board.children[x].timeoutRetries == s.board.children[x].timeoutRetries || Succeeded(s', x)
    requires Succeeded(s, x) ==> Succeeded(s', x)
    ensures ChildFits(s', x)
  {
  }

  lemma {:induction false} SuccessionEvolves(s: System, s': System)
    requires Evolves(s, s')
    ensures forall x | Succeeded(s, x) :: Succeeded(s', x)
    ensures |s'.jobs| == |s.jobs| ==> forall x | Succeeded(s', x) :: Succeeded(s, x)
    ensures |s'.jobs| == |s.jobs| && OneSuccessorEach(s) ==> OneSuccessorEach(s')
  {
    forall x: nat | Succeeded(s, x) ensures Succeeded(s', x) {
      var i: nat :| i < |s.jobs| && s.jobs[i].from == Some(x);
      assert s'.jobs[i].from == Some(x);
    }
    assert forall i: nat | i < |s.jobs| :: s'.jobs[i].from == s.jobs[i].from;
  }

  // A step that starts no job and touches no restart data.
  lemma {:induction false} QuietStep(s: System, s': System)
    requires Inv(s) && Evolves(s, s') && |s'.jobs| == |s.jobs| && Linked(s') && CallsFit(s')
    requires forall i: nat | i < |s.jobs| && s'.jobs[i].stage.Registered? :: s'.jobs[i].stage == s.jobs[i].stage
    requires SameChildren(s.board, s'.board)
    ensures Inv(s')
  {
    hide JobFits, ChildFits, Succeeded, OneSuccessorEach, Linked, CallsFit, Evolves;
    SuccessionEvolves(s, s');
    JobsStayFit(s, s');
    forall x | x in s'.board.children ensures ChildFits(s', x) { ChildStaysFit(s, s', x); }
  }

  ghost predicate SameChildren(b: Board, b': Board) {
    && b'.children.Keys == b.children.Keys
    && forall id | id in b.children ::
         b'.children[id].provider == b.children[id].provider && b'.children[id].timeoutRetries == b.children[id].timeoutRetries
  }

  lemma {:induction false} RecordKeeping(s: System, b': Board)
    requires Inv(s) && SameRetryData(s.board, b')
    ensures Inv(s.(board := b'))
  {
    hide JobFits, ChildFits, Succeeded, OneSuccessorEach;
    var s' := s.(board := b');
    CallsStayFit(s, s');
    QuietStep(s, s');
  }

  lemma {:induction false} ScanKeepsRetryData(b: Board, now: int, updates: seq<FileUpdate>)
    ensures SameRetryData(b, FilesScanned(b, now, updates))
  {
    if updates != [] {
      ScanKeepsRetryData(b, now, updates[..|updates| - 1]);
    }
  }

  lemma {:induction false} StartKeepsInv(s: System, parent: nat, role: string, provider: string)
    requires Inv(s)
    ensures Inv(Apply(s, StartSpawn(parent, role, provider)))
  {
    hide ChildFits, OriginFits;
    var s', job := Apply(s, StartSpawn(parent, role, provider)), Job(None, |s.jobs|, 0, parent, role, provider, 0, Spawning);
    SuccessionEvolves(s, s');
    JobsStayFit(s, s');
    assert JobFits(s', |s.jobs|) by { OriginalFits(s', |s.jobs|); }
    forall x | x in s.board.children ensures ChildFits(s', x) { ChildStaysFit(s, s', x); }
  }

  lemma {:induction false} OriginalFits(s: System, i: nat)
    requires i < |s.jobs| && s.jobs[i].from.None? && s.jobs[i].origin == i && s.jobs[i].depth == 0
    ensures OriginFits(s, i)
  {
  }

  lemma {:induction false} FailureKeepsInv(s: System, j: nat)
    requires Inv(s) && Enabled(s, SpawnFails(j))
    ensures Inv(Apply(s, SpawnFails(j)))
  {
    hide JobFits, ChildFits, Succeeded, OneSuccessorEach, Evolves, Linked, CallsFit;
    var s' := Apply(s, SpawnFails(j));
    StageMoves(s, SpawnFails(j));
    CallsStayFit(s, s');
    QuietStep(s, s');
  }

  lemma {:induction false} StageMoves(s: System, step: Step)
    requires Inv(s) && (step.SpawnFails? || step.SetData?) && Enabled(s, step)
    ensures Evolves(s, Apply(s, step)) && Linked(Apply(s, step))
  {
    hide JobFits, ChildFits, CallsFit, OneSuccessorEach;
    var s', j := Apply(s, step), step.j;
    assert s'.jobs == s.jobs[j := s.jobs[j].(stage := Over)] && s'.bornOf == s.bornOf;
    assert s'.board.children.Keys == s.board.children.Keys && s'.board.timedOut == s.board.timedOut by { assert JobFits(s, j); }
    hide Apply;
  }

  lemma {:induction false} RegisterEvolves(s: System, j: nat, id: nat, now: int)
    requires Inv(s) && Enabled(s, Register(j, id, now))
    ensures Evolves(s, Apply(s, Register(j, id, now)))
  {
    hide JobFits, ChildFits, CallsFit, OneSuccessorEach;
    LinkedKeys(s);
    hide Linked;
  }

  lemma {:induction false} RegisterLinks(s: System, j: nat, id: nat, now: int)
    requires Linked(s) && Enabled(s, Register(j, id, now))
    ensures Linked(Apply(s, Register(j, id, now)))
  {
  }

  // Job j and its child id aside, nothing changes.
  lemma {:induction false} OthersStayFit(s: System, s': System, j: nat, id: nat)
    requires Evolves(s, s') && |s'.jobs| == |s.jobs| && j < |s.jobs| && (forall i: nat | i < |s.jobs| :: JobFits(s, i))
    requires forall i: nat | i < |s.jobs| && i != j :: s'.jobs[i] == s.jobs[i]
    requires forall x | x in s.board.children && x != id :: x in s'.board.children && s'.board.children[x].provider == s.board.children[x].provider
    requires id in s.bornOf ==> s.bornOf[id] == j
    ensures forall i: nat | i < |s'.jobs| && i != j :: JobFits(s', i)
  {
    hide OriginFits;
    forall i: nat | i < |s'.jobs| && i != j
      ensures JobFits(s', i)
    {
      assert JobFits(s, i);
      JobStaysFit(s, s', i);
    }
  }

  lemma {:induction false} JobMoves(s: System, s': System, j: nat)
    requires j < |s.jobs| && JobFits(s, j) && Evolves(s, s') && StageFits(s', j)
    ensures JobFits(s', j)
  {
    JobStaysFit(s, s', j);
  }

  lemma {:induction false} RegisteredFits(s: System, j: nat)
    requires Inv(s) && j < |s.jobs|
    ensures StageFits(s, j)
  {
    assert JobFits(s, j);
  }

  lemma {:induction false} CallsStayFit(s: System, s': System)
    requires CallsFit(s) && Evolves(s, s') && |s'.jobs| == |s.jobs| && s'.calls <= s.calls
    ensures CallsFit(s')
  {
    SuccessionEvolves(s, s');
  }

  lemma {:induction false} DataSetFits(s: System, s': System, j: nat)
    requires Enabled(s, SetData(j)) && s' == Apply(s, SetData(j)) && StageFits(s, j)
    ensures s.jobs[j].stage.id in s'.board.children && ChildFits(s', s.jobs[j].stage.id)
  {
  }

  lemma {:induction false} RegisterKeepsInv(s: System, j: nat, id: nat, now: int)
    requires Inv(s) && Enabled(s, Register(j, id, now))
    ensures Inv(Apply(s, Register(j, id, now)))
  {
    hide JobFits, ChildFits, Succeeded, OneSuccessorEach, CallsFit, Evolves, Linked;
    var s' := Apply(s, Register(j, id, now));
    RegisterEvolves(s, j, id, now);
    RegisterLinks(s, j, id, now);
    SuccessionEvolves(s, s');
    assert id !in s.bornOf by { LinkedKeys(s); }
    OthersStayFit(s, s', j, id);
    RegisteredChildFits(s, s', id);
    JobMoves(s, s', j);
    CallsStayFit(s, s');
  }

  lemma {:induction false} LinkedKeys(s: System)
    requires Linked(s)
    ensures s.bornOf.Keys == s.board.children.Keys
  {
  }

  lemma {:induction false} RegisteredChildFits(s: System, s': System, id: nat)
    requires Evolves(s, s') && id in s'.board.children && s'.board.children[id].provider == ""
    requires forall x | x in s.board.children :: ChildFits(s, x)
    requires forall x | x in s'.board.children && x != id :: x in s.board.children && s'.board.children[x] == s.board.children[x]
    ensures forall x | x in s'.board.children :: ChildFits(s', x)
  {
    hide JobFits;
    SuccessionEvolves(s, s');
    forall x | x in s'.board.children
      ensures ChildFits(s', x)
    {
      if x != id {
        ChildStaysFit(s, s', x);
      }
    }
  }

  lemma {:induction false} SetDataKeepsInv(s: System, j: nat)
    requires Inv(s) && Enabled(s, SetData(j))
    ensures Inv(Apply(s, SetData(j)))
  {
    hide JobFits, ChildFits, Succeeded, OneSuccessorEach, CallsFit, Evolves, Linked;
    var s', id := Apply(s, SetData(j)), s.jobs[j].stage.id;
    StageMoves(s, SetData(j));
    SuccessionEvolves(s, s');
    RegisteredFits(s, j);
    OthersStayFit(s, s', j, id);
    assert JobFits(s', j) by { JobMoves(s, s', j); }
    CallsStayFit(s, s');
    forall x | x in s'.board.children
      ensures ChildFits(s', x)
    {
      if x == id { DataSetFits(s, s', j); } else { ChildStaysFit(s, s', x); }
    }
  }

  lemma {:induction false} CheckKeepsInv(s: System, now: int, outputs: map<nat, int>, cfg: Config)
    requires Inv(s)
    ensures Inv(Apply(s, Check(now, outputs, cfg)))
  {
    hide TimerVerdict, JobFits, ChildFits, Succeeded, OneSuccessorEach;
    var s' := Apply(s, Check(now, outputs, cfg));
    assert Evolves(s, s');
    SuccessionEvolves(s, s');
    TimesOutOnce(s, now, outputs, cfg);
    QuietStep(s, s');
  }

  lemma {:induction false} TimesOutOnce(s: System, now: int, outputs: map<nat, int>, cfg: Config)
    requires Inv(s)
    ensures forall id | id in WithVerdict(s.board, TimesOut, now, outputs, cfg) ::
              id !in s.board.timedOut && !Succeeded(s, id) && !Finished(s.board, id)
  {
    forall id: nat | Succeeded(s, id)
      ensures id in s.board.timedOut
    {
      var i: nat :| i < |s.jobs| && s.jobs[i].from == Some(id);
      assert JobFits(s, i);
    }
  }

  lemma {:induction false} RespawnKeepsInv(s: System, call: Call)
    requires Inv(s) && Enabled(s, Respawn(call))
    ensures Inv(Apply(s, Respawn(call)))
  {
    hide JobFits, ChildFits, Succeeded;
    var s' := Apply(s, Respawn(call));
    assert Evolves(s, s');
    SuccessionEvolves(s, s');
    if MayRespawn(s.board, call.id, call.max) {
      SuccessorFits(s, s', call);
    } else {
      CallsStayFit(s, s');
      QuietStep(s, s');
    }
  }

  lemma {:induction false} SuccessorFits(s: System, s': System, call: Call)
    requires Inv(s) && Enabled(s, Respawn(call)) && s' == Apply(s, Respawn(call)) && Evolves(s, s')
    requires MayRespawn(s.board, call.id, call.max)
    ensures Inv(s')
  {
    hide Succeeded, OneSuccessorEach, JobFits, ChildFits, Evolves, Linked, CallsFit;
    SuccessorAppended(s, s', call.id) by { CallIsOpen(s, call); }
    SuccessorCalls(s, s', call);
    SuccessorLinks(s, s', call);
    JobsStayFit(s, s');
    SuccessorJobFits(s, s', call);
    SuccessorChildrenFit(s, s', call);
  }

  lemma {:induction false} CallIsOpen(s: System, call: Call)
    requires CallsFit(s) && call in s.calls
    ensures !Succeeded(s, call.id)
  {
  }

  lemma {:induction false} SuccessorCalls(s: System, s': System, call: Call)
    requires CallsFit(s) && Enabled(s, Respawn(call)) && s' == Apply(s, Respawn(call))
    requires MayRespawn(s.board, call.id, call.max) && forall y :: Succeeded(s', y) <==> Succeeded(s, y) || y == call.id
    ensures CallsFit(s')
  {
    hide Succeeded;
  }

  lemma {:induction false} SuccessorLinks(s: System, s': System, call: Call)
    requires Linked(s) && Enabled(s, Respawn(call)) && s' == Apply(s, Respawn(call)) && MayRespawn(s.board, call.id, call.max)
    ensures Linked(s')
  {
    assert forall i: nat | i < |s.jobs| :: s'.jobs[i] == s.jobs[i];
  }

  lemma {:induction false} SuccessorChildrenFit(s: System, s': System, call: Call)
    requires (forall x | x in s.board.children :: ChildFits(s, x)) && Enabled(s, Respawn(call)) && s' == Apply(s, Respawn(call)) && Evolves(s, s')
    requires MayRespawn(s.board, call.id, call.max) && Succeeded(s', call.id)
    ensures forall y | y in s'.board.children :: ChildFits(s', y)
  {
    hide Succeeded, OneSuccessorEach, JobFits, ChildFits, Evolves, Linked, CallsFit;
    SuccessionEvolves(s, s');
    forall y | y in s'.board.children ensures ChildFits(s', y) { ChildStaysFit(s, s', y); }
  }

  lemma {:induction false} SuccessorJobFits(s: System, s': System, call: Call)
    requires Inv(s) && Enabled(s, Respawn(call)) && s' == Apply(s, Respawn(call))
    requires MayRespawn(s.board, call.id, call.max)
    ensures |s'.jobs| == |s.jobs| + 1 && JobFits(s', |s.jobs|)
  {
    hide OneSuccessorEach, Succeeded;
    assert ChildFits(s, call.id) && JobFits(s, s.bornOf[call.id]);
  }

  lemma {:induction false} SuccessorAppended(s: System, s': System, x: nat)
    requires |s'.jobs| == |s.jobs| + 1 && s.jobs == s'.jobs[..|s.jobs|] && s'.jobs[|s.jobs|].from == Some(x)
    requires OneSuccessorEach(s) && !Succeeded(s, x)
    ensures forall y :: Succeeded(s', y) <==> Succeeded(s, y) || y == x
    ensures OneSuccessorEach(s')
  {
    assert forall i: nat | i < |s.jobs| :: s'.jobs[i] == s.jobs[i];
    forall y: nat | Succeeded(s', y) && y != x
      ensures Succeeded(s, y)
    {
      var i: nat :| i < |s'.jobs| && s'.jobs[i].from == Some(y);
      assert s.jobs[i].from == Some(y);
    }
    forall y: nat | Succeeded(s, y)
      ensures Succeeded(s', y)
    {
      var i: nat :| i < |s.jobs| && s.jobs[i].from == Some(y);
      assert s'.jobs[i].from == Some(y);
    }
  }

  lemma {:induction false} StepKeepsInv(s: System, step: Step)
    requires Inv(s) && Enabled(s, step)
    ensures Inv(Apply(s, step))
  {
    hide Inv;
    match step
    case StartSpawn(parent, role, provider) => StartKeepsInv(s, parent, role, provider);
    case SpawnFails(j) => FailureKeepsInv(s, j);
    case Register(j, id, now) => RegisterKeepsInv(s, j, id, now);
    case SetData(j) => SetDataKeepsInv(s, j);
    case Check(now, outputs, cfg) => CheckKeepsInv(s, now, outputs, cfg);
    case Respawn(call) => RespawnKeepsInv(s, call);
    case ScanFiles(now, updates) =>
      ScanKeepsRetryData(s.board, now, updates);
      RecordKeeping(s, FilesScanned(s.board, now, updates));
    case ChangeBoard(now, writer, events) => RecordKeeping(s, BoardChanged(s.board, now, writer, events));
    case EndSession(id) => RecordKeeping(s, SessionEnded(s.board, id));
    case RegisterSession(id, role) => RecordKeeping(s, SessionRegistered(s.board, id, role));
  }

  lemma {:induction false} StepKeepsLimit(s: System, step: Step, m: nat)
    requires Inv(s) && Enabled(s, step) && Within(s, m) && LimitWithin(step, m)
    ensures Within(Apply(s, step), m)
  {
    hide FilesScanned, BoardChanged, CheckTimers;
    match step
    case Respawn(call) =>
      if MayRespawn(s.board, call.id, call.max) {
        assert ChildFits(s, call.id) && !Succeeded(s, call.id);
        assert JobFits(s, s.bornOf[call.id]);
      }
    case _ =>
  }

  lemma {:induction false} RunKeepsInv(s: System, steps: seq<Step>, m: nat)
    requires Inv(s) && Within(s, m) && ValidRun(s, steps) && forall step <- steps :: LimitWithin(step, m)
    ensures Inv(After(s, steps)) && Within(After(s, steps), m)
    decreases |steps|
  {
    hide Inv, Within;
    if steps != [] {
      assert steps[0] in steps;
      StepKeepsInv(s, steps[0]);
      StepKeepsLimit(s, steps[0], m);
      RunKeepsInv(Apply(s, steps[0]), steps[1..], m);
    }
  }

  // --- that retries do happen --------------------------------------------------------------

  // Where retries are on, a check calls for one of every late child, and the
  // call starts a successor exactly when the child has restart data and has not
  // reached the limit.
  lemma {:induction false} LateChildIsRetried(s: System, now: int, outputs: map<nat, int>, cfg: Config, id: nat)
    requires Inv(s)
    ensures var call, s1 := Call(id, cfg.maxTimeoutRespawns), Apply(s, Check(now, outputs, cfg));
            && (forall c :: c in s1.calls <==>
                  || c in s.calls
                  || (cfg.timeoutRespawn && Late(s.board, c.id, now, cfg) && c.max == cfg.maxTimeoutRespawns))
            && (cfg.timeoutRespawn && Late(s.board, id, now, cfg) ==>
                  var c := s.board.children[id];
                  && Enabled(s1, Respawn(call))
                  && var s2 := Apply(s1, Respawn(call));
                     if c.provider != "" && c.timeoutRetries < cfg.maxTimeoutRespawns && 0 < cfg.maxTimeoutRespawns then
                       && |s2.jobs| == |s.jobs| + 1 && s2.jobs[..|s.jobs|] == s.jobs
                       && (var job := s2.jobs[|s.jobs|];
                           && job.from == Some(id) && job.parent == c.parent && job.role == c.role
                           && job.provider == c.provider && job.retries == c.timeoutRetries + 1 && job.stage == Spawning)
                     else s2.jobs == s.jobs)
  {
    hide JobFits, ChildFits, CallsFit, OneSuccessorEach;
    var s1 := Apply(s, Check(now, outputs, cfg));
    forall k: nat
      ensures k in WithVerdict(s.board, TimesOut, now, outputs, cfg) <==> Late(s.board, k, now, cfg)
    {
    }
    hide TimerVerdict, WithVerdict, Late;
    forall c: Call | cfg.timeoutRespawn && Late(s.board, c.id, now, cfg) && c.max == cfg.maxTimeoutRespawns
      ensures c in s1.calls
    {
      assert Call(c.id, cfg.maxTimeoutRespawns) in CallsFor(s.board, now, outputs, cfg);
    }
  }

  // --- lineages --------------------------------------------------------------------------

  // All spawns that go back to one original.
  ghost function Lineage(s: System, origin: nat): set<nat> {
    set i | 0 <= i < |s.jobs| && s.jobs[i].origin == origin
  }

  // A lineage has one job for every depth.
  lemma {:induction false} OneJobPerDepth(s: System, i: nat, j: nat)
    requires Inv(s) && i < |s.jobs| && j < |s.jobs|
    requires s.jobs[i].origin == s.jobs[j].origin && s.jobs[i].depth == s.jobs[j].depth
    ensures i == j
    decreases s.jobs[i].depth
  {
    assert JobFits(s, i) && JobFits(s, j);
    if s.jobs[i].depth > 0 {
      var x, y := s.jobs[i].from.value, s.jobs[j].from.value;
      OneJobPerDepth(s, s.bornOf[x], s.bornOf[y]);
    }
  }

  lemma {:induction false} LineageIsShort(s: System, origin: nat, m: nat)
    requires Inv(s) && Within(s, m)
    ensures |Lineage(s, origin)| <= m + 1
  {
    hide Inv;
    forall i, j | i in Lineage(s, origin) && j in Lineage(s, origin) && s.jobs[i].depth == s.jobs[j].depth
      ensures i == j
    {
      OneJobPerDepth(s, i, j);
    }
    DistinctDepths(s.jobs, Lineage(s, origin), m + 1);
  }

  lemma {:induction false} DistinctDepths(jobs: seq<Job>, these: set<nat>, n: nat)
    requires forall i <- these :: i < |jobs| && jobs[i].depth < n
    requires forall i, j | i in these && j in these && jobs[i].depth == jobs[j].depth :: i == j
    ensures |these| <= n
  {
    if n == 0 {
      assert forall i: nat :: i !in these;
      assert these == {};
    } else if top :| top in these && jobs[top].depth == n - 1 {
      DistinctDepths(jobs, these - {top}, n - 1);
      assert these == these - {top} + {top};
    } else {
      DistinctDepths(jobs, these, n - 1);
    }
  }

  // In every run in which the retry limit never exceeds m, a child is retried at
  // most once, only after it has timed out and had its restart data set, and
  // every original spawn has at most m successors in all.
  lemma {:induction false} RetriesAreBounded(steps: seq<Step>, m: nat)
    requires ValidRun(Start, steps) && forall step <- steps :: LimitWithin(step, m)
    ensures var s := After(Start, steps);
            && (forall i, j | 0 <= i < |s.jobs| && 0 <= j < |s.jobs| && s.jobs[i].from == s.jobs[j].from && s.jobs[i].from.Some? :: i == j)
            && (forall i | 0 <= i < |s.jobs| && s.jobs[i].from.Some? ::
                  var x := s.jobs[i].from.value;
                  x in s.bornOf && x in s.board.timedOut && s.bornOf[x] < |s.jobs| && s.jobs[s.bornOf[x]].stage == Over)
            && (forall origin: nat | origin < |s.jobs| :: |Lineage(s, origin)| <= m + 1)
  {
    RunKeepsInv(Start, steps, m);
    var s := After(Start, steps);
    forall i: nat | i < |s.jobs| && s.jobs[i].from.Some?
      ensures var x := s.jobs[i].from.value;
              x in s.bornOf && x in s.board.timedOut && s.bornOf[x] < |s.jobs| && s.jobs[s.bornOf[x]].stage == Over
    {
      assert JobFits(s, i);
    }
    forall origin: nat | origin < |s.jobs|
      ensures |Lineage(s, origin)| <= m + 1
    {
      LineageIsShort(s, origin, m);
    }
  }
}
