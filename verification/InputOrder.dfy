/**
  Order of input on the wire, on top of the accounting in InputGate.

  inputMu belongs to the session object, and a reattaching wrapper installs a
  new session object. Order therefore depends on whether some thread is still
  busy under the old lock when that happens.
 */
module InputOrder {
  import opened Options
  import opened InputGate
  import opened Text

  // The thread has nothing left to do but to unlock.
  predicate Quiet(th: Thread) {
    th.Done? || (th.Holding? && th.stage == Release)
  }

  // Nobody is between looking up the session object and being done with it.
  ghost predicate Settled(s: State) {
    forall th <- s.threads :: Quiet(th)
  }

  // The wrapper reattaches only while everything is settled.
  ghost predicate Orderly(s: State, step: Step) {
    step.Reattach? ==> Settled(s)
  }

  ghost predicate OrderlyRun(s: State, steps: seq<Step>)
    decreases |steps|
  {
    steps == [] || (Enabled(s, steps[0]) && Orderly(s, steps[0]) && OrderlyRun(Apply(s, steps[0]), steps[1..]))
  }

  // --- the line of waiting input ---------------------------------------------------

  ghost function Hands(threads: seq<Thread>): seq<Input> {
    if threads == [] then [] else Hands(threads[..|threads| - 1]) + Work(threads[|threads| - 1])
  }

  // The pending queue, then what the lock holder has in hand.
  ghost function Line(s: State): seq<Input> {
    s.pending + Hands(s.threads)
  }

  ghost function FlatInput(q: seq<Input>): string {
    if q == [] then "" else FlatInput(q[..|q| - 1]) + q[|q| - 1].text
  }

  ghost function FlatSent(wire: seq<Sent>): string {
    if wire == [] then "" else FlatSent(wire[..|wire| - 1]) + wire[|wire| - 1].text
  }

  ghost function FlatAccepted(subs: seq<Submission>): string {
    if subs == [] then "" else FlatAccepted(subs[..|subs| - 1]) + subs[|subs| - 1].text
  }

  // What was sent came in order, before what still waits; what was dropped is
  // older than what still waits; all tickets are below n.
  ghost predicate Sorted(wire: seq<Sent>, dropped: seq<Input>, line: seq<Input>, n: nat) {
    && (forall i, j | 0 <= i < j < |wire| :: wire[i].ticket <= wire[j].ticket)
    && (forall i, j | 0 <= i < |wire| && 0 <= j < |line| :: wire[i].ticket <= line[j].ticket)
    && (forall i, j | 0 <= i < |dropped| && 0 <= j < |line| :: dropped[i].ticket < line[j].ticket)
    && (forall i, j | 0 <= i < j < |line| :: line[i].ticket < line[j].ticket)
    && (forall i | 0 <= i < |wire| :: wire[i].ticket < n)
    && (forall i | 0 <= i < |dropped| :: dropped[i].ticket < n)
    && (forall i | 0 <= i < |line| :: line[i].ticket < n)
  }

  // Only the newest session object is in use; whoever sends has the queue empty.
  ghost predicate Calm(s: State) {
    && (forall th <- s.threads :: Quiet(th) || th.session == |s.sessions| - 1)
    && (forall th <- s.threads :: th.Holding? && th.stage in {First, Second, Store} ==> s.pending == [])
  }

  ghost predicate InOrder(s: State) {
    && Calm(s)
    && Sorted(s.wire, s.dropped, Line(s), |s.accepted|)
    && (s.dropped == [] ==> FlatSent(s.wire) + FlatInput(Line(s)) == FlatAccepted(s.accepted))
  }

  // --- lemmas about the line ---------------------------------------------------------

  lemma {:induction false} NoHands(threads: seq<Thread>)
    requires forall th <- threads :: Work(th) == []
    ensures Hands(threads) == []
  {
    if threads != [] {
      NoHands(threads[..|threads| - 1]);
    }
  }

  lemma {:induction false} OneHand(threads: seq<Thread>, i: nat)
    requires i < |threads| && forall j | 0 <= j < |threads| && j != i :: Work(threads[j]) == []
    ensures Hands(threads) == Work(threads[i])
  {
    var n := |threads| - 1;
    if i < n {
      OneHand(threads[..n], i);
    } else {
      NoHands(threads[..n]);
    }
  }

  lemma {:induction false} FlatInputConcat(p: seq<Input>, q: seq<Input>)
    ensures FlatInput(p + q) == FlatInput(p) + FlatInput(q)
  {
    if q == [] {
      assert p + q == p;
    } else {
      var n := |q| - 1;
      assert (p + q)[..|p| + n] == p + q[..n];
      FlatInputConcat(p, q[..n]);
    }
  }

  lemma {:induction false} FlatInputOne(x: Input)
    ensures FlatInput([x]) == x.text
  {
    assert [x][..0] == [];
  }

  // A busy lock holder is the only one with anything in hand.
  lemma {:induction false} SoleHolder(s: State, i: nat)
    requires Shape(s) && Calm(s) && i < |s.threads| && s.threads[i].Holding? && !Quiet(s.threads[i])
    ensures forall j | 0 <= j < |s.threads| && j != i :: Work(s.threads[j]) == []
    ensures Line(s) == s.pending + s.threads[i].work
  {
    forall j | 0 <= j < |s.threads| && j != i
      ensures Work(s.threads[j]) == []
    {
      assert ThreadFits(s, s.threads[j]);
      assert s.threads[i] in s.threads && s.threads[j] in s.threads;
      assert !IsHolder(s.threads[j], s.threads[i].session);
    }
    OneHand(s.threads, i);
  }

  // --- steps keep the order -----------------------------------------------------------

  ghost predicate NobodySends(s: State, i: nat) {
    forall j | 0 <= j < |s.threads| && j != i :: s.threads[j].Holding? ==> s.threads[j].stage !in {First, Second, Store}
  }

  lemma {:induction false} AppendToLine(s: State, x: Input)
    requires x.ticket == |s.accepted| && Sorted(s.wire, s.dropped, s.pending, |s.accepted|)
    ensures Sorted(s.wire, s.dropped, s.pending + [x], |s.accepted| + 1)
    ensures FlatInput(s.pending + [x]) == FlatInput(s.pending) + x.text
  {
    assert (s.pending + [x])[..|s.pending|] == s.pending;
  }

  // Whoever finds the newest lock free finds nothing in anybody's hands.
  lemma {:induction false} NothingInHand(s: State)
    requires Shape(s) && Calm(s) && Unlocked(s, |s.sessions| - 1)
    ensures forall j | 0 <= j < |s.threads| :: Work(s.threads[j]) == []
    ensures Hands(s.threads) == []
  {
    hide GateKept, Exclusive;
    forall j | 0 <= j < |s.threads|
      ensures Work(s.threads[j]) == []
    {
      assert ThreadFits(s, s.threads[j]) && s.threads[j] in s.threads;
      assert !IsHolder(s.threads[j], |s.sessions| - 1);
    }
    NoHands(s.threads);
  }

  lemma {:induction false} LockKeepsOrder(s: State, i: nat)
    requires Shape(s) && InOrder(s) && Enabled(s, Lock(i))
    ensures InOrder(GetLock(s, i))
  {
    hide Sorted, FlatInput, FlatSent, Shape, Hands;
    var th, s' := s.threads[i], GetLock(s, i);
    assert th in s.threads;
    NothingInHand(s);
    OneHand(s'.threads, i);
    assert Line(s) == s.pending;
    if th.flush {
      assert Line(s') == s.pending;
    } else {
      var x := Input(|s.accepted|, th.text);
      AppendToLine(s, x);
      assert Line(s') == s.pending + [x];
    }
  }

  lemma {:induction false} HandsSame(threads: seq<Thread>, i: nat, th: Thread)
    requires i < |threads| && Work(th) == Work(threads[i])
    ensures Hands(threads[i := th]) == Hands(threads)
  {
    var n := |threads| - 1;
    if i < n {
      HandsSame(threads[..n], i, th);
      assert threads[i := th][..n] == threads[..n][i := th];
    } else {
      assert threads[i := th][..n] == threads[..n];
    }
  }

  // Cutting the oldest entries off the line.
  lemma {:induction false} CutLine(wire: seq<Sent>, dropped: seq<Input>, line: seq<Input>, n: nat)
    requires Sorted(wire, dropped, line, n)
    ensures Sorted(wire, dropped + Oldest(line), Newest(line), n)
    ensures dropped + Oldest(line) == [] ==> dropped == [] && Newest(line) == line
  {
    if |line| > MAX_PENDING {
      CutLineAt(wire, dropped, line, n, |line| - MAX_PENDING);
    } else {
      assert dropped + Oldest(line) == dropped;
    }
  }

  lemma {:induction false} CutLineAt(wire: seq<Sent>, dropped: seq<Input>, line: seq<Input>, n: nat, k: nat)
    requires Sorted(wire, dropped, line, n) && k <= |line|
    ensures Sorted(wire, dropped + line[..k], line[k..], n)
  {
  }

  // The head of the line goes out, or all of it but `rest`.
  lemma {:induction false} SendHead(wire: seq<Sent>, dropped: seq<Input>, line: seq<Input>, n: nat, c: Sent, rest: Input)
    requires Sorted(wire, dropped, line, n) && line != [] && c.ticket == rest.ticket == line[0].ticket
    ensures Sorted(wire + [c], dropped, line[1..], n)
    ensures Sorted(wire + [c], dropped, [rest] + line[1..], n)
  {
  }

  lemma {:induction false} SendHeadText(wire: seq<Sent>, line: seq<Input>, c: Sent, rest: seq<Input>)
    requires line != [] && (rest == [] || |rest| == 1)
    requires c.text + (if rest == [] then "" else rest[0].text) == line[0].text
    ensures FlatSent(wire + [c]) + FlatInput(rest + line[1..]) == FlatSent(wire) + FlatInput(line)
  {
    hide FlatInput;
    assert line == [line[0]] + line[1..];
    FlatInputConcat([line[0]], line[1..]);
    FlatInputConcat(rest, line[1..]);
    FlatInputOne(line[0]);
    assert rest != [] ==> rest == [rest[0]];
    if rest == [] { assert rest + line[1..] == line[1..]; } else { FlatInputOne(rest[0]); }
    assert (wire + [c])[..|wire|] == wire;
  }

  // An empty head needs no sending.
  lemma {:induction false} SkipHead(wire: seq<Sent>, dropped: seq<Input>, line: seq<Input>, n: nat)
    requires Sorted(wire, dropped, line, n) && line != [] && line[0].text == ""
    ensures Sorted(wire, dropped, line[1..], n) && FlatInput(line[1..]) == FlatInput(line)
  {
    hide FlatInput;
    assert line == [line[0]] + line[1..];
    FlatInputConcat([line[0]], line[1..]);
    FlatInputOne(line[0]);
  }

  lemma {:induction false} RunEffect(s: State, i: nat, ok: bool)
    requires Enabled(s, Run(i, ok)) && !Quiet(s.threads[i])
    requires ThreadFits(s, s.threads[i])
    requires s.threads[i].stage in {First, Second, Store} ==> s.pending == []
    ensures var s' := RunThread(s, i, ok);
            && |s'.threads| == |s.threads| && s'.threads == s.threads[i := s'.threads[i]] && s'.sessions == s.sessions
            && s'.threads[i].Holding? && s'.threads[i].session == s.threads[i].session
            && (s'.threads[i].stage in {First, Second, Store} ==> s'.pending == [])
  {
    hide HasSuffix;
  }

  lemma {:induction false} RunKeepsCalm(s: State, i: nat, ok: bool)
    requires Shape(s) && Calm(s) && Enabled(s, Run(i, ok)) && !Quiet(s.threads[i])
    ensures Calm(RunThread(s, i, ok))
    ensures Line(s) == s.pending + s.threads[i].work
    ensures Line(RunThread(s, i, ok)) == RunThread(s, i, ok).pending + Work(RunThread(s, i, ok).threads[i])
    ensures s.threads[i].stage in {First, Second, Store} ==> s.pending == []
  {
    hide Hands, RunThread, GateKept;
    var s' := RunThread(s, i, ok);
    assert s.threads[i] in s.threads && ThreadFits(s, s.threads[i]);
    RunEffect(s, i, ok);
    SoleHolder(s, i);
    forall j | 0 <= j < |s.threads| && j != i
      ensures s.threads[j].Holding? ==> s.threads[j].stage !in {First, Second, Store}
    {
      assert ThreadFits(s, s.threads[j]);
    }
    OneHand(s'.threads, i);
  }

  // The queue and the hand either trade entries or are put back together.
  lemma {:induction false} QueueEffect(s: State, i: nat, ok: bool)
    requires Enabled(s, Run(i, ok)) && s.threads[i].stage in {Decide, Drain, Store} && ThreadFits(s, s.threads[i])
    requires s.threads[i].stage == Store ==> s.pending == []
    ensures var s', line := RunThread(s, i, ok), s.pending + s.threads[i].work;
            && s'.wire == s.wire && s'.accepted == s.accepted && i < |s'.threads|
            && ((s'.dropped == s.dropped && s'.pending + Work(s'.threads[i]) == line)
                || (s'.dropped == s.dropped + Oldest(line) && s'.pending + Work(s'.threads[i]) == Newest(line)))
  {
    var th := s.threads[i];
    var line := s.pending + th.work;
    match th.stage
    case Drain => assert line == s.pending;
    case Decide =>
      if (!th.bypass && Gated(s.sessions[th.session], s.now)) || s.pending != [] {
      }
    case Store =>
      assert th.work + s.pending == line == th.work;
  }

  lemma {:induction false} QueueKeepsOrder(s: State, i: nat, ok: bool)
    requires Shape(s) && InOrder(s) && Enabled(s, Run(i, ok)) && s.threads[i].stage in {Decide, Drain, Store}
    ensures InOrder(RunThread(s, i, ok))
  {
    hide Calm, Sorted, Line, FlatInput, Shape, RunThread;
    RunKeepsCalm(s, i, ok);
    ShapeOf(s, i);
    QueueEffect(s, i, ok);
    CutLine(s.wire, s.dropped, Line(s), |s.accepted|);
  }

  datatype Outcome = Kept | Skipped | Whole(c: Sent) | Part(c: Sent, rest: Input)

  // The head of the work stays, is empty, is sent, or is sent in part.
  lemma {:induction false} SendEffect(s: State, i: nat, ok: bool) returns (o: Outcome)
    requires Enabled(s, Run(i, ok)) && s.threads[i].stage in {First, Second}
    ensures var work, s' := s.threads[i].work, RunThread(s, i, ok);
            && s'.pending == s.pending && s'.dropped == s.dropped && s'.accepted == s.accepted && i < |s'.threads|
            && match o
               case Kept => s'.wire == s.wire && Work(s'.threads[i]) == work
               case Skipped => s'.wire == s.wire && Work(s'.threads[i]) == work[1..] && work[0].text == ""
               case Whole(c) =>
                 s'.wire == s.wire + [c] && Work(s'.threads[i]) == work[1..] && c.ticket == work[0].ticket && c.text == work[0].text
               case Part(c, rest) =>
                 && s'.wire == s.wire + [c] && Work(s'.threads[i]) == [rest] + work[1..]
                 && c.ticket == rest.ticket == work[0].ticket && c.text + rest.text == work[0].text
  {
    hide HasSuffix;
    var th := s.threads[i];
    var x := th.work[0];
    if !ok || (th.stage == First && th.conn.None?) {
      return if th.stage == First && x.text == "" then Skipped else Kept;
    }
    if th.stage == Second {
      return Whole(Sent(x.ticket, x.text, GateActive(s)));
    }
    var (first, delayed) := SplitBracketedPasteSubmit(x.text);
    var c := Sent(x.ticket, first, GateActive(s));
    return if delayed == "" then Whole(c) else Part(c, Input(x.ticket, delayed));
  }

  // The head of the line goes out, or all of it but `rest`.
  lemma {:induction false} SentInOrder(s: State, s': State, c: Sent, rest: seq<Input>)
    requires InOrder(s) && Calm(s') && Line(s) != []
    requires s'.wire == s.wire + [c] && s'.dropped == s.dropped && s'.accepted == s.accepted
    requires Line(s') == rest + Line(s)[1..] && c.ticket == Line(s)[0].ticket
    requires rest == [] || (|rest| == 1 && rest[0].ticket == c.ticket)
    requires c.text + (if rest == [] then "" else rest[0].text) == Line(s)[0].text
    ensures InOrder(s')
  {
    hide Calm, Sorted, Line, FlatInput, FlatSent;
    SendHeadText(s.wire, Line(s), c, rest);
    if rest == [] {
      assert Line(s') == Line(s)[1..];
      SendHead(s.wire, s.dropped, Line(s), |s.accepted|, c, Line(s)[0]);
    } else {
      assert rest == [rest[0]];
      SendHead(s.wire, s.dropped, Line(s), |s.accepted|, c, rest[0]);
    }
  }

  lemma {:induction false} NothingSent(s: State, s': State)
    requires InOrder(s) && Calm(s')
    requires s'.wire == s.wire && s'.dropped == s.dropped && s'.accepted == s.accepted
    requires Line(s') == Line(s) || (Line(s) != [] && Line(s)[0].text == "" && Line(s') == Line(s)[1..])
    ensures InOrder(s')
  {
    hide Calm, Sorted, Line, FlatInput, FlatSent;
    if Line(s') != Line(s) {
      SkipHead(s.wire, s.dropped, Line(s), |s.accepted|);
    }
  }

  lemma {:induction false} SendKeepsOrder(s: State, i: nat, ok: bool)
    requires Shape(s) && InOrder(s) && Enabled(s, Run(i, ok)) && s.threads[i].stage in {First, Second}
    ensures InOrder(RunThread(s, i, ok))
  {
    hide Calm, Sorted, Line, FlatInput, FlatSent, Shape, RunThread, FlatAccepted, HasSuffix;
    RunKeepsCalm(s, i, ok);
    var s', line := RunThread(s, i, ok), s.threads[i].work;
    assert Line(s) == line;
    var o := SendEffect(s, i, ok);
    assert Line(s') == Work(s'.threads[i]);
    match o
    case Kept => NothingSent(s, s');
    case Skipped => NothingSent(s, s');
    case Whole(c) =>
      assert [] + line[1..] == line[1..] && c.text + "" == c.text;
      SentInOrder(s, s', c, []);
    case Part(c, rest) => SentInOrder(s, s', c, [rest]);
  }

  lemma {:induction false} ReleaseKeepsOrder(s: State, i: nat, ok: bool)
    requires Shape(s) && InOrder(s) && Enabled(s, Run(i, ok)) && s.threads[i].stage == Release
    ensures InOrder(RunThread(s, i, ok))
  {
    hide Sorted, FlatInput, Hands, GateKept, Exclusive;
    ShapeOf(s, i);
    HandsSame(s.threads, i, Done);
  }

  lemma {:induction false} StartKeepsOrder(s: State, th: Thread)
    requires Shape(s) && InOrder(s) && s.current.Some? && th.Waiting? && th.session == s.current.value
    ensures InOrder(s.(threads := s.threads + [th]))
  {
    hide Sorted, FlatInput;
    var s' := s.(threads := s.threads + [th]);
    assert s'.threads[..|s.threads|] == s.threads;
    assert Line(s') == Line(s);
    assert forall u <- s'.threads :: u == th || u in s.threads;
  }

  lemma {:induction false} DismissKeepsOrder(s: State)
    requires InOrder(s)
    ensures InOrder(Apply(s, Dismiss))
  {
    hide FlatInput, Hands, Sorted;
    var s', hands := Apply(s, Dismiss), Hands(s.threads);
    CutLineAt(s.wire, s.dropped, s.pending + hands, |s.accepted|, |s.pending|);
    assert (s.pending + hands)[..|s.pending|] == s.pending && (s.pending + hands)[|s.pending|..] == hands;
    assert Line(s') == hands;
    if s'.dropped == [] {
      assert s.pending == [] && s.dropped == [];
      assert Line(s) == hands;
    }
  }

  lemma {:induction false} ReattachKeepsOrder(s: State, conn: nat)
    requires Shape(s) && InOrder(s) && Enabled(s, Reattach(conn)) && Settled(s)
    ensures InOrder(Apply(s, Reattach(conn)))
  {
    hide Sorted, FlatInput;
    assert forall th <- s.threads :: Quiet(th);
  }

  lemma {:induction false} StepKeepsOrder(s: State, step: Step)
    requires Shape(s) && InOrder(s) && Enabled(s, step) && Orderly(s, step)
    ensures InOrder(Apply(s, step))
  {
    hide InOrder, Shape, GetLock, RunThread;
    match step
    case Lock(i) => LockKeepsOrder(s, i);
    case Run(i, ok) =>
      if s.threads[i].stage in {First, Second} {
        SendKeepsOrder(s, i, ok);
      } else if s.threads[i].stage == Release {
        ReleaseKeepsOrder(s, i, ok);
      } else {
        QueueKeepsOrder(s, i, ok);
      }
    case Dismiss => DismissKeepsOrder(s);
    case Reattach(conn) => ReattachKeepsOrder(s, conn);
    case StartSubmit(conn, text, bypass) =>
      if s.current.Some? {
        StartKeepsOrder(s, Waiting(s.current.value, false, conn, text, bypass));
      }
    case StartFlush =>
      if s.current.Some? {
        StartKeepsOrder(s, Waiting(s.current.value, true, None, "", false));
      }
    case Tick(_) | Disconnect | ClearGate => EnvironmentKeepsOrder(s, step);
  }

  lemma {:induction false} EnvironmentKeepsOrder(s: State, step: Step)
    requires InOrder(s) && (step.Disconnect? || step.ClearGate? || step.Tick?)
    ensures InOrder(Apply(s, step))
  {
    hide Sorted, FlatInput;
    assert Line(Apply(s, step)) == Line(s);
  }

  // While wrappers reattach only when things are settled, order is kept in every
  // run: what was sent came in submission order, ahead of everything that still
  // waits; only older entries are ever dropped; and as long as nothing was, what
  // was sent, the pending queue and what is in hand make up exactly the
  // submissions in the order in which they got hold of inputMu.
  lemma {:induction false} OrderlyRunsKeepOrder(s: State, steps: seq<Step>)
    requires Inv(s) && InOrder(s) && OrderlyRun(s, steps)
    ensures ValidRun(s, steps) && Inv(After(s, steps)) && InOrder(After(s, steps))
    decreases |steps|
  {
    hide InOrder, Inv;
    if steps != [] {
      StepKeepsInv(s, steps[0]);
      assert Shape(s) by { InvShape(s); }
      StepKeepsOrder(s, steps[0]);
      OrderlyRunsKeepOrder(Apply(s, steps[0]), steps[1..]);
    }
  }

  lemma {:induction false} InvShape(s: State)
    requires Inv(s)
    ensures Shape(s)
  {
  }

  lemma {:induction false} InitialStateInOrder(s: State)
    requires IsInit(s)
    ensures Inv(s) && InOrder(s)
  {
    InitialState(s);
    assert InOrder(s) by { NothingOutOfOrder(s); }
  }

  lemma {:induction false} NothingOutOfOrder(s: State)
    requires s.pending == [] && s.threads == [] && s.accepted == [] && s.wire == [] && s.dropped == []
    ensures InOrder(s)
  {
    assert Line(s) == [];
  }
}
