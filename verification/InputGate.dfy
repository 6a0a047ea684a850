/**
  The input gate of internal/hub/input_gate.go: user input on its way to the
  wrapper of one session, through a gate, a pending queue and a connection
  that may fail at any send.

  Submitters and flushers are threads. A step of the machine below is one
  section the code runs under sessionsMu, one send, or one lock operation on
  inputMu, so any number of threads may be anywhere in between.
 */
module InputGate {
  import opened Options
  import opened Text

  const MAX_PENDING: nat := 100
  const GATE_MAX_AGE: nat := 90_000_000_000 // nanoseconds
  const PASTE_END := "\U{1B}[201~"

  // --- the pieces the operations share -----------------------------------------

  // A bracketed paste is sent in two parts: the paste, then its carriage return.
  function SplitBracketedPasteSubmit(text: string): (r: (string, string))
    ensures r.0 + r.1 == text
    ensures r.1 == "" || (r.1 == "\r" && HasSuffix(r.0, PASTE_END))
    ensures r.1 == "\r" <==> HasSuffix(text, "\U{1B}[201~\r")
  {
    if HasSuffix(text, PASTE_END + "\r") then
      assert text == text[..|text| - |PASTE_END + "\r"|] + (PASTE_END + "\r");
      assert text[..|text| - 1] == text[..|text| - |PASTE_END + "\r"|] + PASTE_END;
      (text[..|text| - 1], text[|text| - 1..])
    else
      (text, "")
  }

  // The newest entries that fit, and the oldest ones that do not.
  function Newest<T>(q: seq<T>): (r: seq<T>)
    ensures |r| <= MAX_PENDING && Oldest(q) + r == q
    ensures |q| <= MAX_PENDING ==> r == q
    ensures |q| > 100 ==> |r| == 100
  {
    if |q| > MAX_PENDING then q[|q| - MAX_PENDING..] else q
  }

  function Oldest<T>(q: seq<T>): seq<T> {
    if |q| > MAX_PENDING then q[..|q| - MAX_PENDING] else []
  }

  // --- the state ------------------------------------------------------------------

  // A submission or what is left of it. Its ticket is its place in the order
  // in which submissions got hold of inputMu.
  datatype Input = Input(ticket: nat, text: string)

  // One successful send, and whether the injection gate was active then.
  datatype Sent = Sent(ticket: nat, text: string, gated: bool)

  datatype Submission = Submission(text: string, bypass: bool)

  // Every session object has an inputMu of its own.
  datatype Session = Session(injectPending: bool, gateAt: int)

  datatype Stage =
    | Decide  // submitter: gated, or something pending?
    | Drain   // flusher: take the pending queue
    | First   // send the first part of the head
    | Second  // send its delayed carriage return
    | Store   // put back what could not be sent
    | Release // unlock inputMu

  datatype Thread =
    | Waiting(session: nat, flush: bool, conn: Option<nat>, text: string, bypass: bool)
    | Holding(session: nat, flush: bool, conn: Option<nat>, work: seq<Input>, stage: Stage, bypass: bool)
    | Done

  datatype State = State(
    now: int,
    sessions: seq<Session>,
    current: Option<nat>,
    wrapper: Option<nat>,
    pending: seq<Input>,
    threads: seq<Thread>,
    // What happened so far.
    accepted: seq<Submission>,
    wire: seq<Sent>,
    dropped: seq<Input>)

  function Gated(ses: Session, now: int): (g: bool)
    ensures g <==> ses.injectPending && now < ses.gateAt + 90_000_000_000
  {
    ses.injectPending && now - ses.gateAt < GATE_MAX_AGE
  }

  predicate GateActive(s: State) {
    s.current.Some? && s.current.value < |s.sessions| && Gated(s.sessions[s.current.value], s.now)
  }

  predicate IsHolder(th: Thread, session: nat) {
    th.Holding? && th.session == session
  }

  predicate Unlocked(s: State, session: nat) {
    forall i | 0 <= i < |s.threads| :: !IsHolder(s.threads[i], session)
  }

  // --- the steps --------------------------------------------------------------------

  datatype Step =
    | Tick(d: nat)
    | Disconnect
    | Reattach(newConn: nat)
    | Dismiss
    | ClearGate
    | StartSubmit(conn: Option<nat>, text: string, bypass: bool)
    | StartFlush
    | Lock(i: nat)
    | Run(i: nat, ok: bool)

  predicate Enabled(s: State, step: Step) {
    match step
    // Two wrappers may reattach at once: the second replaces the first.
    case Tick(_) | Disconnect | Reattach(_) | Dismiss | ClearGate | StartSubmit(_, _, _) | StartFlush => true
    case Lock(i) => i < |s.threads| && s.threads[i].Waiting? && Unlocked(s, s.threads[i].session)
    case Run(i, _) =>
      && i < |s.threads| && s.threads[i].Holding? && s.threads[i].session < |s.sessions|
      && (s.threads[i].stage in {Decide, First, Second, Store} ==> s.threads[i].work != [])
  }

  function Apply(s: State, step: Step): State
    requires Enabled(s, step)
  {
    match step
    case Tick(d) => s.(now := s.now + d)
    case Disconnect => s.(wrapper := None)
    // A wrapper that comes back gets a fresh session object, lock included.
    case Reattach(newConn) =>
      s.(sessions := s.sessions + [Session(false, 0)], current := Some(|s.sessions|), wrapper := Some(newConn))
    case Dismiss => s.(current := None, wrapper := None, pending := [], dropped := s.dropped + s.pending)
    case ClearGate =>
      if s.current.Some? && s.current.value < |s.sessions| then
        s.(sessions := s.sessions[s.current.value := s.sessions[s.current.value].(injectPending := false)])
      else s
    case StartSubmit(conn, text, bypass) =>
      if s.current.None? then s
      else s.(threads := s.threads + [Waiting(s.current.value, false, conn, text, bypass)])
    case StartFlush =>
      if s.current.None? then s
      else s.(threads := s.threads + [Waiting(s.current.value, true, None, "", false)])
    case Lock(i) => GetLock(s, i)
    case Run(i, ok) => RunThread(s, i, ok)
  }

  function GetLock(s: State, i: nat): State
    requires i < |s.threads| && s.threads[i].Waiting?
  {
    var th := s.threads[i];
    if th.flush then
      s.(threads := s.threads[i := Holding(th.session, true, None, [], Drain, false)])
    else
      s.(threads := s.threads[i := Holding(th.session, false, th.conn, [Input(|s.accepted|, th.text)], Decide, th.bypass)],
         accepted := s.accepted + [Submission(th.text, th.bypass)])
  }

  function RunThread(s: State, i: nat, ok: bool): State
    requires Enabled(s, Run(i, ok))
  {
    var th := s.threads[i];
    match th.stage
    case Decide =>
      if (!th.bypass && Gated(s.sessions[th.session], s.now)) || s.pending != [] then PutBack(s, i, s.pending + th.work)
      else s.(threads := s.threads[i := th.(stage := First)])
    case Drain =>
      if Gated(s.sessions[th.session], s.now) || s.pending == [] then s.(threads := s.threads[i := th.(stage := Release)])
      else
        s.(threads := s.threads[i := th.(work := s.pending, conn := s.wrapper, stage := if s.wrapper.None? then Store else First)],
           pending := [])
    case First =>
      var x := th.work[0];
      var (first, delayed) := SplitBracketedPasteSubmit(x.text);
      if th.conn.None? || !ok then
        if x.text == "" then Advance(s, i) else s.(threads := s.threads[i := th.(stage := Store)])
      else
        var s' := s.(wire := s.wire + [Sent(x.ticket, first, GateActive(s))]);
        if delayed == "" then Advance(s', i)
        else s'.(threads := s.threads[i := th.(work := [Input(x.ticket, delayed)] + th.work[1..], stage := Second)])
    case Second =>
      var x := th.work[0];
      if !ok then s.(threads := s.threads[i := th.(stage := Store)])
      else Advance(s.(wire := s.wire + [Sent(x.ticket, x.text, GateActive(s))]), i)
    case Store =>
      PutBack(s, i, if th.flush then th.work + s.pending else s.pending + th.work)
    case Release =>
      s.(threads := s.threads[i := Done])
  }

  // The head has been sent: on to the next entry.
  function Advance(s: State, i: nat): State
    requires i < |s.threads| && s.threads[i].Holding? && s.threads[i].work != []
  {
    var rest := s.threads[i].work[1..];
    s.(threads := s.threads[i := s.threads[i].(work := rest, stage := if rest == [] then Release else First)])
  }

  // The queue becomes q, as far as it fits.
  function PutBack(s: State, i: nat, q: seq<Input>): State
    requires i < |s.threads| && s.threads[i].Holding?
  {
    s.(pending := Newest(q), dropped := s.dropped + Oldest(q),
       threads := s.threads[i := s.threads[i].(work := [], stage := Release)])
  }

  // --- runs ------------------------------------------------------------------------

  predicate IsInit(s: State) {
    && |s.sessions| == 1 && s.current == Some(0)
    && s.pending == [] && s.threads == [] && s.accepted == [] && s.wire == [] && s.dropped == []
  }

  ghost predicate ValidRun(s: State, steps: seq<Step>)
    decreases |steps|
  {
    steps == [] || (Enabled(s, steps[0]) && ValidRun(Apply(s, steps[0]), steps[1..]))
  }

  ghost function After(s: State, steps: seq<Step>): State
    requires ValidRun(s, steps)
    decreases |steps|
  {
    if steps == [] then s else After(Apply(s, steps[0]), steps[1..])
  }

  // --- what holds in every run ----------------------------------------------------------

  ghost function Work(th: Thread): seq<Input> {
    if th.Holding? then th.work else []
  }

  ghost function InHand(threads: seq<Thread>): multiset<Input> {
    if threads == [] then multiset{} else InHand(threads[..|threads| - 1]) + multiset(Work(threads[|threads| - 1]))
  }

  // Everything accepted and not sent: pending, dropped, or in some thread's hands.
  ghost function Unsent(s: State): multiset<Input> {
    multiset(s.dropped) + multiset(s.pending) + InHand(s.threads)
  }

  ghost function SentText(wire: seq<Sent>, ticket: nat): string {
    if wire == [] then ""
    else SentText(wire[..|wire| - 1], ticket) + (if wire[|wire| - 1].ticket == ticket then wire[|wire| - 1].text else "")
  }

  // Every submission is, byte for byte, what was sent of it followed by its one
  // unsent rest, if there is one.
  ghost predicate Accounted(unsent: multiset<Input>, wire: seq<Sent>, accepted: seq<Submission>) {
    && (forall x <- unsent :: unsent[x] == 1 && RestFits(wire, accepted, x))
    && (forall x, y | x in unsent && y in unsent && x.ticket == y.ticket :: x == y)
    && (forall t: nat | t < |accepted| && NoRest(unsent, t) :: SentText(wire, t) == accepted[t].text)
    && (forall c <- wire :: c.ticket < |accepted|)
  }

  ghost predicate RestFits(wire: seq<Sent>, accepted: seq<Submission>, x: Input) {
    x.ticket < |accepted| && SentText(wire, x.ticket) + x.text == accepted[x.ticket].text
  }

  ghost predicate NoRest(unsent: multiset<Input>, t: nat) {
    forall x <- unsent :: x.ticket != t
  }

  lemma {:induction false} InHandUpdate(threads: seq<Thread>, i: nat, th: Thread)
    requires i < |threads|
    ensures InHand(threads[i := th]) + multiset(Work(threads[i])) == InHand(threads) + multiset(Work(th))
  {
    var n := |threads| - 1;
    if i < n {
      InHandUpdate(threads[..n], i, th);
      InHandUpdateStep(threads, i, th);
    } else {
      hide InHand;
      assert threads[i := th] == threads[..n] + [th] && threads == threads[..n] + [threads[n]];
      InHandLast(threads[..n], th);
      InHandLast(threads[..n], threads[n]);
    }
  }

  lemma {:induction false} InHandLast(threads: seq<Thread>, th: Thread)
    ensures InHand(threads + [th]) == InHand(threads) + multiset(Work(th))
  {
    assert (threads + [th])[..|threads|] == threads;
  }

  lemma {:induction false} InHandUpdateStep(threads: seq<Thread>, i: nat, th: Thread)
    requires i < |threads| - 1
    requires var front := threads[..|threads| - 1];
             InHand(front[i := th]) + multiset(Work(front[i])) == InHand(front) + multiset(Work(th))
    ensures InHand(threads[i := th]) + multiset(Work(threads[i])) == InHand(threads) + multiset(Work(th))
  {
    hide InHand, Work;
    var front, last := threads[..|threads| - 1], threads[|threads| - 1];
    assert threads[i := th] == front[i := th] + [last] && threads == front + [last];
    InHandLast(front[i := th], last);
    InHandLast(front, last);
    AddToBoth(InHand(front[i := th]), multiset(Work(threads[i])), InHand(front), multiset(Work(th)), multiset(Work(last)));
  }

  lemma {:induction false} AddToBoth(a: multiset<Input>, b: multiset<Input>, c: multiset<Input>, d: multiset<Input>, e: multiset<Input>)
    requires a + b == c + d
    ensures (a + e) + b == (c + e) + d
  {
    assert (a + e) + b == (a + b) + e;
  }

  lemma {:induction false} SentTextAppend(wire: seq<Sent>, c: Sent, t: nat)
    ensures SentText(wire + [c], t) == SentText(wire, t) + (if t == c.ticket then c.text else "")
  {
    assert (wire + [c])[..|wire|] == wire;
  }

  // Accounted, but for one ticket that has no rest among the others.
  ghost predicate AccountedBut(others: multiset<Input>, wire: seq<Sent>, accepted: seq<Submission>, ticket: nat) {
    && (forall y <- others :: y.ticket != ticket && others[y] == 1 && RestFits(wire, accepted, y))
    && (forall x, y | x in others && y in others && x.ticket == y.ticket :: x == y)
    && (forall t: nat | t < |accepted| && t != ticket && NoRest(others, t) :: SentText(wire, t) == accepted[t].text)
    && (forall c <- wire :: c.ticket < |accepted|)
  }

  lemma {:induction false} OtherRestsFit(unsent: multiset<Input>, wire: seq<Sent>, accepted: seq<Submission>, x: Input, c: Sent)
    requires Accounted(unsent, wire, accepted) && x in unsent && c.ticket == x.ticket
    ensures forall y <- unsent - multiset{x} :: y.ticket != x.ticket && (unsent - multiset{x})[y] == 1 && RestFits(wire + [c], accepted, y)
  {
    hide SentText;
    forall y | y in unsent - multiset{x}
      ensures y.ticket != x.ticket && (unsent - multiset{x})[y] == 1 && RestFits(wire + [c], accepted, y)
    {
      assert y in unsent && RestFits(wire, accepted, y);
      SentTextAppend(wire, c, y.ticket);
    }
  }

  // Something of the rest x goes out; nothing else is affected.
  lemma {:induction false} OthersUnaffected(unsent: multiset<Input>, wire: seq<Sent>, accepted: seq<Submission>, x: Input, c: Sent)
    requires Accounted(unsent, wire, accepted) && x in unsent && c.ticket == x.ticket
    ensures AccountedBut(unsent - multiset{x}, wire + [c], accepted, x.ticket)
    ensures x.ticket < |accepted| && SentText(wire + [c], x.ticket) == SentText(wire, x.ticket) + c.text
    ensures SentText(wire, x.ticket) + x.text == accepted[x.ticket].text
  {
    hide SentText;
    var others := unsent - multiset{x};
    assert RestFits(wire, accepted, x);
    SentTextAppend(wire, c, x.ticket);
    OtherRestsFit(unsent, wire, accepted, x, c);
    forall t: nat | t < |accepted| && t != x.ticket && NoRest(others, t)
      ensures SentText(wire + [c], t) == accepted[t].text
    {
      assert NoRest(unsent, t) by {
        forall y | y in unsent ensures y.ticket != t { assert y == x || y in others; }
      }
      SentTextAppend(wire, c, t);
    }
  }

  // A rest is sent in full.
  lemma {:induction false} AccountSent(unsent: multiset<Input>, wire: seq<Sent>, accepted: seq<Submission>, x: Input, c: Sent)
    requires Accounted(unsent, wire, accepted) && x in unsent
    requires c.ticket == x.ticket && x.text == c.text
    ensures Accounted(unsent - multiset{x}, wire + [c], accepted)
  {
    OthersUnaffected(unsent, wire, accepted, x, c);
    SentTextAppend(wire, c, x.ticket);
    assert RestFits(wire, accepted, x);
  }

  // A rest is sent in part.
  lemma {:induction false} AccountPartlySent(unsent: multiset<Input>, wire: seq<Sent>, accepted: seq<Submission>, x: Input, c: Sent, rest: Input)
    requires Accounted(unsent, wire, accepted) && x in unsent
    requires c.ticket == x.ticket == rest.ticket && x.text == c.text + rest.text
    ensures Accounted(unsent - multiset{x} + multiset{rest}, wire + [c], accepted)
  {
    hide Accounted, AccountedBut, SentText;
    OthersUnaffected(unsent, wire, accepted, x, c);
    assert (SentText(wire, x.ticket) + c.text) + rest.text == SentText(wire, x.ticket) + x.text;
    AddRest(unsent - multiset{x}, wire + [c], accepted, rest);
  }

  // A rest with a ticket of its own joins the others.
  lemma {:induction false} AddRest(others: multiset<Input>, wire: seq<Sent>, accepted: seq<Submission>, rest: Input)
    requires AccountedBut(others, wire, accepted, rest.ticket) && RestFits(wire, accepted, rest)
    ensures Accounted(others + multiset{rest}, wire, accepted)
  {
    var all := others + multiset{rest};
    assert rest !in others;
    assert forall y :: y in all <==> y in others || y == rest;
    assert forall t: nat :: NoRest(all, t) ==> NoRest(others, t);
    assert rest in all;
  }

  // An empty rest needs no sending.
  lemma {:induction false} AccountNothing(unsent: multiset<Input>, wire: seq<Sent>, accepted: seq<Submission>, x: Input)
    requires Accounted(unsent, wire, accepted) && x in unsent && x.text == ""
    ensures Accounted(unsent - multiset{x}, wire, accepted)
  {
    assert RestFits(wire, accepted, x);
    forall t: nat | t < |accepted| && NoRest(unsent - multiset{x}, t)
      ensures SentText(wire, t) == accepted[t].text
    {
      if t != x.ticket {
        assert NoRest(unsent, t) by {
          forall y | y in unsent ensures y.ticket != t { assert y == x || y in unsent - multiset{x}; }
        }
      }
    }
  }

  // A new submission takes the next ticket.
  lemma {:induction false} AccountAccepted(unsent: multiset<Input>, wire: seq<Sent>, accepted: seq<Submission>, sub: Submission)
    requires Accounted(unsent, wire, accepted)
    ensures Accounted(unsent + multiset{Input(|accepted|, sub.text)}, wire, accepted + [sub])
  {
    NotSentYet(wire, |accepted|);
    forall y | y in unsent
      ensures y.ticket != |accepted| && RestFits(wire, accepted + [sub], y)
    {
      assert RestFits(wire, accepted, y);
    }
    AddRest(unsent, wire, accepted + [sub], Input(|accepted|, sub.text));
  }

  lemma {:induction false} NotSentYet(wire: seq<Sent>, t: nat)
    requires forall c <- wire :: c.ticket < t
    ensures SentText(wire, t) == ""
  {
    if wire != [] {
      NotSentYet(wire[..|wire| - 1], t);
    }
  }

  // --- the shape of every reachable state ------------------------------------------------

  // A thread works on entries exactly while it has some to decide on or send.
  ghost predicate ThreadFits(s: State, th: Thread) {
    match th
    case Waiting(session, _, _, _, _) => session < |s.sessions|
    case Holding(session, flush, conn, work, stage, bypass) =>
      && session < |s.sessions|
      && (work != [] <==> stage in {Decide, First, Second, Store})
      && (stage == Decide ==> !flush) && (stage == Drain ==> flush)
      && (!flush && work != [] ==>
            |work| == 1 && work[0].ticket < |s.accepted| && s.accepted[work[0].ticket].bypass == bypass)
      && (stage == Second ==> work[0].text == "\r")
      && (stage in {First, Second} ==> (!flush && bypass) || !Gated(s.sessions[session], s.now))
    case Done => true
  }

  ghost predicate SessionsFit(s: State) {
    && |s.sessions| >= 1
    && (s.current.Some? ==> s.current.value == |s.sessions| - 1)
    && (forall n | 1 <= n < |s.sessions| :: !s.sessions[n].injectPending)
  }

  // No two threads hold the lock of one session object.
  ghost predicate Exclusive(threads: seq<Thread>) {
    forall i, j | 0 <= i < |threads| && 0 <= j < |threads| && i != j && threads[i].Holding? ::
      !IsHolder(threads[j], threads[i].session)
  }

  // While the gate is active only the initial prompt reaches the wire.
  ghost predicate GateKept(s: State) {
    forall c <- s.wire :: c.gated ==> c.ticket < |s.accepted| && s.accepted[c.ticket].bypass
  }

  ghost predicate Shape(s: State) {
    && SessionsFit(s)
    && (forall th <- s.threads :: ThreadFits(s, th))
    && Exclusive(s.threads)
    && |s.pending| <= MAX_PENDING
    && GateKept(s)
  }

  ghost predicate Inv(s: State) {
    Shape(s) && Accounted(Unsent(s), s.wire, s.accepted)
  }

  lemma {:induction false} ThreadStep(s: State, s': State, i: nat)
    requires Shape(s) && SessionsFit(s') && GateKept(s')
    requires i < |s.threads| == |s'.threads| && s'.threads == s.threads[i := s'.threads[i]]
    requires s'.sessions == s.sessions && s'.now == s.now && s.accepted <= s'.accepted && |s'.pending| <= MAX_PENDING
    requires ThreadFits(s', s'.threads[i])
    requires s'.threads[i].Holding? ==> s.threads[i].Holding? && s'.threads[i].session == s.threads[i].session
    ensures Shape(s')
  {
    forall th | th in s'.threads
      ensures ThreadFits(s', th)
    {
      var k :| 0 <= k < |s'.threads| && s'.threads[k] == th;
      if k != i {
        assert s.threads[k] in s.threads && ThreadFits(s, s.threads[k]);
      }
    }
  }

  // A thread that may send either finds the gate inactive or carries the
  // initial prompt.
  lemma {:induction false} SendKeepsGate(s: State, i: nat, text: string)
    requires Shape(s) && i < |s.threads| && s.threads[i].Holding? && s.threads[i].stage in {First, Second}
    ensures var work := s.threads[i].work;
            work != [] && GateKept(s.(wire := s.wire + [Sent(work[0].ticket, text, GateActive(s))]))
  {
    assert ThreadFits(s, s.threads[i]);
  }

  lemma {:induction false} SenderStaysFit(s: State, i: nat, ok: bool)
    requires Enabled(s, Run(i, ok)) && s.threads[i].stage in {First, Second} && ThreadFits(s, s.threads[i])
    ensures var s' := RunThread(s, i, ok);
            && s'.sessions == s.sessions && s'.current == s.current && s'.now == s.now
            && s'.accepted == s.accepted && s'.pending == s.pending
            && |s'.threads| == |s.threads| && s'.threads == s.threads[i := s'.threads[i]]
            && s'.threads[i].Holding? && s'.threads[i].session == s.threads[i].session
            && ThreadFits(s', s'.threads[i])
            && (s'.wire == s.wire
                || exists text :: s'.wire == s.wire + [Sent(s.threads[i].work[0].ticket, text, GateActive(s))])
  {
    hide HasSuffix;
  }

  lemma {:induction false} SendKeepsShape(s: State, i: nat, ok: bool)
    requires Shape(s) && Enabled(s, Run(i, ok)) && s.threads[i].stage in {First, Second}
    ensures Shape(RunThread(s, i, ok))
  {
    hide ThreadFits, GateActive, Exclusive, RunThread;
    var s' := RunThread(s, i, ok);
    ShapeOf(s, i);
    SenderStaysFit(s, i, ok);
    if s'.wire != s.wire {
      var text :| s'.wire == s.wire + [Sent(s.threads[i].work[0].ticket, text, GateActive(s))];
      SendKeepsGate(s, i, text);
    }
    ThreadStep(s, s', i);
  }

  lemma {:induction false} RunKeepsShape(s: State, i: nat, ok: bool)
    requires Shape(s) && Enabled(s, Run(i, ok))
    ensures Shape(RunThread(s, i, ok))
  {
    var th, s' := s.threads[i], RunThread(s, i, ok);
    if th.stage in {First, Second} {
      SendKeepsShape(s, i, ok);
    } else {
      assert ThreadFits(s, th);
      assert ThreadFits(s', s'.threads[i]);
      ThreadStep(s, s', i);
    }
  }

  lemma {:induction false} LockKeepsShape(s: State, i: nat)
    requires Shape(s) && Enabled(s, Lock(i))
    ensures Shape(GetLock(s, i))
  {
    var s' := GetLock(s, i);
    assert ThreadFits(s, s.threads[i]);
    forall th | th in s'.threads
      ensures ThreadFits(s', th)
    {
      var k :| 0 <= k < |s'.threads| && s'.threads[k] == th;
      if k != i {
        assert ThreadFits(s, s.threads[k]);
      }
    }
  }

  lemma {:induction false} StepKeepsShape(s: State, step: Step)
    requires Shape(s) && Enabled(s, step)
    ensures Shape(Apply(s, step))
  {
    match step
    case Lock(i) => LockKeepsShape(s, i);
    case Run(i, ok) => RunKeepsShape(s, i, ok);
    case _ =>
      var s' := Apply(s, step);
      forall th | th in s'.threads
        ensures ThreadFits(s', th)
      {
        assert th in s.threads ==> ThreadFits(s, th);
      }
  }

  // --- every byte is accounted for ----------------------------------------------------------

  // What one thread's step does to the unsent rests: `gone` leaves, `come` joins.
  lemma {:induction false} UnsentUpdate(s: State, s': State, i: nat, gone: multiset<Input>, come: multiset<Input>)
    requires i < |s.threads| == |s'.threads| && s'.threads == s.threads[i := s'.threads[i]]
    requires multiset(s'.dropped) + multiset(s'.pending) + multiset(Work(s'.threads[i])) + gone
          == multiset(s.dropped) + multiset(s.pending) + multiset(Work(s.threads[i])) + come
    ensures Unsent(s') + gone == Unsent(s) + come
  {
    InHandUpdate(s.threads, i, s'.threads[i]);
    var a, b := multiset(s.dropped) + multiset(s.pending), multiset(s'.dropped) + multiset(s'.pending);
    var w, w' := multiset(Work(s.threads[i])), multiset(Work(s'.threads[i]));
    CancelWork(a, b, w, w', InHand(s.threads), InHand(s'.threads), gone, come);
  }

  lemma {:induction false} CancelWork(a: multiset<Input>, b: multiset<Input>, w: multiset<Input>, w': multiset<Input>,
                   h: multiset<Input>, h': multiset<Input>, gone: multiset<Input>, come: multiset<Input>)
    requires h' + w == h + w' && b + w' + gone == a + w + come
    ensures b + h' + gone == a + h + come
  {
    forall x: Input
      ensures (b + h' + gone)[x] == (a + h + come)[x]
    {
      assert (h' + w)[x] == (h + w')[x];
      assert (b + w' + gone)[x] == (a + w + come)[x];
    }
  }

  // Moving entries between queue and hand changes nothing.
  lemma {:induction false} QueueKeepsUnsent(s: State, i: nat, ok: bool)
    requires Enabled(s, Run(i, ok)) && s.threads[i].stage in {Decide, Drain, Store, Release}
    requires ThreadFits(s, s.threads[i])
    ensures Unsent(RunThread(s, i, ok)) == Unsent(s)
  {
    hide InHand;
    var s', th := RunThread(s, i, ok), s.threads[i];
    if th.stage in {Decide, Store} {
      PutBackKeepsEntries(s.dropped, s.pending, if th.flush then th.work + s.pending else s.pending + th.work, th.work);
    }
    assert s.dropped + [] == s.dropped;
    UnsentUpdate(s, s', i, multiset{}, multiset{});
    assert forall m: multiset<Input> :: m + multiset{} == m;
  }

  lemma {:induction false} PutBackKeepsEntries(dropped: seq<Input>, pending: seq<Input>, q: seq<Input>, work: seq<Input>)
    requires q == work + pending || q == pending + work
    ensures multiset(dropped + Oldest(q)) + multiset(Newest(q)) + multiset{} == multiset(dropped) + multiset(pending) + multiset(work)
  {
    var kept, lost := Newest(q), Oldest(q);
    var d, l, k, p, w := multiset(dropped), multiset(lost), multiset(kept), multiset(pending), multiset(work);
    assert multiset(lost + kept) == l + k && lost + kept == q;
    assert multiset(work + pending) == w + p == p + w == multiset(pending + work);
    assert multiset(dropped + lost) == d + l;
    assert (d + l) + k + multiset{} == d + (l + k);
    assert d + (p + w) == d + p + w;
  }

  // The head x of the work goes; rest, if any, takes its place.
  lemma {:induction false} HeadReplaced(s: State, s': State, i: nat, x: Input, rest: seq<Input>)
    requires i < |s.threads| == |s'.threads| && s'.threads == s.threads[i := s'.threads[i]]
    requires s'.pending == s.pending && s'.dropped == s.dropped
    requires Work(s.threads[i]) != [] && x == Work(s.threads[i])[0]
    requires Work(s'.threads[i]) == rest + Work(s.threads[i])[1..]
    ensures x in Unsent(s)
    ensures Unsent(s') == Unsent(s) - multiset{x} + multiset(rest)
    ensures rest == [] ==> Unsent(s') == Unsent(s) - multiset{x}
  {
    hide InHand;
    var work, work' := Work(s.threads[i]), Work(s'.threads[i]);
    assert work == [x] + work[1..];
    assert multiset(work) == multiset{x} + multiset(work[1..]);
    assert multiset(work') == multiset(rest) + multiset(work[1..]);
    var dp := multiset(s.dropped) + multiset(s.pending);
    assert dp + (multiset(rest) + multiset(work[1..])) + multiset{x} == dp + (multiset{x} + multiset(work[1..])) + multiset(rest);
    UnsentUpdate(s, s', i, multiset{x}, multiset(rest));
    HeldIsUnsent(s.threads, i, x);
    assert Unsent(s') + multiset{x} - multiset{x} == Unsent(s');
    assert x in Unsent(s) ==> Unsent(s) + multiset(rest) - multiset{x} == Unsent(s) - multiset{x} + multiset(rest);
  }

  lemma {:induction false} HeldIsUnsent(threads: seq<Thread>, i: nat, x: Input)
    requires i < |threads| && x in Work(threads[i])
    ensures x in InHand(threads)
  {
    var n := |threads| - 1;
    if i < n {
      HeldIsUnsent(threads[..n], i, x);
    }
  }

  lemma {:induction false} SameWork(s: State, s': State, i: nat)
    requires i < |s.threads| == |s'.threads| && s'.threads == s.threads[i := s'.threads[i]]
    requires s'.pending == s.pending && s'.dropped == s.dropped && Work(s'.threads[i]) == Work(s.threads[i])
    ensures Unsent(s') == Unsent(s)
  {
    UnsentUpdate(s, s', i, multiset{}, multiset{});
    assert Unsent(s') + multiset{} == Unsent(s') && Unsent(s) + multiset{} == Unsent(s);
  }

  lemma {:induction false} ThreadStarted(threads: seq<Thread>, th: Thread)
    requires Work(th) == []
    ensures InHand(threads + [th]) == InHand(threads)
  {
    assert (threads + [th])[..|threads|] == threads;
    assert InHand(threads) + multiset{} == InHand(threads);
  }

  lemma {:induction false} SendKeepsAccount(s: State, i: nat, ok: bool)
    requires Accounted(Unsent(s), s.wire, s.accepted) && Enabled(s, Run(i, ok)) && s.threads[i].stage in {First, Second}
    requires ThreadFits(s, s.threads[i])
    ensures var s' := RunThread(s, i, ok); Accounted(Unsent(s'), s'.wire, s'.accepted)
  {
    hide Accounted, InHand, HasSuffix;
    var th, s' := s.threads[i], RunThread(s, i, ok);
    var x := th.work[0];
    if !ok || (th.stage == First && th.conn.None?) {
      if th.stage == First && x.text == "" {
        HeadReplaced(s, s', i, x, []);
        AccountNothing(Unsent(s), s.wire, s.accepted, x);
      } else {
        SameWork(s, s', i);
      }
    } else {
      var first := if th.stage == First then SplitBracketedPasteSubmit(x.text).0 else x.text;
      var delayed := if th.stage == First then SplitBracketedPasteSubmit(x.text).1 else "";
      var c := Sent(x.ticket, first, GateActive(s));
      if delayed == "" {
        HeadReplaced(s, s', i, x, []);
        AccountSent(Unsent(s), s.wire, s.accepted, x, c);
      } else {
        var rest := Input(x.ticket, delayed);
        HeadReplaced(s, s', i, x, [rest]);
        AccountPartlySent(Unsent(s), s.wire, s.accepted, x, c, rest);
      }
    }
  }

  lemma {:induction false} LockKeepsAccount(s: State, i: nat)
    requires Accounted(Unsent(s), s.wire, s.accepted) && Enabled(s, Lock(i))
    ensures var s' := GetLock(s, i); Accounted(Unsent(s'), s'.wire, s'.accepted)
  {
    hide Accounted, InHand;
    var th, s' := s.threads[i], GetLock(s, i);
    if th.flush {
      SameWork(s, s', i);
    } else {
      var x := Input(|s.accepted|, th.text);
      UnsentUpdate(s, s', i, multiset{}, multiset{x});
      assert Unsent(s') + multiset{} == Unsent(s');
      AccountAccepted(Unsent(s), s.wire, s.accepted, Submission(th.text, th.bypass));
    }
  }

  lemma {:induction false} StepKeepsInv(s: State, step: Step)
    requires Inv(s) && Enabled(s, step)
    ensures Inv(Apply(s, step))
  {
    hide Shape, Accounted, InHand;
    StepKeepsShape(s, step);
    var s' := Apply(s, step);
    match step
    case Lock(i) => LockKeepsAccount(s, i);
    case Run(i, ok) =>
      ShapeOf(s, i);
      if s.threads[i].stage in {First, Second} {
        SendKeepsAccount(s, i, ok);
      } else {
        QueueKeepsUnsent(s, i, ok);
      }
    case Dismiss =>
      assert Unsent(s') == Unsent(s);
    case StartSubmit(_, _, _) | StartFlush =>
      if s.current.Some? {
        ThreadStarted(s.threads, s'.threads[|s.threads|]);
      }
    case _ =>
  }

  lemma {:induction false} ShapeOf(s: State, i: nat)
    requires Shape(s) && i < |s.threads|
    ensures ThreadFits(s, s.threads[i])
  {
  }

  // Under every interleaving of submitters, flushers, reconnects, dismissals and
  // failing sends: no byte is lost, duplicated or reordered within its
  // submission, the queue keeps its bound, and nothing but the initial prompt
  // passes an active gate.
  lemma {:induction false} EveryByteIsAccountedFor(s: State, steps: seq<Step>)
    requires Inv(s) && ValidRun(s, steps)
    ensures Inv(After(s, steps))
    decreases |steps|
  {
    hide Inv;
    if steps != [] {
      StepKeepsInv(s, steps[0]);
      EveryByteIsAccountedFor(Apply(s, steps[0]), steps[1..]);
    }
  }

  // While the initial prompt of the current session is to come and its gate is
  // less than 90 seconds old, nothing that does not bypass the gate is sent,
  // whoever takes the next step.
  lemma {:induction false} ActiveGateStopsTheRest(s: State, steps: seq<Step>, step: Step)
    requires Inv(s) && ValidRun(s, steps) && Enabled(After(s, steps), step)
    requires var t := After(s, steps);
             && t.current.Some? && t.current.value < |t.sessions|
             && (var ses := t.sessions[t.current.value]; ses.injectPending && t.now < ses.gateAt + 90_000_000_000)
    ensures var t := After(s, steps);
            var wire := Apply(t, step).wire;
            || wire == t.wire
            || (&& |wire| == |t.wire| + 1 && t.wire <= wire
                && wire[|t.wire|].ticket < |t.accepted| && t.accepted[wire[|t.wire|].ticket].bypass)
  {
    hide Accounted, Exclusive, RunThread, InHand;
    var t := After(s, steps);
    EveryByteIsAccountedFor(s, steps);
    if step.Run? {
      ShapeOf(t, step.i);
      if t.threads[step.i].stage in {First, Second} {
        SenderStaysFit(t, step.i, step.ok);
      } else {
        OnlySendersSend(t, step.i, step.ok);
      }
    }
  }

  // Otherwise a submission that finds the queue empty goes on to be sent.
  lemma {:induction false} OpenGateLetsThrough(s: State, i: nat, ok: bool)
    requires Enabled(s, Run(i, ok)) && s.threads[i].stage == Decide && s.pending == []
    requires var ses := s.sessions[s.threads[i].session];
             s.threads[i].bypass || !ses.injectPending || ses.gateAt + 90_000_000_000 <= s.now
    ensures var th, s' := s.threads[i], RunThread(s, i, ok);
            && s' == s.(threads := s.threads[i := th.(stage := First)])
            && (th.conn.Some? ==>
                  RunThread(s', i, true).wire
                  == s.wire + [Sent(th.work[0].ticket, SplitBracketedPasteSubmit(th.work[0].text).0, GateActive(s))])
  {
    hide HasSuffix;
  }

  lemma {:induction false} OnlySendersSend(s: State, i: nat, ok: bool)
    requires Enabled(s, Run(i, ok)) && s.threads[i].stage !in {First, Second}
    ensures RunThread(s, i, ok).wire == s.wire
  {
  }

  lemma {:induction false} InitialState(s: State)
    requires IsInit(s)
    ensures Inv(s)
  {
    assert Unsent(s) == multiset{};
  }
}
