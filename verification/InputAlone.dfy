/**
  The link between InputGate and InputQueue: a thread that takes inputMu and is
  not interrupted until it is done does to the queue and the wire what the
  operations of one lock holder may do.
 */
module InputAlone {
  import opened Options
  import opened Text
  import opened InputGate
  import opened InputQueue

  // --- the queue of a state ------------------------------------------------------------

  ghost function Texts(q: seq<Input>): (r: seq<string>)
    ensures |r| == |q|
  {
    seq(|q|, i requires 0 <= i < |q| => q[i].text)
  }

  ghost function SentTexts(wire: seq<Sent>): (r: seq<string>)
    ensures |r| == |wire|
  {
    seq(|wire|, i requires 0 <= i < |wire| => wire[i].text)
  }

  ghost function QueueOf(s: State): Queue {
    Queue(Texts(s.pending), SentTexts(s.wire), Texts(s.dropped))
  }

  lemma {:induction false} TextsConcat(p: seq<Input>, q: seq<Input>)
    ensures Texts(p + q) == Texts(p) + Texts(q)
  {
  }

  lemma {:induction false} TextsOfRest(work: seq<Input>)
    requires work != []
    ensures Texts(work)[0] == work[0].text && Texts(work)[1..] == Texts(work[1..])
  {
  }

  // --- uninterrupted runs ---------------------------------------------------------------

  // Thread k alone goes on, with these outcomes of its steps, until it is done.
  ghost predicate Finishes(s: State, k: nat, oks: seq<bool>)
    decreases |oks|
  {
    && k < |s.threads|
    && if oks == [] then s.threads[k].Done?
       else Enabled(s, Run(k, oks[0])) && Finishes(RunThread(s, k, oks[0]), k, oks[1..])
  }

  ghost function Finished(s: State, k: nat, oks: seq<bool>): State
    requires Finishes(s, k, oks)
    decreases |oks|
  {
    if oks == [] then s else Finished(RunThread(s, k, oks[0]), k, oks[1..])
  }

  lemma {:induction false} ReleaseOnly(s: State, k: nat, oks: seq<bool>)
    requires Finishes(s, k, oks) && s.threads[k].Holding? && s.threads[k].stage == Release
    ensures QueueOf(Finished(s, k, oks)) == QueueOf(s)
  {
    var s1 := RunThread(s, k, oks[0]);
    assert s1.threads[k].Done?;
    assert oks[1..] == [];
  }

  lemma {:induction false} PutBackStores(s: State, k: nat, q: seq<Input>)
    requires k < |s.threads| && s.threads[k].Holding?
    ensures QueueOf(PutBack(s, k, q)) == Stored(QueueOf(s), Texts(q), [])
  {
    TextsConcat(s.dropped, Oldest(q));
    assert Texts(Newest(q)) == Newest(Texts(q)) && Texts(Oldest(q)) == Oldest(Texts(q));
    assert SentTexts(s.wire) + [] == SentTexts(s.wire);
  }

  // A thread that stores what it has in hand: with nothing pending, that becomes
  // the queue.
  lemma {:induction false} StoreOnly(s: State, k: nat, oks: seq<bool>)
    requires Finishes(s, k, oks) && s.threads[k].Holding? && s.threads[k].stage == Store && s.pending == []
    ensures QueueOf(Finished(s, k, oks)) == Stored(QueueOf(s), Texts(s.threads[k].work), [])
  {
    var work := s.threads[k].work;
    assert work + [] == work && [] + work == work;
    PutBackStores(s, k, work);
    ReleaseOnly(RunThread(s, k, oks[0]), k, oks[1..]);
  }

  lemma {:induction false} SendsNothing(q: Queue, connected: bool, lossy: bool)
    requires q.pending == []
    ensures SendsAll(q, q, connected, lossy, [])
  {
    assert q.wire + [] == q.wire && q.dropped + [] == q.dropped;
    assert SendsSome(q, q, connected, lossy, [], [], []);
  }

  lemma {:induction false} SendsNoMore(q: Queue, connected: bool, lossy: bool, work: seq<string>, c: seq<string>, rem: string)
    requires work != [] && CanSend(connected, lossy, work[0], c, rem) && rem != ""
    ensures SendsAll(q, Stored(q, [rem] + work[1..], c), connected, lossy, work)
  {
    hide CanSend;
    assert CanSendFirst(connected, lossy, work, c, [rem] + work[1..], c, rem);
    assert SendsSome(q, Stored(q, [rem] + work[1..], c), connected, lossy, work, c, [rem] + work[1..]);
  }

  lemma {:induction false} SendsOn(q: Queue, q1: Queue, q': Queue, connected: bool, lossy: bool, work: seq<string>, c: seq<string>)
    requires work != [] && CanSend(connected, lossy, work[0], c, "") && SendsAll(q1, q', connected, lossy, work[1..])
    requires q1 == q.(wire := q.wire + c)
    ensures SendsAll(q, q', connected, lossy, work)
  {
    hide CanSend;
    var more, rest :| SendsSome(q1, q', connected, lossy, work[1..], more, rest);
    assert (c + more)[|c|..] == more && (q.wire + c) + more == q.wire + (c + more);
    assert CanSendFirst(connected, lossy, work, c + more, rest, c, "");
    assert SendsSome(q, q', connected, lossy, work, c + more, rest);
  }

  // --- one thread sends what it has in hand ----------------------------------------------

  // The thread is about to send, and nothing is pending.
  ghost predicate Sending(s: State, k: nat) {
    && k < |s.threads| && s.threads[k].Holding? && s.threads[k].stage in {First, Second}
    && s.threads[k].work != [] && s.threads[k].session < |s.sessions| && s.pending == []
  }

  // The head of the work has been dealt with: the thread is done or sends on.
  lemma {:induction false} AdvanceAlone(s: State, k: nat, oks: seq<bool>, lossy: bool)
    requires Sending(s, k) && Finishes(Advance(s, k), k, oks) && (false in oks ==> lossy)
    ensures var work := s.threads[k].work[1..];
            SendsAll(QueueOf(s), QueueOf(Finished(Advance(s, k), k, oks)), s.threads[k].conn.Some?, lossy, Texts(work))
    decreases |oks|, 2
  {
    var s' := Advance(s, k);
    var rest := s.threads[k].work[1..];
    assert QueueOf(s') == QueueOf(s);
    if rest == [] {
      ReleaseOnly(s', k, oks);
      SendsNothing(QueueOf(s), s.threads[k].conn.Some?, lossy);
      assert Texts(rest) == [];
    } else {
      SendingAlone(s', k, oks, lossy);
    }
  }

  lemma {:induction false} SendingAlone(s: State, k: nat, oks: seq<bool>, lossy: bool)
    requires Sending(s, k) && s.threads[k].stage == First && Finishes(s, k, oks) && (false in oks ==> lossy)
    ensures SendsAll(QueueOf(s), QueueOf(Finished(s, k, oks)), s.threads[k].conn.Some?, lossy, Texts(s.threads[k].work))
    decreases |oks|, 1
  {
    hide HasSuffix, SendsAll, QueueOf, RunThread;
    if s.threads[k].conn.Some? && oks[0] {
      FirstPartSent(s, k, oks, lossy);
    } else if s.threads[k].work[0].text == "" {
      EmptyHead(s, k, oks, lossy);
    } else {
      FirstPartFails(s, k, oks, lossy);
    }
  }

  // An empty head counts as sent.
  lemma {:induction false} EmptyHead(s: State, k: nat, oks: seq<bool>, lossy: bool)
    requires Sending(s, k) && s.threads[k].stage == First && Finishes(s, k, oks) && oks != [] && (false in oks ==> lossy)
    requires (s.threads[k].conn.None? || !oks[0]) && s.threads[k].work[0].text == ""
    ensures SendsAll(QueueOf(s), QueueOf(Finished(s, k, oks)), s.threads[k].conn.Some?, lossy, Texts(s.threads[k].work))
    decreases |oks|, 0
  {
    hide HasSuffix, SendsAll, QueueOf;
    var connected, texts := s.threads[k].conn.Some?, Texts(s.threads[k].work);
    TextsOfRest(s.threads[k].work);
    assert CanSend(connected, lossy, "", [], "");
    AdvanceAlone(s, k, oks[1..], lossy);
    SendsOn(QueueOf(s), QueueOf(s), QueueOf(Finished(s, k, oks)), connected, lossy, texts, []);
  }

  lemma {:induction false} FirstPartFails(s: State, k: nat, oks: seq<bool>, lossy: bool)
    requires Sending(s, k) && s.threads[k].stage == First && Finishes(s, k, oks) && oks != [] && (false in oks ==> lossy)
    requires (s.threads[k].conn.None? || !oks[0]) && s.threads[k].work[0].text != ""
    ensures SendsAll(QueueOf(s), QueueOf(Finished(s, k, oks)), s.threads[k].conn.Some?, lossy, Texts(s.threads[k].work))
  {
    hide HasSuffix, SendsAll, QueueOf;
    var text, texts := s.threads[k].work[0].text, Texts(s.threads[k].work);
    var s1 := RunThread(s, k, oks[0]);
    assert s1 == s.(threads := s.threads[k := s.threads[k].(stage := Store)]);
    TextsOfRest(s.threads[k].work);
    assert CanSend(s.threads[k].conn.Some?, lossy, text, [], text);
    assert SentTexts(s.wire) + [] == SentTexts(s.wire) && [text] + texts[1..] == texts;
    StoresAll(s, s1, k, oks[1..], [], text);
    SendsNoMore(QueueOf(s), s.threads[k].conn.Some?, lossy, texts, [], text);
  }

  // From s to s1 the chunks went out; the thread then stores the remainder of the
  // head and everything behind it.
  lemma {:induction false} StoresAll(s: State, s1: State, k: nat, oks: seq<bool>, chunks: seq<string>, rem: string)
    requires k < |s.threads| && s.threads[k].Holding? && s.threads[k].work != []
    requires Finishes(s1, k, oks) && s1.pending == [] && s1.dropped == s.dropped
    requires s1.threads[k].Holding? && s1.threads[k].stage == Store
    requires Texts(s1.threads[k].work) == [rem] + Texts(s.threads[k].work)[1..]
    requires SentTexts(s1.wire) == SentTexts(s.wire) + chunks
    ensures QueueOf(Finished(s1, k, oks)) == Stored(QueueOf(s), [rem] + Texts(s.threads[k].work)[1..], chunks)
  {
    StoreOnly(s1, k, oks);
    assert QueueOf(s1).wire + [] == QueueOf(s).wire + chunks;
  }

  lemma {:induction false} FirstPartSent(s: State, k: nat, oks: seq<bool>, lossy: bool)
    requires Sending(s, k) && s.threads[k].stage == First && Finishes(s, k, oks) && (false in oks ==> lossy)
    requires s.threads[k].conn.Some? && oks != [] && oks[0]
    ensures SendsAll(QueueOf(s), QueueOf(Finished(s, k, oks)), true, lossy, Texts(s.threads[k].work))
    decreases |oks|, 0
  {
    hide HasSuffix, SendsAll, QueueOf;
    var th, s1 := s.threads[k], RunThread(s, k, true);
    var x := th.work[0];
    TextsOfRest(th.work);
    var (first, delayed) := SplitBracketedPasteSubmit(x.text);
    var c := Sent(x.ticket, first, GateActive(s));
    if delayed == "" {
      var s0 := s.(wire := s.wire + [c]);
      assert s1 == Advance(s0, k);
      AdvanceAlone(s0, k, oks[1..], lossy);
      assert CanSend(true, lossy, x.text, [first], "");
      WiredMore(s, s0, [first]);
      SendsOn(QueueOf(s), QueueOf(s0), QueueOf(Finished(s, k, oks)), true, lossy, Texts(th.work), [first]);
    } else {
      assert s1.threads[k].work == [Input(x.ticket, delayed)] + th.work[1..];
      SecondPart(s, s1, k, oks[1..], lossy);
    }
  }

  lemma {:induction false} WiredMore(s: State, s': State, chunks: seq<string>)
    requires s'.pending == s.pending && s'.dropped == s.dropped && SentTexts(s'.wire) == SentTexts(s.wire) + chunks
    ensures QueueOf(s') == QueueOf(s).(wire := QueueOf(s).wire + chunks)
  {
  }

  // From s to s1 the paste went out, and its carriage return is next.
  lemma {:induction false} SecondPart(s: State, s1: State, k: nat, oks: seq<bool>, lossy: bool)
    requires Sending(s, k) && s.threads[k].conn.Some? && Sending(s1, k) && Finishes(s1, k, oks) && s1.dropped == s.dropped
    requires s1.threads[k].stage == Second && s1.threads[k].conn.Some? && (false in oks ==> lossy)
    requires var (first, delayed) := SplitBracketedPasteSubmit(s.threads[k].work[0].text);
             && delayed != "" && s1.threads[k].work[0].text == delayed
             && SentTexts(s1.wire) == SentTexts(s.wire) + [first]
    requires s1.threads[k].work[1..] == s.threads[k].work[1..]
    ensures SendsAll(QueueOf(s), QueueOf(Finished(s1, k, oks)), true, lossy, Texts(s.threads[k].work))
    decreases |oks|, 0
  {
    hide HasSuffix, SendsAll, QueueOf;
    var text, x := s.threads[k].work[0].text, s1.threads[k].work[0];
    var (first, delayed) := SplitBracketedPasteSubmit(text);
    TextsOfRest(s.threads[k].work);
    if oks[0] {
      var c := Sent(x.ticket, x.text, GateActive(s1));
      var s0 := s1.(wire := s1.wire + [c]);
      assert (SentTexts(s.wire) + [first]) + [delayed] == SentTexts(s.wire) + [first, delayed];
      assert RunThread(s1, k, true) == Advance(s0, k);
      AdvanceAlone(s0, k, oks[1..], lossy);
      assert CanSend(true, lossy, text, [first, delayed], "");
      WiredMore(s, s0, [first, delayed]);
      SendsOn(QueueOf(s), QueueOf(s0), QueueOf(Finished(s1, k, oks)), true, lossy, Texts(s.threads[k].work), [first, delayed]);
    } else {
      assert CanSend(true, lossy, text, [first], delayed);
      TextsOfRest(s1.threads[k].work);
      assert Texts(s1.threads[k].work) == [delayed] + Texts(s.threads[k].work)[1..];
      StoresAll(s, RunThread(s1, k, false), k, oks[1..], [first], delayed);
      SendsNoMore(QueueOf(s), true, lossy, Texts(s.threads[k].work), [first], delayed);
    }
  }

  // --- the operations --------------------------------------------------------------------------

  // A submitter that gets the lock and goes on alone does what
  // SubmitInputWithGate may do. It waits behind the gate or the queue, and
  // otherwise sends everything that no send loses.
  lemma {:induction false} SubmitAlone(s: State, k: nat, oks: seq<bool>)
    requires Enabled(s, Lock(k)) && !s.threads[k].flush && s.threads[k].session < |s.sessions|
    requires Finishes(GetLock(s, k), k, oks)
    ensures var th := s.threads[k];
            var ses, q, q' := s.sessions[th.session], QueueOf(s), QueueOf(Finished(GetLock(s, k), k, oks));
            && Submits(q, q', th.conn.Some?, false in oks, th.text, !th.bypass && Gated(ses, s.now))
            && (s.pending != [] || (!th.bypass && ses.injectPending && s.now < ses.gateAt + 90_000_000_000) ==>
                  q'.wire == q.wire && q'.pending == Newest(q.pending + [th.text]))
            && (&& s.pending == [] && (th.bypass || !ses.injectPending || ses.gateAt + 90_000_000_000 <= s.now)
                && th.conn.Some? && false !in oks ==>
                  q'.pending == [] && Flat(q'.wire) == Flat(q.wire) + th.text)
  {
    hide CanSend, CanSendAll, HasSuffix, Flat;
    var th, s1, lossy := s.threads[k], GetLock(s, k), false in oks;
    var x := Input(|s.accepted|, th.text);
    var s2 := RunThread(s1, k, oks[0]);
    assert QueueOf(s1) == QueueOf(s) && Texts([x]) == [th.text];
    assert SentTexts(s.wire) + [] == SentTexts(s.wire);
    if (!th.bypass && Gated(s.sessions[th.session], s.now)) || s.pending != [] {
      PutBackStores(s1, k, s.pending + [x]);
      TextsConcat(s.pending, [x]);
      ReleaseOnly(s2, k, oks[1..]);
    } else {
      SendingAlone(s2, k, oks[1..], lossy);
      var q' := QueueOf(Finished(s2, k, oks[1..]));
      OneSent(QueueOf(s), q', th.conn.Some?, lossy, th.text);
      SubmitKeepsText(QueueOf(s), q', th.conn.Some?, lossy, th.text, false);
    }
  }

  lemma {:induction false} OneSent(q: Queue, q': Queue, connected: bool, lossy: bool, text: string)
    requires q.pending == [] && SendsAll(q, q', connected, lossy, [text])
    ensures Submits(q, q', connected, lossy, text, false)
  {
    hide CanSend, CanSendAll;
    var chunks, rest :| SendsSome(q, q', connected, lossy, [text], chunks, rest);
    var rem := OnlyOne(connected, lossy, text, chunks, rest);
    assert Tries(q, q', connected, lossy, text, chunks, rem);
  }

  lemma {:induction false} OnlyOne(connected: bool, lossy: bool, text: string, chunks: seq<string>, rest: seq<string>) returns (rem: string)
    requires CanSendAll(connected, lossy, [text], chunks, rest)
    ensures CanSend(connected, lossy, text, chunks, rem) && rest == Leftover(rem)
  {
    hide CanSend;
    var queue := [text];
    assert queue[0] == text && queue[1..] == [];
    var c, r :| CanSendFirst(connected, lossy, queue, chunks, rest, c, r);
    rem := r;
    if rem == "" {
      assert CanSendAll(connected, lossy, [], chunks[|c|..], rest);
      assert chunks == c + chunks[|c|..] && c + [] == c;
    } else {
      assert [rem] + [] == [rem];
    }
  }

  // A flusher that gets the lock and goes on alone does what FlushPendingInput
  // may do: nothing before the gate opens, and then the whole queue unless a
  // send loses something.
  lemma {:induction false} FlushAlone(s: State, k: nat, oks: seq<bool>)
    requires Enabled(s, Lock(k)) && s.threads[k].flush && s.threads[k].session < |s.sessions|
    requires |s.pending| <= MAX_PENDING && Finishes(GetLock(s, k), k, oks)
    ensures var ses, q, q' := s.sessions[s.threads[k].session], QueueOf(s), QueueOf(Finished(GetLock(s, k), k, oks));
            && Flushes(q, q', s.wrapper.Some?, false in oks, Gated(ses, s.now))
            && (ses.injectPending && s.now < ses.gateAt + 90_000_000_000 ==> q' == q)
            && ((!ses.injectPending || ses.gateAt + 90_000_000_000 <= s.now) && s.wrapper.Some? && false !in oks ==>
                  q'.pending == [] && Flat(q'.wire) == Flat(q.wire) + Flat(q.pending))
  {
    hide CanSend, CanSendAll, HasSuffix, Flat, RestOf;
    var s1, lossy, barred := GetLock(s, k), false in oks, Gated(s.sessions[s.threads[k].session], s.now);
    var s2 := RunThread(s1, k, oks[0]);
    if barred || s.pending == [] {
      ReleaseOnly(s2, k, oks[1..]);
    } else if s.wrapper.None? {
      StoreOnly(s2, k, oks[1..]);
      assert SentTexts(s.wire) + [] == SentTexts(s.wire) && Texts(s.dropped) + [] == Texts(s.dropped);
    } else {
      SendingAlone(s2, k, oks[1..], lossy);
      QueueInHand(QueueOf(s), QueueOf(s2), QueueOf(Finished(s2, k, oks[1..])), lossy);
    }
    FlushKeepsText(QueueOf(s), QueueOf(Finished(s1, k, oks)), s.wrapper.Some?, lossy, barred);
  }

  lemma {:induction false} QueueInHand(q: Queue, q1: Queue, q': Queue, lossy: bool)
    requires SendsAll(q1, q', true, lossy, q.pending) && q1 == q.(pending := [])
    ensures Flushes(q, q', true, lossy, false) || q.pending == []
  {
    hide CanSendAll;
    var chunks, rest :| SendsSome(q1, q', true, lossy, q.pending, chunks, rest);
    assert SendsSome(q, q', true, lossy, q.pending, chunks, rest);
  }

  // --- and it can always go on to its end --------------------------------------------------------

  // The thread has something in hand exactly while there is something to do with it.
  ghost predicate InStep(s: State, k: nat) {
    && k < |s.threads| && s.threads[k].Holding? && s.threads[k].session < |s.sessions|
    && (s.threads[k].work != [] <==> s.threads[k].stage in {Decide, First, Second, Store})
  }

  // Sends in hand, and what else is to come.
  ghost function Ahead(s: State, k: nat): nat
    requires InStep(s, k)
  {
    match s.threads[k].stage
    case Drain => 2 * |s.pending| + 3
    case Decide => 2 * |s.threads[k].work| + 3
    case First => 2 * |s.threads[k].work| + 2
    case Second => 2 * |s.threads[k].work| + 1
    case Store => 1
    case Release => 0
  }

  lemma {:induction false} GoesOn(s: State, k: nat)
    requires InStep(s, k)
    ensures Enabled(s, Run(k, true))
    ensures var s' := RunThread(s, k, true);
            k < |s'.threads|
            && if s.threads[k].stage == Release then s'.threads[k].Done? else InStep(s', k) && Ahead(s', k) < Ahead(s, k)
  {
    hide HasSuffix;
    if s.threads[k].stage in {First, Second} {
      SenderGoesOn(s, k);
    }
  }

  lemma {:induction false} SenderGoesOn(s: State, k: nat)
    requires InStep(s, k) && s.threads[k].stage in {First, Second}
    ensures var s' := RunThread(s, k, true); k < |s'.threads| && InStep(s', k) && Ahead(s', k) < Ahead(s, k)
  {
    hide HasSuffix;
  }

  // Whoever holds inputMu gets to release it, with all sends successful if need be.
  lemma {:induction false} HolderCanFinish(s: State, k: nat) returns (oks: seq<bool>)
    requires InStep(s, k)
    ensures Finishes(s, k, oks) && false !in oks
    decreases Ahead(s, k)
  {
    hide RunThread, Ahead;
    GoesOn(s, k);
    var more: seq<bool> := [];
    if s.threads[k].stage != Release {
      more := HolderCanFinish(RunThread(s, k, true), k);
    }
    oks := [true] + more;
    assert oks[0] && oks[1..] == more;
  }

  // ... in every state a run can reach: whatever it does next can be done.
  lemma {:induction false} HoldersCanFinish(s: State, steps: seq<Step>, k: nat) returns (oks: seq<bool>)
    requires Inv(s) && ValidRun(s, steps) && k < |After(s, steps).threads| && After(s, steps).threads[k].Holding?
    ensures Finishes(After(s, steps), k, oks) && false !in oks
    ensures forall ok :: Enabled(After(s, steps), Run(k, ok))
  {
    hide Accounted, GateKept, Exclusive, Finishes;
    EveryByteIsAccountedFor(s, steps);
    ShapeOf(After(s, steps), k);
    oks := HolderCanFinish(After(s, steps), k);
  }
}
