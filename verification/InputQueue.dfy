/**
  The operations of internal/hub/input_gate.go as one lock holder carries them
  out on the fields of one session, with nobody else in between. Any send may
  fail. (InputGate interleaves the same operations; InputAlone links the two.)
 */
module InputQueue {
  import opened Text
  import opened InputGate

  ghost function Flat(q: seq<string>): string {
    if q == [] then "" else q[0] + Flat(q[1..])
  }

  lemma {:induction false} FlatConcat(p: seq<string>, q: seq<string>)
    ensures Flat(p + q) == Flat(p) + Flat(q)
  {
    if p == [] {
      assert p + q == q;
    } else {
      assert (p + q)[1..] == p[1..] + q;
      FlatConcat(p[1..], q);
    }
  }

  lemma {:induction false} FlatUnfolds(q: seq<string>)
    ensures q == [] ==> Flat(q) == ""
    ensures q != [] ==> Flat(q) == q[0] + Flat(q[1..])
    ensures |q| == 1 ==> Flat(q) == q[0]
  {
  }

  // --- what each operation may do -----------------------------------------------------

  // wire: every chunk that reached the wrapper; dropped: every entry the queue
  // had no room for.
  datatype Queue = Queue(pending: seq<string>, wire: seq<string>, dropped: seq<string>)

  // Trying to send a text may get these chunks out and leave that remainder;
  // only where sends can be lost does a connection leave any.
  ghost predicate CanSend(connected: bool, lossy: bool, text: string, chunks: seq<string>, rem: string) {
    var (first, delayed) := SplitBracketedPasteSubmit(text);
    || ((!connected || lossy) && chunks == [] && rem == text)
    || (connected && lossy && chunks == [first] && rem == delayed)
    || (connected && chunks == (if delayed == "" then [first] else [first, delayed]) && rem == "")
  }

  // Sending a queue in order, up to the first remainder.
  ghost predicate CanSendAll(connected: bool, lossy: bool, queue: seq<string>, chunks: seq<string>, rest: seq<string>)
    decreases |queue|, 1
  {
    if queue == [] then chunks == [] && rest == []
    else exists c, rem :: CanSendFirst(connected, lossy, queue, chunks, rest, c, rem)
  }

  // ... where c goes out of the first entry.
  ghost predicate CanSendFirst(connected: bool, lossy: bool, queue: seq<string>, chunks: seq<string>, rest: seq<string>, c: seq<string>, rem: string)
    requires queue != []
    decreases |queue|, 0
  {
    && CanSend(connected, lossy, queue[0], c, rem) && c <= chunks
    && (if rem == "" then CanSendAll(connected, lossy, queue[1..], chunks[|c|..], rest)
        else chunks == c && rest == [rem] + queue[1..])
  }

  function Leftover(rem: string): seq<string> {
    if rem == "" then [] else [rem]
  }

  // The chunks are out, and this is to be the queue, as far as it fits.
  function Stored(q: Queue, list: seq<string>, chunks: seq<string>): Queue {
    Queue(Newest(list), q.wire + chunks, q.dropped + Oldest(list))
  }

  // barred: the gate applies and is active.
  ghost predicate Submits(q: Queue, q': Queue, connected: bool, lossy: bool, text: string, barred: bool) {
    if barred || q.pending != [] then q' == Stored(q, q.pending + [text], [])
    else exists chunks, rem :: Tries(q, q', connected, lossy, text, chunks, rem)
  }

  ghost predicate Tries(q: Queue, q': Queue, connected: bool, lossy: bool, text: string, chunks: seq<string>, rem: string) {
    CanSend(connected, lossy, text, chunks, rem) && q' == Stored(q, Leftover(rem), chunks)
  }

  ghost predicate SendsAll(q: Queue, q': Queue, connected: bool, lossy: bool, queue: seq<string>) {
    exists chunks, rest :: SendsSome(q, q', connected, lossy, queue, chunks, rest)
  }

  ghost predicate SendsSome(q: Queue, q': Queue, connected: bool, lossy: bool, queue: seq<string>, chunks: seq<string>, rest: seq<string>) {
    CanSendAll(connected, lossy, queue, chunks, rest) && q' == Stored(q, rest, chunks)
  }

  ghost predicate Flushes(q: Queue, q': Queue, connected: bool, lossy: bool, barred: bool) {
    if barred || q.pending == [] || !connected then q' == q
    else SendsAll(q, q', true, lossy, q.pending)
  }

  // --- what that means -----------------------------------------------------------------

  // What was sent and what still waits, as one text.
  ghost function Total(q: Queue): string {
    Flat(q.wire) + Flat(q.pending)
  }

  // Nothing is lost and nothing is sent twice, even when only the delayed
  // carriage return fails.
  lemma {:induction false} SendKeepsText(connected: bool, lossy: bool, text: string, chunks: seq<string>, rem: string)
    requires CanSend(connected, lossy, text, chunks, rem)
    ensures Flat(chunks) + rem == text
    ensures rem == "" || rem == text || rem == "\r"
    ensures !connected ==> chunks == [] && rem == text
    ensures connected && !lossy ==> rem == ""
  {
    hide HasSuffix;
    var (first, delayed) := SplitBracketedPasteSubmit(text);
    FlatUnfolds([first]);
    FlatUnfolds([delayed]);
    assert [first] + [delayed] == [first, delayed];
    FlatConcat([first], [delayed]);
  }

  // What is left of a queue: nothing, or an entry or its carriage return and
  // everything behind it.
  ghost predicate RestOf(queue: seq<string>, rest: seq<string>) {
    || rest == []
    || exists k: nat, rem :: RestFrom(queue, rest, k, rem)
  }

  predicate RestFrom(queue: seq<string>, rest: seq<string>, k: nat, rem: string) {
    k < |queue| && rest == [rem] + queue[k + 1..] && rem in {queue[k], "\r"} && rem != ""
  }

  lemma {:induction false} SendAllKeepsText(connected: bool, lossy: bool, queue: seq<string>, chunks: seq<string>, rest: seq<string>)
    requires CanSendAll(connected, lossy, queue, chunks, rest)
    ensures Flat(chunks) + Flat(rest) == Flat(queue)
    ensures RestOf(queue, rest) && |rest| <= |queue|
    ensures connected && !lossy ==> rest == []
    decreases |queue|, 1
  {
    if queue == [] {
      FlatUnfolds([]);
    } else {
      SendFirstKeepsText(connected, lossy, queue, chunks, rest);
    }
  }

  lemma {:induction false} SendFirstKeepsText(connected: bool, lossy: bool, queue: seq<string>, chunks: seq<string>, rest: seq<string>)
    requires CanSendAll(connected, lossy, queue, chunks, rest) && queue != []
    ensures Flat(chunks) + Flat(rest) == Flat(queue)
    ensures RestOf(queue, rest) && |rest| <= |queue|
    ensures connected && !lossy ==> rest == []
    decreases |queue|, 0
  {
    hide CanSend, Flat, RestOf;
    var c, rem :| CanSendFirst(connected, lossy, queue, chunks, rest, c, rem);
    SendKeepsText(connected, lossy, queue[0], c, rem);
    FlatUnfolds(queue);
    if rem == "" {
      SendAllKeepsText(connected, lossy, queue[1..], chunks[|c|..], rest);
      SentWhole(queue, chunks, c, rest);
    } else {
      SentPart(queue, chunks, rem, rest);
    }
  }

  lemma {:induction false} SentWhole(queue: seq<string>, chunks: seq<string>, c: seq<string>, rest: seq<string>)
    requires queue != [] && c <= chunks && Flat(c) + "" == queue[0] && RestOf(queue[1..], rest)
    requires Flat(chunks[|c|..]) + Flat(rest) == Flat(queue[1..])
    ensures Flat(chunks) + Flat(rest) == queue[0] + Flat(queue[1..]) && RestOf(queue, rest)
  {
    hide Flat, RestOf;
    var more := chunks[|c|..];
    assert chunks == c + more;
    FlatConcat(c, more);
    assert (Flat(c) + Flat(more)) + Flat(rest) == Flat(c) + (Flat(more) + Flat(rest));
    RestOfTail(queue, rest);
  }

  lemma {:induction false} SentPart(queue: seq<string>, chunks: seq<string>, rem: string, rest: seq<string>)
    requires queue != [] && rest == [rem] + queue[1..] && Flat(chunks) + rem == queue[0]
    requires rem != "" && rem in {queue[0], "\r"}
    ensures Flat(chunks) + Flat(rest) == queue[0] + Flat(queue[1..]) && RestOf(queue, rest)
  {
    hide Flat;
    FlatUnfolds(rest);
    assert rest[1..] == queue[1..];
    assert (Flat(chunks) + rem) + Flat(queue[1..]) == Flat(chunks) + (rem + Flat(queue[1..]));
    assert RestFrom(queue, rest, 0, rem);
  }

  lemma {:induction false} RestOfTail(queue: seq<string>, rest: seq<string>)
    requires queue != [] && RestOf(queue[1..], rest)
    ensures RestOf(queue, rest)
  {
    if rest != [] {
      var k: nat, rem :| RestFrom(queue[1..], rest, k, rem);
      assert queue[1..][k + 1..] == queue[k + 2..] && queue[1..][k] == queue[k + 1];
      assert RestFrom(queue, rest, k + 1, rem);
    }
  }

  // A submission adds its text to what is sent or waits, at the end; it goes out
  // at once only if the gate lets it and nothing waits.
  lemma {:induction false} SubmitKeepsText(q: Queue, q': Queue, connected: bool, lossy: bool, text: string, barred: bool)
    requires Submits(q, q', connected, lossy, text, barred) && |q.pending| < MAX_PENDING
    ensures q'.dropped == q.dropped && Total(q') == Total(q) + text
    ensures barred || q.pending != [] || !connected ==> q'.wire == q.wire
    ensures !barred && q.pending == [] && connected && !lossy ==>
              q'.pending == [] && Flat(q'.wire) == Flat(q.wire) + text
  {
    hide CanSend, Flat;
    assert q.dropped + [] == q.dropped && q.wire + [] == q.wire;
    if barred || q.pending != [] {
      FlatConcat(q.pending, [text]);
      FlatUnfolds([text]);
      assert Flat(q.wire) + (Flat(q.pending) + text) == Total(q) + text;
    } else {
      var chunks, rem :| Tries(q, q', connected, lossy, text, chunks, rem);
      SendKeepsText(connected, lossy, text, chunks, rem);
      TriedText(q.wire, chunks, rem, text);
      FlatUnfolds([]);
      assert Total(q) == Flat(q.wire);
    }
  }

  lemma {:induction false} TriedText(wire: seq<string>, chunks: seq<string>, rem: string, text: string)
    requires Flat(chunks) + rem == text
    ensures Flat(wire + chunks) + Flat(Leftover(rem)) == Flat(wire) + text
  {
    hide Flat;
    FlatUnfolds([]);
    FlatUnfolds([rem]);
    FlatConcat(wire, chunks);
    assert (Flat(wire) + Flat(chunks)) + rem == Flat(wire) + text;
  }

  // A flush loses nothing and sends nothing out of order; what it leaves is the
  // queue from the first failure on.
  lemma {:induction false} FlushKeepsText(q: Queue, q': Queue, connected: bool, lossy: bool, barred: bool)
    requires Flushes(q, q', connected, lossy, barred) && |q.pending| <= MAX_PENDING
    ensures q'.dropped == q.dropped && Total(q') == Total(q)
    ensures RestOf(q.pending, q'.pending) || q' == q
    ensures !barred && connected && !lossy ==> q'.pending == [] && Flat(q'.wire) == Flat(q.wire) + Flat(q.pending)
  {
    hide CanSendAll, RestOf, Flat;
    FlatUnfolds([]);
    assert q.dropped + [] == q.dropped;
    if !barred && q.pending != [] && connected {
      var chunks, rest :| SendsSome(q, q', true, lossy, q.pending, chunks, rest);
      SendAllKeepsText(true, lossy, q.pending, chunks, rest);
      FlatConcat(q.wire, chunks);
      assert (Flat(q.wire) + Flat(chunks)) + Flat(rest) == Flat(q.wire) + Flat(q.pending);
    }
  }

  // --- the session's fields ----------------------------------------------------------------

  class SessionInput {
    var pending: seq<string>
    var initialInjectPending: bool
    var initialInjectGateAt: int
    var wire: seq<string>
    var dropped: seq<string>
    // How many sends have failed.
    ghost var failures: nat

    ghost predicate Valid() reads this {
      |pending| <= MAX_PENDING
    }

    ghost function State(): Queue reads this {
      Queue(pending, wire, dropped)
    }

    predicate InjectGated(now: int) reads this {
      Gated(Session(initialInjectPending, initialInjectGateAt), now)
    }

    constructor ()
      ensures Valid() && State() == Queue([], [], []) && !initialInjectPending
    {
      pending, wire, dropped, failures := [], [], [], 0;
      initialInjectPending, initialInjectGateAt := false, 0;
    }

    method AppendPendingInput(item: string)
      modifies this`pending, this`dropped
      ensures Valid() && State() == Stored(old(State()), old(pending) + [item], [])
    {
      var q := pending + [item];
      if |q| > MAX_PENDING {
        dropped := dropped + q[..|q| - MAX_PENDING];
        q := q[|q| - MAX_PENDING..];
      }
      pending := q;
      assert wire + [] == wire && old(dropped) + [] == old(dropped);
    }

    method RequeuePendingInput(queue: seq<string>)
      modifies this`pending, this`dropped
      ensures Valid() && State() == Stored(old(State()), queue + old(pending), [])
    {
      var q := queue;
      if |pending| > 0 {
        q := q + pending;
      }
      assert q == queue + old(pending);
      if |q| > MAX_PENDING {
        dropped := dropped + q[..|q| - MAX_PENDING];
        q := q[|q| - MAX_PENDING..];
      }
      pending := q;
      assert wire + [] == wire && old(dropped) + [] == old(dropped);
    }

    method Send(data: string) returns (ok: bool)
      modifies this`wire, this`failures
      ensures wire == if ok then old(wire) + [data] else old(wire)
      ensures failures == if ok then old(failures) else old(failures) + 1
    {
      ok := *;
      if ok {
        wire := wire + [data];
      } else {
        failures := failures + 1;
      }
    }

    method TrySendInput(connected: bool, combined: string) returns (remaining: string, ghost chunks: seq<string>)
      modifies this`wire, this`failures
      ensures CanSend(connected, true, combined, chunks, remaining) && wire == old(wire) + chunks
      ensures failures == old(failures) ==> CanSend(connected, false, combined, chunks, remaining)
      ensures Flat(chunks) + remaining == combined && remaining in {"", combined, "\r"}
      ensures connected && failures == old(failures) ==> remaining == ""
      ensures failures >= old(failures) && (!connected ==> failures == old(failures))
    {
      chunks := [];
      var (first, delayed) := SplitBracketedPasteSubmit(combined);
      if !connected {
        remaining := combined;
      } else {
        var ok := Send(first);
        if !ok {
          remaining := combined;
        } else {
          chunks := [first];
          remaining := "";
          if delayed != "" {
            ok := Send(delayed);
            if !ok {
              remaining := delayed;
            } else {
              chunks := [first, delayed];
            }
          }
        }
      }
      SendKeepsText(connected, true, combined, chunks, remaining);
    }

    // Input goes out at once only if the gate lets it and nothing waits; the
    // initial prompt (bypassGate), too, queues up behind what waits.
    method SubmitInputWithGate(connected: bool, combined: string, bypassGate: bool, now: int) returns (deferred: bool)
      requires Valid()
      modifies this`pending, this`wire, this`dropped, this`failures
      ensures Valid()
      ensures Submits(old(State()), State(), connected, failures > old(failures), combined, !bypassGate && old(InjectGated(now)))
      ensures |old(pending)| < MAX_PENDING ==> dropped == old(dropped) && Total(State()) == Total(old(State())) + combined
      ensures deferred <==> pending != []
      // Before the initial prompt, for 90 seconds, and behind what waits, it queues up.
      ensures (|| old(pending) != []
               || (!bypassGate && old(initialInjectPending) && now < old(initialInjectGateAt) + 90_000_000_000)) ==>
                wire == old(wire) && failures == old(failures) && pending == Newest(old(pending) + [combined])
      // Otherwise it is sent unless a send fails.
      ensures (&& old(pending) == []
               && (bypassGate || !old(initialInjectPending) || old(initialInjectGateAt) + 90_000_000_000 <= now)
               && connected && failures == old(failures)) ==>
                pending == [] && Flat(wire) == Flat(old(wire)) + combined
    {
      hide CanSend, Flat;
      ghost var q, f := State(), failures;
      var gated := !bypassGate && InjectGated(now);
      var hasPending := |pending| > 0;
      if gated || hasPending {
        AppendPendingInput(combined);
        assert wire + [] == wire;
        deferred := true;
      } else {
        var rem, chunks := TrySendInput(connected, combined);
        deferred := rem != "";
        if rem != "" {
          AppendPendingInput(rem);
        }
        assert [] + [rem] == [rem] && q.dropped + [] == q.dropped && q.wire + chunks + [] == q.wire + chunks;
        assert Tries(q, State(), connected, failures > f, combined, chunks, rem);
      }
      if |q.pending| < MAX_PENDING {
        SubmitKeepsText(q, State(), connected, failures > f, combined, gated);
      }
    }

    // A flush sends the queue in order, stops at the first failure and puts the
    // rest back.
    method FlushPendingInput(connected: bool, now: int)
      requires Valid()
      modifies this`pending, this`wire, this`dropped, this`failures
      ensures Valid() && Flushes(old(State()), State(), connected, failures > old(failures), old(InjectGated(now)))
      ensures dropped == old(dropped) && Total(State()) == Total(old(State()))
      ensures RestOf(old(pending), pending) || State() == old(State())
      // Before the initial prompt, for 90 seconds, it leaves everything as it is.
      ensures old(initialInjectPending) && now < old(initialInjectGateAt) + 90_000_000_000 ==>
                State() == old(State()) && failures == old(failures)
      // Otherwise the whole queue is sent unless a send fails.
      ensures (&& (!old(initialInjectPending) || old(initialInjectGateAt) + 90_000_000_000 <= now)
               && connected && failures == old(failures)) ==>
                pending == [] && Flat(wire) == Flat(old(wire)) + Flat(old(pending))
    {
      hide CanSend, CanSendAll, RestOf, Flat;
      ghost var q, f, barred := State(), failures, InjectGated(now);
      assert wire + [] == wire && dropped + [] == dropped && pending + [] == pending;
      if !InjectGated(now) {
        var queue := pending;
        pending := [];
        if |queue| > 0 {
          if !connected {
            RequeuePendingInput(queue);
          } else {
            SendQueue(queue);
          }
        }
      }
      FlushKeepsText(q, State(), connected, failures > f, barred);
    }

    method SendQueue(queue: seq<string>)
      requires pending == []
      modifies this`pending, this`wire, this`dropped, this`failures
      ensures Valid() && failures >= old(failures)
      ensures SendsAll(Queue(queue, old(wire), old(dropped)), State(), true, failures > old(failures), queue)
    {
      hide CanSend, CanSendAll, Continues;
      var remainder: seq<string> := [];
      ghost var all: seq<string> := [];
      var i := 0;
      StartSending(true, queue);
      StartSending(false, queue);
      while i < |queue|
        invariant 0 <= i <= |queue| && remainder == [] && pending == [] && dropped == old(dropped)
        invariant wire == old(wire) + all && failures >= old(failures)
        invariant Continues(true, queue, i, all)
        invariant failures == old(failures) ==> Continues(false, queue, i, all)
      {
        var rem, chunks := TrySendInput(true, queue[i]);
        SendOneMore(true, queue, i, all, chunks, rem);
        if failures == old(failures) {
          SendOneMore(false, queue, i, all, chunks, rem);
        }
        all := all + chunks;
        if rem != "" {
          remainder := [rem] + queue[i + 1..];
          break;
        }
        i := i + 1;
      }
      if |remainder| == 0 {
        AllSent(failures > old(failures), queue, all);
      }
      assert remainder + [] == remainder && wire + [] == wire && dropped + [] == dropped;
      if |remainder| > 0 {
        RequeuePendingInput(remainder);
      }
      assert SendsSome(Queue(queue, old(wire), old(dropped)), State(), true, failures > old(failures), queue, all, remainder);
    }
  }

  // Whatever the entries from i on may do, the whole queue may do after `all`.
  ghost predicate Continues(lossy: bool, queue: seq<string>, i: nat, all: seq<string>)
    requires i <= |queue|
  {
    forall more, rest | CanSendAll(true, lossy, queue[i..], more, rest) :: CanSendAll(true, lossy, queue, all + more, rest)
  }

  lemma {:induction false} StartSending(lossy: bool, queue: seq<string>)
    ensures Continues(lossy, queue, 0, [])
  {
    hide CanSendAll;
    assert queue[0..] == queue;
    assert forall more: seq<string> :: [] + more == more;
  }

  lemma {:induction false} SendOneMore(lossy: bool, queue: seq<string>, i: nat, all: seq<string>, chunks: seq<string>, rem: string)
    requires i < |queue| && Continues(lossy, queue, i, all) && CanSend(true, lossy, queue[i], chunks, rem)
    ensures if rem == "" then Continues(lossy, queue, i + 1, all + chunks) else CanSendAll(true, lossy, queue, all + chunks, [rem] + queue[i + 1..])
  {
    hide CanSend;
    var left := queue[i..];
    assert left[0] == queue[i] && left[1..] == queue[i + 1..];
    if rem == "" {
      forall more, rest | CanSendAll(true, lossy, queue[i + 1..], more, rest)
        ensures CanSendAll(true, lossy, queue, (all + chunks) + more, rest)
      {
        assert (chunks + more)[|chunks|..] == more && all + (chunks + more) == (all + chunks) + more;
        assert CanSendFirst(true, lossy, left, chunks + more, rest, chunks, rem);
      }
    } else {
      assert chunks[..|chunks|] == chunks;
      assert CanSendFirst(true, lossy, left, chunks, [rem] + queue[i + 1..], chunks, rem);
    }
  }

  lemma {:induction false} AllSent(lossy: bool, queue: seq<string>, all: seq<string>)
    requires Continues(lossy, queue, |queue|, all)
    ensures CanSendAll(true, lossy, queue, all, [])
  {
    assert queue[|queue|..] == [] && all + [] == all;
    assert CanSendAll(true, lossy, [], [], []);
  }
}
