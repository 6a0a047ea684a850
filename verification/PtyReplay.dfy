/**
  The replay buffer of PTY output (appendPTYReplay in
  internal/hub/approval_native.go): a Go slice that holds the newest output and
  is updated within its backing array whenever that has room.
 */
module PtyReplay {

  const MAX_PTY_BUF: nat := 2 * 1024 * 1024

  type byte = bv8

  // A Go slice: len bytes from off on, with room for cap.
  datatype Slice = Slice(a: array<byte>, off: nat, len: nat, cap: nat)

  ghost predicate Fits(s: Slice) {
    s.len <= s.cap && s.off + s.cap <= s.a.Length
  }

  ghost function Contents(s: Slice): seq<byte>
    requires Fits(s)
    reads s.a
  {
    s.a[s.off..s.off + s.len]
  }

  // The newest bytes of a stream, as many as the buffer may hold.
  function Tail(stream: seq<byte>): (r: seq<byte>)
    ensures |r| <= MAX_PTY_BUF
  {
    if |stream| > MAX_PTY_BUF then stream[|stream| - MAX_PTY_BUF..] else stream
  }

  // --- what Go's built-ins do ---------------------------------------------------------

  method MakeSlice(len: nat, cap: nat) returns (s: Slice)
    requires len <= cap
    ensures Fits(s) && fresh(s.a) && s.off == 0 && s.len == len && s.cap == cap
  {
    var a := new byte[cap];
    s := Slice(a, 0, len, cap);
  }

  // append: in place if there is room, else into an array of any sufficient size.
  method Append(s: Slice, data: seq<byte>) returns (r: Slice)
    requires Fits(s)
    modifies s.a
    ensures Fits(r) && (r.a == s.a || fresh(r.a))
    ensures Contents(r) == old(Contents(s)) + data
  {
    var n := s.len + |data|;
    if n <= s.cap {
      r := s.(len := n);
      forall i | 0 <= i < |data| {
        s.a[s.off + s.len + i] := data[i];
      }
      assert Contents(r) == old(Contents(s)) + data by {
        assert forall i | 0 <= i < s.len :: Contents(r)[i] == old(Contents(s))[i];
        assert forall i | 0 <= i < |data| :: Contents(r)[s.len + i] == s.a[s.off + s.len + i] == data[i];
      }
    } else {
      var cap :| cap >= n;
      r := MakeSlice(n, cap);
      forall i | 0 <= i < n {
        r.a[i] := if i < s.len then s.a[s.off + i] else data[i - s.len];
      }
      assert Contents(r) == r.a[..n];
    }
  }

  // --- the buffer -----------------------------------------------------------------------

  // Whatever the slice given and its capacity, the result holds the newest bytes
  // of the old contents followed by the data; no data changes nothing.
  method AppendPTYReplay(given: Slice, data: seq<byte>) returns (buf: Slice)
    requires Fits(given)
    modifies given.a
    ensures Fits(buf) && (buf.a == given.a || fresh(buf.a))
    ensures data != [] ==> Contents(buf) == Tail(old(Contents(given)) + data)
    ensures data == [] ==> buf == given && Contents(buf) == old(Contents(given))
  {
    hide Tail, Contents;
    if |data| == 0 {
      return given;
    }
    buf := given;
    if buf.cap > MAX_PTY_BUF {
      buf := Compact(buf);
      NewestOfNewest(Contents(given), data);
    }
    buf := AppendWithin(buf, data);
  }

  method AppendWithin(given: Slice, data: seq<byte>) returns (buf: Slice)
    requires Fits(given) && given.cap <= MAX_PTY_BUF
    modifies given.a
    ensures Fits(buf) && (buf.a == given.a || fresh(buf.a))
    ensures Contents(buf) == Tail(old(Contents(given)) + data)
  {
    hide Tail, Contents;
    ghost var kept := Contents(given);
    ContentsLength(given);
    if |data| >= MAX_PTY_BUF {
      LongDataFills(kept, data);
      buf := Overwrite(given, data);
      return;
    }
    if given.len + |data| <= MAX_PTY_BUF {
      TailIs([], kept + data);
      assert [] + (kept + data) == kept + data;
      buf := Append(given, data);
      return;
    }
    KeepsTheNewest(kept, data);
    buf := given;
    var keep := MAX_PTY_BUF - |data|;
    if keep > 0 {
      buf := MoveToFront(buf, keep);
    } else {
      assert false;
    }
    buf := Append(buf, data);
  }

  lemma {:induction false} ContentsLength(s: Slice)
    requires Fits(s)
    ensures |Contents(s)| == s.len
  {
  }

  // The slice expression s[n:].
  function From(s: Slice, n: nat): (r: Slice)
    requires Fits(s) && n <= s.len
    reads s.a
    ensures Fits(r) && r.a == s.a && Contents(r) == Contents(s)[n..]
  {
    s.(off := s.off + n, len := s.len - n, cap := s.cap - n)
  }

  method Compact(s: Slice) returns (compact: Slice)
    requires Fits(s)
    ensures Fits(compact) && fresh(compact.a) && compact.cap == MAX_PTY_BUF
    ensures Contents(compact) == Tail(Contents(s))
  {
    var buf := s;
    if buf.len > MAX_PTY_BUF {
      buf := From(buf, buf.len - MAX_PTY_BUF);
    }
    compact := CopyOf(buf, MAX_PTY_BUF);
  }

  method CopyOf(s: Slice, cap: nat) returns (r: Slice)
    requires Fits(s) && s.len <= cap
    ensures Fits(r) && fresh(r.a) && r.cap == cap && Contents(r) == Contents(s)
  {
    r := MakeSlice(s.len, cap);
    forall i | 0 <= i < s.len {
      r.a[i] := s.a[s.off + i];
    }
    assert Contents(s) == s.a[s.off..s.off + s.len];
  }

  // The data alone fills the buffer.
  method Overwrite(s: Slice, data: seq<byte>) returns (buf: Slice)
    requires Fits(s) && s.cap <= MAX_PTY_BUF && |data| >= MAX_PTY_BUF
    modifies s.a
    ensures Fits(buf) && (buf.a == s.a || fresh(buf.a))
    ensures Contents(buf) == Tail(data)
  {
    if s.cap < MAX_PTY_BUF {
      buf := MakeSlice(MAX_PTY_BUF, MAX_PTY_BUF);
    } else {
      buf := s.(len := MAX_PTY_BUF);
    }
    forall i | 0 <= i < MAX_PTY_BUF {
      buf.a[buf.off + i] := data[|data| - MAX_PTY_BUF + i];
    }
  }

  // copy between overlapping parts of one array: every byte is read as it was before.
  method MoveToFront(s: Slice, keep: nat) returns (buf: Slice)
    requires Fits(s) && keep <= s.len
    modifies s.a
    ensures Fits(buf) && buf.a == s.a && buf.len == keep
    ensures Contents(buf) == old(Contents(s))[s.len - keep..]
  {
    forall i | 0 <= i < keep {
      s.a[s.off + i] := s.a[s.off + s.len - keep + i];
    }
    buf := s.(len := keep);
  }

  // The newest bytes are what is left once an older part is cut off.
  lemma {:induction false} TailSplits(stream: seq<byte>) returns (older: seq<byte>)
    ensures stream == older + Tail(stream)
    ensures older == [] || |Tail(stream)| == MAX_PTY_BUF
  {
    older := stream[..|stream| - |Tail(stream)|];
  }

  lemma {:induction false} TailIs(older: seq<byte>, newest: seq<byte>)
    requires |newest| == MAX_PTY_BUF || (|newest| < MAX_PTY_BUF && older == [])
    ensures Tail(older + newest) == newest
  {
    if |newest| < MAX_PTY_BUF {
      assert older + newest == newest;
    }
  }

  // What was cut off before the data came would be cut off with it anyway.
  lemma {:induction false} NewestOfNewest(stream: seq<byte>, data: seq<byte>)
    ensures Tail(Tail(stream) + data) == Tail(stream + data)
  {
    hide Tail;
    var p := TailSplits(stream);
    var both := Tail(stream) + data;
    var q := TailSplits(both);
    assert p + (q + Tail(both)) == stream + data;
    assert (p + q) + Tail(both) == stream + data;
    TailIs(p + q, Tail(both));
  }

  lemma {:induction false} LongDataFills(stream: seq<byte>, data: seq<byte>)
    requires |data| >= MAX_PTY_BUF
    ensures Tail(stream + data) == Tail(data)
  {
    hide Tail;
    var p := TailSplits(data);
    assert (stream + p) + Tail(data) == stream + data;
    TailIs(stream + p, Tail(data));
  }

  // When the buffer overflows, as many old bytes stay as the data leaves room for.
  lemma {:induction false} KeepsTheNewest(stream: seq<byte>, data: seq<byte>)
    requires |data| < MAX_PTY_BUF < |stream| + |data|
    ensures stream[|stream| - (MAX_PTY_BUF - |data|)..] + data == Tail(stream + data)
  {
    hide Tail;
    var at := |stream| - (MAX_PTY_BUF - |data|);
    assert stream[..at] + (stream[at..] + data) == stream + data;
    TailIs(stream[..at], stream[at..] + data);
  }

  // --- the buffer over a session's life ------------------------------------------------

  class SessionOutput {
    var ptyBuf: Slice
    ghost var stream: seq<byte> // everything received since the last reset

    ghost predicate Valid() reads this, ptyBuf.a {
      Fits(ptyBuf) && Contents(ptyBuf) == Tail(stream)
    }

    // A wrapper that reattaches brings a replay of its own, cut to size.
    constructor (replay: Slice)
      requires Fits(replay)
      ensures Valid() && stream == Contents(replay) && ptyBuf.a == replay.a
    {
      ptyBuf := if replay.len > MAX_PTY_BUF then From(replay, replay.len - MAX_PTY_BUF) else replay;
      stream := Contents(replay);
    }

    method Receive(data: seq<byte>)
      requires Valid()
      modifies this, ptyBuf.a
      ensures Valid() && stream == old(stream) + data
      ensures ptyBuf.a == old(ptyBuf.a) || fresh(ptyBuf.a)
    {
      hide Tail;
      NewestOfNewest(stream, data);
      assert stream + [] == stream;
      ptyBuf := AppendPTYReplay(ptyBuf, data);
      stream := stream + data;
    }

    method HandleHistoryReset()
      modifies this
      ensures Valid() && stream == [] && fresh(ptyBuf.a)
    {
      ptyBuf := MakeSlice(0, 0);
      stream := [];
    }
  }

  ghost function Joined(chunks: seq<seq<byte>>): seq<byte> {
    if chunks == [] then [] else Joined(chunks[..|chunks| - 1]) + chunks[|chunks| - 1]
  }

  ghost function Replayed(start: seq<byte>, chunks: seq<seq<byte>>): seq<byte> {
    if chunks == [] then Tail(start) else Tail(Replayed(start, chunks[..|chunks| - 1]) + chunks[|chunks| - 1])
  }

  // However the output is cut into chunks, the buffer ends up with the newest
  // bytes of the whole stream.
  lemma {:induction false} ChunksDoNotMatter(start: seq<byte>, chunks: seq<seq<byte>>)
    ensures Replayed(start, chunks) == Tail(start + Joined(chunks))
  {
    hide Tail;
    if chunks == [] {
      assert start + [] == start;
    } else {
      var n := |chunks| - 1;
      ChunksDoNotMatter(start, chunks[..n]);
      var before := start + Joined(chunks[..n]);
      NewestOfNewest(before, chunks[n]);
      assert before + chunks[n] == start + Joined(chunks);
    }
  }
}
