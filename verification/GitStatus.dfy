/**
  The parser for "git status --porcelain=v1 -z" in internal/hub/git_status.go,
  and the printer it has to undo.
 */
module GitStatus {
  import opened Options
  import opened Text

  const NUL: char := '\0'

  datatype File = File(status: string, path: string)

  // --- the parser -------------------------------------------------------------------------

  predicate IsSpace(c: char) {
    c in {' ', '\t', '\n', '\r', 11 as char, 12 as char}
  }

  // strings.TrimSpace
  function TrimSpace(s: string): string {
    if s == "" then ""
    else if IsSpace(s[0]) then TrimSpace(s[1..])
    else if IsSpace(s[|s| - 1]) then TrimSpace(s[..|s| - 1])
    else s
  }

  function StatusOf(entry: string): string
    requires |entry| >= 4
  {
    var status := TrimSpace(entry[..2]);
    if status == "" then TrimSpace(entry[..1]) else status
  }

  function ShortStatus(status: string): string {
    if |status| <= 1 || status == "??" then status
    else if status[0] != ' ' && status[0] != '?' then status[..1]
    else status[1..]
  }

  predicate IsMove(status: string) {
    'R' in status || 'C' in status
  }

  // An entry of a rename or copy is followed by the path it came from.
  function Consumed(entries: seq<string>): nat
    requires entries != [] && |entries[0]| >= 4
  {
    if IsMove(StatusOf(entries[0])) && |entries| > 1 && entries[1] != "" then 2 else 1
  }

  function ParseEntries(entries: seq<string>): seq<File> {
    if entries == [] then []
    else if |entries[0]| < 4 then ParseEntries(entries[1..])
    else [File(ShortStatus(StatusOf(entries[0])), entries[0][3..])] + ParseEntries(entries[Consumed(entries)..])
  }

  method ParseGitStatusPorcelainZ(raw: string) returns (files: seq<File>)
    ensures files == ParseEntries(Split(raw, NUL))
  {
    hide TrimSpace, Split;
    if raw == "" {
      SplitEmpty();
      return [];
    }
    var entries := Split(raw, NUL);
    files := [];
    var i := 0;
    while i < |entries|
      invariant 0 <= i <= |entries|
      invariant files + ParseEntries(entries[i..]) == ParseEntries(entries)
    {
      var entry := entries[i];
      var left := entries[i..];
      assert left[1..] == entries[i + 1..];
      if |entry| < 4 {
        i := i + 1;
        continue;
      }
      var status := TrimSpace(entry[..2]);
      if status == "" {
        status := TrimSpace(entry[..1]);
      }
      var path := entry[3..];
      var shortStatus := status;
      if |shortStatus| > 1 {
        if shortStatus == "??" {
          shortStatus := "??";
        } else if shortStatus[0] != ' ' && shortStatus[0] != '?' {
          shortStatus := shortStatus[..1];
        } else {
          shortStatus := shortStatus[1..];
        }
      }
      ghost var next := i + Consumed(left);
      assert left[Consumed(left)..] == entries[next..];
      if 'R' in status || 'C' in status {
        if i + 1 < |entries| && entries[i + 1] != "" {
          i := i + 1;
        }
      }
      files := files + [File(shortStatus, path)];
      i := i + 1;
      assert i == next;
    }
    assert entries[|entries|..] == [];
  }

  lemma {:induction false} SplitEmpty()
    ensures ParseEntries(Split("", NUL)) == []
  {
    assert [""][1..] == [];
  }

  // --- what git prints ------------------------------------------------------------------------

  // One entry: the codes for the index and the work tree, the path, and for a
  // rename or copy the path it came from.
  datatype Entry = Entry(x: char, y: char, path: string, origin: Option<string>)

  predicate IsPath(s: string) {
    s != "" && NUL !in s
  }

  predicate Wellformed(e: Entry) {
    && ((e.x in " MTADRCU" && e.y in " MTADRCU" && !(e.x == ' ' && e.y == ' ')) || (e.x == e.y && e.x in "?!"))
    && IsPath(e.path)
    && (e.origin.Some? <==> e.x in "RC" || e.y in "RC")
    && (e.origin.Some? ==> IsPath(e.origin.value))
  }

  // Porcelain Format Version 1 with -z: NUL after every path, and the origin last.
  function PrintEntry(e: Entry): string {
    [e.x, e.y, ' '] + e.path + [NUL] + (if e.origin.Some? then e.origin.value + [NUL] else "")
  }

  function Print(entries: seq<Entry>): string {
    if entries == [] then "" else PrintEntry(entries[0]) + Print(entries[1..])
  }

  // The status to show: the index's if it has one, else the work tree's; a
  // question mark stays double.
  function Shown(e: Entry): File {
    File(if e.x == '?' then "??" else if e.x != ' ' then [e.x] else [e.y], e.path)
  }

  lemma {:induction false} StatusOfPrinted(e: Entry)
    requires Wellformed(e)
    ensures var status := StatusOf([e.x, e.y, ' '] + e.path);
            && ShortStatus(status) == Shown(e).status
            && (IsMove(status) <==> e.origin.Some?)
  {
    var entry := [e.x, e.y, ' '] + e.path;
    assert entry[..2] == [e.x, e.y];
    TrimCodes(e.x, e.y);
    assert StatusOf(entry) == (if e.x == ' ' then [e.y] else if e.y == ' ' then [e.x] else [e.x, e.y]);
    hide StatusOf, TrimSpace;
    if e.x != ' ' && e.y != ' ' {
      assert [e.x, e.y][..1] == [e.x];
      assert e.x == '?' <==> [e.x, e.y] == "??";
    }
  }

  lemma {:induction false} TrimCodes(x: char, y: char)
    requires !IsSpace(x) || !IsSpace(y)
    ensures TrimSpace([x, y]) == (if IsSpace(x) then [y] else if IsSpace(y) then [x] else [x, y])
  {
    assert [x, y][1..] == [y] && [x, y][..1] == [x];
    if IsSpace(x) {
      assert TrimSpace([y]) == [y];
    } else if IsSpace(y) {
      assert TrimSpace([x]) == [x];
    }
  }

  // Whatever follows, a printed entry is read as that entry and nothing else.
  lemma {:induction false} ParsePrintedEntry(e: Entry, rest: string)
    requires Wellformed(e)
    ensures ParseEntries(Split(PrintEntry(e) + rest, NUL)) == [Shown(e)] + ParseEntries(Split(rest, NUL))
  {
    hide StatusOf, ShortStatus, IsMove, Split;
    var first := [e.x, e.y, ' '] + e.path;
    assert first[3..] == e.path && first[0] == e.x && first[1] == e.y;
    StatusOfPrinted(e);
    var others := Split(rest, NUL);
    if e.origin.Some? {
      var origin := e.origin.value;
      assert PrintEntry(e) + rest == first + [NUL] + (origin + [NUL] + rest);
      SplitFirst(first, NUL, origin + [NUL] + rest);
      SplitFirst(origin, NUL, rest);
      var parts := [first] + ([origin] + others);
      assert parts[2..] == others;
      assert ParseEntries(parts) == [File(ShortStatus(StatusOf(first)), first[3..])] + ParseEntries(parts[Consumed(parts)..]);
    } else {
      assert PrintEntry(e) + rest == first + [NUL] + rest;
      SplitFirst(first, NUL, rest);
      var parts := [first] + others;
      assert parts[1..] == others;
      assert ParseEntries(parts) == [File(ShortStatus(StatusOf(first)), first[3..])] + ParseEntries(parts[Consumed(parts)..]);
    }
  }

  function AllShown(entries: seq<Entry>): seq<File> {
    if entries == [] then [] else [Shown(entries[0])] + AllShown(entries[1..])
  }

  // Parsing undoes printing: every path and status in order, and no origin ever
  // taken for an entry.
  lemma {:induction false} ParseUndoesPrint(entries: seq<Entry>)
    requires forall e <- entries :: Wellformed(e)
    ensures ParseEntries(Split(Print(entries), NUL)) == AllShown(entries)
  {
    if entries == [] {
      assert [""][1..] == [];
    } else {
      ParsePrintedEntry(entries[0], Print(entries[1..]));
      ParseUndoesPrint(entries[1..]);
    }
  }
}
