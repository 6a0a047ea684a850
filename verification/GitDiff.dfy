/**
  The diff shown for a file that git does not track yet (synthesizeAddDiff in
  internal/hub/git_diff.go): its whole content as one added hunk.

  A character stands for a byte.
 */
module GitDiff {
  import opened Options
  import opened Text

  const GIT_SHOW_DIFF_MAX_BYTES: nat := 256 * 1024
  const BINARY_PROBE_BYTES: nat := 8000

  const NO_NEWLINE_LINE: string := "\\ No newline at end of file"
  const NO_NEWLINE: string := NO_NEWLINE_LINE + "\n"
  const TRUNCATED: string := "(truncated)\n"

  // --- text ----------------------------------------------------------------------------

  predicate EndsLine(s: string) {
    s != "" && s[|s| - 1] == '\n'
  }

  // strings.TrimSuffix(s, "\n")
  function TrimNewline(s: string): string {
    if EndsLine(s) then s[..|s| - 1] else s
  }

  function Header(relPath: string): string {
    "diff --git a/" + relPath + " b/" + relPath + "\n" + "new file mode 100644\n" + "--- /dev/null\n" + "+++ b/" + relPath + "\n"
  }

  function HunkHeader(n: nat): string {
    "@@ -0,0 +1," + Decimal(n) + " @@"
  }

  // The lines as added ones.
  function Added(lines: seq<string>): string {
    if lines == [] then "" else Added(lines[..|lines| - 1]) + ("+" + lines[|lines| - 1] + "\n")
  }

  predicate IsBinary(data: string) {
    exists i :: 0 <= i < |data| && i < BINARY_PROBE_BYTES && data[i] == '\0'
  }

  function Lines(data: string): seq<string> {
    Split(TrimNewline(data), '\n')
  }

  // The diff up to its k-th line.
  function Shown(relPath: string, lines: seq<string>, k: nat): string
    requires k <= |lines|
  {
    Header(relPath) + HunkHeader(|lines|) + "\n" + Added(lines[..k])
  }

  function FullDiff(relPath: string, data: string): string {
    Shown(relPath, Lines(data), |Lines(data)|) + (if EndsLine(data) then "" else NO_NEWLINE)
  }


  // --- the algorithm ---------------------------------------------------------------------

  method FindNul(data: string) returns (found: bool)
    ensures found <==> IsBinary(data)
  {
    var probe := data;
    if |probe| > BINARY_PROBE_BYTES {
      probe := probe[..BINARY_PROBE_BYTES];
    }
    var i := 0;
    while i < |probe|
      invariant 0 <= i <= |probe|
      invariant forall j | 0 <= j < i :: data[j] != '\0'
    {
      if probe[i] == '\0' {
        return true;
      }
      i := i + 1;
    }
    return false;
  }

  // The first k lines are the fewest that exceed the limit, and are not all of them.
  predicate CutBefore(relPath: string, lines: seq<string>, k: nat) {
    && k < |lines|
    && |Shown(relPath, lines, k)| > GIT_SHOW_DIFF_MAX_BYTES
    && forall j: nat | j < k :: |Shown(relPath, lines, j)| <= GIT_SHOW_DIFF_MAX_BYTES
  }

  ghost predicate IsCut(relPath: string, data: string) {
    exists k: nat :: CutBefore(relPath, Lines(data), k)
  }

  // The diff of the data, and the number of lines it adds.
  ghost predicate IsAddDiff(relPath: string, data: string, diff: string, added: nat) {
    if IsBinary(data) then diff == Header(relPath) + "Binary file (new)\n" && added == 0
    else if data == "" then diff == Header(relPath) && added == 0
    else
      && added == |Lines(data)|
      && (!IsCut(relPath, data) ==> diff == FullDiff(relPath, data))
      && (forall k: nat | CutBefore(relPath, Lines(data), k) :: diff == Shown(relPath, Lines(data), k) + TRUNCATED)
  }

  method SynthesizeAddDiff(relPath: string, data: string) returns (diff: string, added: nat)
    ensures IsAddDiff(relPath, data, diff, added)
    ensures (exists i :: 0 <= i < |data| && i < 8000 && data[i] == '\0') ==>
              diff == Header(relPath) + "Binary file (new)\n" && added == 0
  {
    var header := Header(relPath);
    var binary := FindNul(data);
    if binary {
      return header + "Binary file (new)\n", 0;
    }
    if |data| == 0 {
      return header, 0;
    }
    var noEOFNewline := !EndsLine(data);
    var content := TrimNewline(data);
    var lines := Split(content, '\n');
    var b := header;
    b := b + HunkHeader(|lines|) + "\n";
    var truncated := false;
    var k := 0;
    assert lines[..0] == [];
    while k < |lines|
      invariant 0 <= k <= |lines|
      invariant b == Shown(relPath, lines, k)
      invariant !truncated
      invariant forall j: nat | j < k :: |Shown(relPath, lines, j)| <= GIT_SHOW_DIFF_MAX_BYTES
    {
      if |b| > GIT_SHOW_DIFF_MAX_BYTES {
        truncated := true;
        break;
      }
      OneMoreLine(relPath, lines, k);
      b := b + "+";
      b := b + lines[k];
      b := b + "\n";
      k := k + 1;
    }
    if truncated {
      assert CutBefore(relPath, lines, k);
      b := b + TRUNCATED;
    } else if noEOFNewline {
      b := b + NO_NEWLINE;
    }
    return b, |lines|;
  }

  // The caller reads no more than one byte beyond the limit.
  function ReadLimited(file: string): string {
    if |file| > GIT_SHOW_DIFF_MAX_BYTES + 1 then file[..GIT_SHOW_DIFF_MAX_BYTES + 1] else file
  }

  // A file that cannot be read has an empty diff.
  method SynthesizeUntrackedDiff(relPath: string, file: Option<string>) returns (diff: string, added: nat)
    ensures file.None? ==> diff == "" && added == 0
    ensures file.Some? ==> IsAddDiff(relPath, ReadLimited(file.value), diff, added)
  {
    if file.None? {
      return "", 0;
    }
    diff, added := SynthesizeAddDiff(relPath, ReadLimited(file.value));
  }

  lemma {:induction false} OneMoreLine(relPath: string, lines: seq<string>, k: nat)
    requires k < |lines|
    ensures Shown(relPath, lines, k + 1) == Shown(relPath, lines, k) + "+" + lines[k] + "\n"
  {
    assert lines[..k + 1][..k] == lines[..k];
  }

  // --- what the diff means --------------------------------------------------------------------

  // What the hunk makes of an empty file: every added line, with its newline
  // unless it is marked to have none (POSIX.1-2017 diff -u).
  function Applied(lines: seq<string>): string {
    if lines == [] then ""
    else if |lines[0]| > 0 && lines[0][0] == '+' then
      if |lines| > 1 && |lines[1]| > 0 && lines[1][0] == '\\' then lines[0][1..] + Applied(lines[2..])
      else lines[0][1..] + "\n" + Applied(lines[1..])
    else Applied(lines[1..])
  }

  function CountAdded(lines: seq<string>): nat {
    if lines == [] then 0
    else (if |lines[0]| > 0 && lines[0][0] == '+' then 1 else 0) + CountAdded(lines[1..])
  }

  // The diff without the lines that name the file.
  function Hunk(diff: string, relPath: string): string
    requires Header(relPath) <= diff
  {
    diff[|Header(relPath)|..]
  }

  // --- lemmas about text ------------------------------------------------------------------------

  function Plus(lines: seq<string>): seq<string> {
    seq(|lines|, i requires 0 <= i < |lines| => "+" + lines[i])
  }

  lemma {:induction false} AddedLast(lines: seq<string>, last: string)
    ensures Added(lines + [last]) == Added(lines) + ("+" + last + "\n")
  {
    assert (lines + [last])[..|lines|] == lines;
  }

  lemma {:induction false} AddedFirst(lines: seq<string>)
    requires lines != []
    ensures Added(lines) == "+" + lines[0] + "\n" + Added(lines[1..])
  {
    var n := |lines| - 1;
    if n == 0 {
      AddedLast([], lines[0]);
      assert lines == [] + [lines[0]] && lines[1..] == [];
    } else {
      AddedFirst(lines[..n]);
      AddedFirstStep(lines);
    }
  }

  lemma {:induction false} AddedFirstStep(lines: seq<string>)
    requires |lines| > 1
    requires var front := lines[..|lines| - 1]; Added(front) == "+" + front[0] + "\n" + Added(front[1..])
    ensures Added(lines) == "+" + lines[0] + "\n" + Added(lines[1..])
  {
    hide Added;
    var front, last := lines[..|lines| - 1], lines[|lines| - 1];
    var first, end := "+" + lines[0] + "\n", "+" + last + "\n";
    AddedLast(front, last);
    AddedLast(front[1..], last);
    assert front + [last] == lines && front[1..] + [last] == lines[1..];
    assert (first + Added(front[1..])) + end == first + (Added(front[1..]) + end);
  }

  lemma {:induction false} SplitAdded(lines: seq<string>, rest: string)
    requires forall i | 0 <= i < |lines| :: '\n' !in lines[i]
    ensures Split(Added(lines) + rest, '\n') == Plus(lines) + Split(rest, '\n')
  {
    if lines == [] {
      assert "" + rest == rest;
    } else {
      SplitAdded(lines[1..], rest);
      SplitOneMore(lines, rest);
    }
  }

  lemma {:induction false} SplitOneMore(lines: seq<string>, rest: string)
    requires lines != [] && '\n' !in lines[0]
    requires Split(Added(lines[1..]) + rest, '\n') == Plus(lines[1..]) + Split(rest, '\n')
    ensures Split(Added(lines) + rest, '\n') == Plus(lines) + Split(rest, '\n')
  {
    hide Added, Split;
    AddedFirst(lines);
    var first := "+" + lines[0];
    assert Added(lines) + rest == first + "\n" + (Added(lines[1..]) + rest);
    SplitFirst(first, '\n', Added(lines[1..]) + rest);
    assert Plus(lines) == [first] + Plus(lines[1..]);
  }

  // What follows the added lines, as lines.
  function Rest(ended: bool): seq<string> {
    if ended then [""] else [NO_NEWLINE_LINE, ""]
  }

  lemma {:induction false} SplitRest(ended: bool)
    ensures Split(if ended then "" else NO_NEWLINE, '\n') == Rest(ended)
  {
    if !ended {
      assert NO_NEWLINE_LINE + "\n" + "" == NO_NEWLINE;
      SplitFirst(NO_NEWLINE_LINE, '\n', "");
    }
  }

  lemma {:induction false} RestAddsNothing(ended: bool)
    ensures Applied(Rest(ended)) == "" && CountAdded(Rest(ended)) == 0 && Applied(Rest(ended)[1..]) == ""
  {
    assert [""][1..] == [] && [NO_NEWLINE_LINE, ""][1..] == [""];
    assert Applied([""]) == "" && CountAdded([""]) == 0;
    assert NO_NEWLINE_LINE[0] == '\\';
  }

  // Applying added lines, all ended or all but the last.
  lemma {:induction false} AppliedAdded(lines: seq<string>, ended: bool)
    requires lines != []
    ensures Applied(Plus(lines) + Rest(ended)) == Joined(lines, '\n') + (if ended then "\n" else "")
    ensures CountAdded(Plus(lines) + Rest(ended)) == |lines|
  {
    var first, all := "+" + lines[0], Plus(lines) + Rest(ended);
    assert all[0] == first && first[1..] == lines[0];
    assert all[1..] == Plus(lines[1..]) + Rest(ended);
    if |lines| == 1 {
      assert Plus(lines[1..]) + Rest(ended) == Rest(ended);
      RestAddsNothing(ended);
      assert all[2..] == Rest(ended)[1..];
    } else {
      AppliedAdded(lines[1..], ended);
      assert all[1] == "+" + lines[1];
    }
  }

  lemma {:induction false} HeaderAddsNothing(header: string, rest: seq<string>)
    requires header != "" && header[0] == '@'
    ensures Applied([header] + rest) == Applied(rest) && CountAdded([header] + rest) == CountAdded(rest)
  {
    assert ([header] + rest)[1..] == rest;
  }

  // The full diff turns an empty file into exactly the data, and its header
  // counts its added lines.
  lemma {:induction false} DiffGivesBackTheFile(relPath: string, data: string)
    requires data != ""
    ensures var diff, n := FullDiff(relPath, data), |Lines(data)|;
            && Header(relPath) <= diff
            && var hunk := Split(Hunk(diff, relPath), '\n');
               hunk[0] == HunkHeader(n) && CountAdded(hunk) == n && Applied(hunk) == data
  {
    hide Split, Applied, CountAdded, Added, HunkHeader, Header;
    var lines, ended := Lines(data), EndsLine(data);
    HunkLines(relPath, data);
    HunkHeaderIsALine(|lines|);
    HeaderAddsNothing(HunkHeader(|lines|), Plus(lines) + Rest(ended));
    AppliedAdded(lines, ended);
    JoinSplit(TrimNewline(data), '\n');
    assert data == Joined(lines, '\n') + (if ended then "\n" else "");
  }

  lemma {:induction false} HunkLines(relPath: string, data: string)
    requires data != ""
    ensures Header(relPath) <= FullDiff(relPath, data)
    ensures Split(Hunk(FullDiff(relPath, data), relPath), '\n') == [HunkHeader(|Lines(data)|)] + (Plus(Lines(data)) + Rest(EndsLine(data)))
  {
    hide Split, Added, HunkHeader, Header;
    var lines, diff := Lines(data), FullDiff(relPath, data);
    var end := if EndsLine(data) then "" else NO_NEWLINE;
    var hunk := HunkHeader(|lines|) + "\n" + (Added(lines) + end);
    assert lines[..|lines|] == lines;
    assert diff == Header(relPath) + hunk;
    assert diff[|Header(relPath)|..] == hunk;
    HunkHeaderIsALine(|lines|);
    SplitFirst(HunkHeader(|lines|), '\n', Added(lines) + end);
    SplitAdded(lines, end);
    SplitRest(EndsLine(data));
  }

  lemma {:induction false} HunkHeaderIsALine(n: nat)
    ensures '\n' !in HunkHeader(n) && |HunkHeader(n)| > 0 && HunkHeader(n)[0] == '@'
  {
  }

  // A truncated diff is the beginning of the full one, by whole lines.
  lemma {:induction false} TruncatedIsAPrefix(relPath: string, data: string, k: nat)
    requires CutBefore(relPath, Lines(data), k)
    ensures Shown(relPath, Lines(data), k) < FullDiff(relPath, data)
    ensures GIT_SHOW_DIFF_MAX_BYTES < |FullDiff(relPath, data)|
  {
    AddedGrows(Lines(data), k, |Lines(data)|);
  }

  lemma {:induction false} AddedGrows(lines: seq<string>, k: nat, n: nat)
    requires k <= n <= |lines|
    ensures Added(lines[..k]) <= Added(lines[..n])
    ensures k < n ==> Added(lines[..k]) < Added(lines[..n])
    decreases n - k
  {
    if k < n {
      assert lines[..k + 1][..k] == lines[..k];
      AddedGrows(lines, k + 1, n);
    }
  }

  // The diff is cut exactly if its last line would start beyond the limit.
  lemma {:induction false} WhenTheDiffIsCut(relPath: string, lines: seq<string>)
    requires lines != []
    ensures (exists k: nat :: CutBefore(relPath, lines, k)) <==> |Shown(relPath, lines, |lines| - 1)| > GIT_SHOW_DIFF_MAX_BYTES
  {
    var last := |lines| - 1;
    if k: nat :| CutBefore(relPath, lines, k) {
      AddedGrows(lines, k, last);
    }
    if |Shown(relPath, lines, last)| > GIT_SHOW_DIFF_MAX_BYTES {
      var k := FirstTooLong(relPath, lines, last);
    }
  }

  lemma {:induction false} FirstTooLong(relPath: string, lines: seq<string>, n: nat) returns (k: nat)
    requires n < |lines| && |Shown(relPath, lines, n)| > GIT_SHOW_DIFF_MAX_BYTES
    ensures CutBefore(relPath, lines, k)
  {
    k := n;
    while k > 0 && |Shown(relPath, lines, k - 1)| > GIT_SHOW_DIFF_MAX_BYTES
      invariant k <= n && |Shown(relPath, lines, k)| > GIT_SHOW_DIFF_MAX_BYTES
    {
      k := k - 1;
    }
    forall j: nat | j < k
      ensures |Shown(relPath, lines, j)| <= GIT_SHOW_DIFF_MAX_BYTES
    {
      AddedGrows(lines, j, k - 1);
    }
  }

  // --- when the diff shows the file on disk ------------------------------------------------

  // Every line with its newline.
  ghost function Ended(lines: seq<string>): string {
    if lines == [] then "" else lines[0] + "\n" + Ended(lines[1..])
  }

  lemma {:induction false} JoinedAt(lines: seq<string>, k: nat)
    requires k < |lines|
    ensures Joined(lines, '\n') == Ended(lines[..k]) + Joined(lines[k..], '\n')
    ensures k > 0 ==> EndsLine(Ended(lines[..k]))
  {
    if k == 0 {
      assert lines[..0] == [] && lines[0..] == lines;
    } else {
      JoinedAt(lines[1..], k - 1);
      assert lines[..k][1..] == lines[1..][..k - 1] && lines[..k][0] == lines[0] && lines[1..][k - 1..] == lines[k..];
      var before := Ended(lines[1..][..k - 1]);
      assert lines[0] + "\n" + (before + Joined(lines[k..], '\n')) == (lines[0] + "\n" + before) + Joined(lines[k..], '\n');
      assert k == 1 ==> before == "";
    }
  }

  // What a cut diff shows is not all of the data.
  lemma {:induction false} CutLosesSomething(data: string, k: nat)
    requires data != "" && k < |Lines(data)|
    ensures |Ended(Lines(data)[..k])| < |data|
  {
    hide Ended, Joined;
    var lines := Lines(data);
    JoinSplit(TrimNewline(data), '\n');
    JoinedAt(lines, k);
  }

  lemma {:induction false} AppliedEnded(lines: seq<string>, tail: seq<string>)
    requires tail != [] && (tail[0] == "" || tail[0][0] != '\\')
    ensures Applied(Plus(lines) + tail) == Ended(lines) + Applied(tail)
  {
    if lines == [] {
      assert Plus(lines) + tail == tail;
      assert "" + Applied(tail) == Applied(tail);
    } else {
      AppliedEnded(lines[1..], tail);
      AppliedEndedStep(lines, tail);
    }
  }

  lemma {:induction false} AppliedEndedStep(lines: seq<string>, tail: seq<string>)
    requires lines != [] && tail != [] && (tail[0] == "" || tail[0][0] != '\\')
    requires Applied(Plus(lines[1..]) + tail) == Ended(lines[1..]) + Applied(tail)
    ensures Applied(Plus(lines) + tail) == Ended(lines) + Applied(tail)
  {
    hide Applied, Plus;
    PlusFirst(lines, tail);
    FirstApplied(lines[0], Plus(lines[1..]) + tail);
    assert (lines[0] + "\n" + Ended(lines[1..])) + Applied(tail) == lines[0] + "\n" + (Ended(lines[1..]) + Applied(tail));
  }

  lemma {:induction false} PlusFirst(lines: seq<string>, tail: seq<string>)
    requires lines != [] && tail != [] && (tail[0] == "" || tail[0][0] != '\\')
    ensures Plus(lines) + tail == ["+" + lines[0]] + (Plus(lines[1..]) + tail)
    ensures var rest := Plus(lines[1..]) + tail; rest != [] && (rest[0] == "" || rest[0][0] != '\\')
  {
    assert Plus(lines) == ["+" + lines[0]] + Plus(lines[1..]);
  }

  // An added line keeps its newline unless the next line says that it has none.
  lemma {:induction false} FirstApplied(line: string, rest: seq<string>)
    requires rest != [] && (rest[0] == "" || rest[0][0] != '\\')
    ensures Applied(["+" + line] + rest) == line + "\n" + Applied(rest)
  {
    var all := ["+" + line] + rest;
    assert all[0] == "+" + line && all[0][1..] == line && all[1..] == rest && all[1] == rest[0];
  }

  lemma {:induction false} CutDiffApplied(relPath: string, data: string, k: nat)
    requires k < |Lines(data)|
    ensures var diff := Shown(relPath, Lines(data), k) + TRUNCATED;
            Header(relPath) <= diff && Applied(Split(Hunk(diff, relPath), '\n')) == Ended(Lines(data)[..k])
  {
    hide Split, Added, HunkHeader, Header, Ended, Applied;
    var lines := Lines(data);
    var some, header := lines[..k], HunkHeader(|lines|);
    var hunk := header + "\n" + (Added(some) + TRUNCATED);
    assert Shown(relPath, lines, k) + TRUNCATED == Header(relPath) + hunk;
    assert (Header(relPath) + hunk)[|Header(relPath)|..] == hunk;
    HunkHeaderIsALine(|lines|);
    SplitFirst(header, '\n', Added(some) + TRUNCATED);
    SplitAdded(some, TRUNCATED);
    TruncatedLine();
    HeaderAddsNothing(header, Plus(some) + ["(truncated)", ""]);
    AppliedEnded(some, ["(truncated)", ""]);
    assert Ended(some) + "" == Ended(some);
  }

  lemma {:induction false} TruncatedLine()
    ensures Split(TRUNCATED, '\n') == ["(truncated)", ""] && Applied(["(truncated)", ""]) == ""
  {
    assert "(truncated)" + "\n" + "" == TRUNCATED;
    SplitFirst("(truncated)", '\n', "");
    assert ["(truncated)", ""][1..] == [""] && [""][1..] == [];
    assert Applied([""]) == "";
  }

  lemma {:induction false} PlaceholderApplied()
    ensures Applied(Split("Binary file (new)\n", '\n')) == "" && Applied(Split("", '\n')) == ""
  {
    var line := "Binary file (new)";
    assert line + "\n" + "" == "Binary file (new)\n";
    SplitFirst(line, '\n', "");
    assert [line, ""][1..] == [""] && [""][1..] == [];
    assert Applied([""]) == "" && Applied([line, ""]) == "";
  }

  // The diff shown for a file on disk gives the file back exactly if the file is
  // empty, or is not taken for binary, was read in full and is not cut. A longer
  // file of one line is shown as if it ended where reading stopped.
  lemma {:induction false} WhenTheDiffShowsTheFile(relPath: string, file: string, diff: string, added: nat)
    requires IsAddDiff(relPath, ReadLimited(file), diff, added)
    ensures Header(relPath) <= diff
    ensures Applied(Split(Hunk(diff, relPath), '\n')) == file
       <==> file == "" || (!IsBinary(file) && |file| <= GIT_SHOW_DIFF_MAX_BYTES + 1 && !IsCut(relPath, file))
  {
    hide Split, Applied, Header, Lines, Shown, FullDiff, CutBefore, Ended;
    var data := ReadLimited(file);
    assert IsBinary(data) <==> IsBinary(file);
    PlaceholderApplied();
    if IsBinary(data) {
      assert diff[|Header(relPath)|..] == "Binary file (new)\n";
      assert file != "";
    } else if data == "" {
      assert diff[|Header(relPath)|..] == "";
    } else if k: nat :| CutBefore(relPath, Lines(data), k) {
      CutLength(relPath, data, k);
      CutDiffApplied(relPath, data, k);
      CutLosesSomething(data, k);
    } else {
      DiffGivesBackTheFile(relPath, data);
    }
  }

  lemma {:induction false} CutLength(relPath: string, data: string, k: nat)
    requires CutBefore(relPath, Lines(data), k)
    ensures k < |Lines(data)|
  {
  }
}
