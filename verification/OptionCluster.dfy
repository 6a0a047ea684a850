/**
  The search for the options of an approval prompt on a terminal screen
  (extractNativeApprovalOptions in internal/hub/approval_detector.go): the
  longest cluster of option lines, without repetitions.

  How one line is recognised as an option is not part of this model, except for
  the keys it may send: a screen is the sequence of what its lines were
  recognised as.
 */
module OptionCluster {
  import opened Options
  import opened Text

  const OPTION_GAP_LIMIT: nat := 4
  const MAX_OPTIONS: nat := 12

  // --- the keys an option sends ------------------------------------------------------

  const ESCAPE := "\U{1B}"
  const SHIFT_TAB := "\U{1B}[Z"

  // What the two tables below give. Their result type is why the send text of an
  // option is a SendText.
  predicate IsSendText(s: string) {
    s in {"", "y", "p", "n", "!", "#", "?", ESCAPE, "\t", SHIFT_TAB}
  }

  type SendText = s: string | IsSendText(s) witness ""

  // lower: the label without white space around it, in lower case.
  function ApprovalShortcutSendText(provider: string, lower: string): SendText {
    if provider !in {"codex", "copilot", "cursor-agent"} then ""
    else if lower == "y" || HasSuffix(lower, "(y)") then "y"
    else if provider == "codex" && (lower == "p" || HasSuffix(lower, "(p)")) then "p"
    else if lower == "n" || HasSuffix(lower, "(n)") then "n"
    else if provider != "codex" && (lower == "!" || HasSuffix(lower, "(!)")) then "!"
    else if provider != "codex" && (lower == "#" || HasSuffix(lower, "(#)")) then "#"
    else if provider != "codex" && (lower == "?" || HasSuffix(lower, "(?)")) then "?"
    else if lower in {"esc", "escape"} || HasSuffix(lower, "(esc)") || HasSuffix(lower, "(escape)") then ESCAPE
    else ""
  }

  function CursorAgentKeyBinding(key: string): (SendText, nat) {
    if key == "y" then ("y", 1)
    else if key == "tab" then ("\t", 2)
    else if key in {"shift+tab", "shift + tab"} then (SHIFT_TAB, 3)
    else if key in {"esc or n", "n or esc", "esc", "escape"} then (ESCAPE, 4)
    else if key == "n" then ("n", 4)
    else ("", 0)
  }

  lemma {:induction false} SendTextsHaveNoColon(s: SendText)
    ensures ':' !in s
  {
  }

  datatype ApprovalOption = ApprovalOption(num: nat, caption: string, sendText: SendText, isCurrent: bool)

  datatype ParsedLine = ParsedLine(opt: ApprovalOption, idx: nat)

  datatype Found = Found(opts: seq<ApprovalOption>, first: nat, last: nat)

  // --- clusters ----------------------------------------------------------------------

  ghost predicate Ascending(parsed: seq<ParsedLine>) {
    forall i, j | 0 <= i < j < |parsed| :: parsed[i].idx < parsed[j].idx
  }

  function GapBefore(parsed: seq<ParsedLine>, i: nat): (gap: bool)
    requires 0 < i < |parsed|
    ensures gap <==> parsed[i].idx > parsed[i - 1].idx + 4
  {
    parsed[i].idx - parsed[i - 1].idx > OPTION_GAP_LIMIT
  }

  // Option lines a to b follow each other closely, and no neighbour does.
  ghost predicate IsCluster(parsed: seq<ParsedLine>, a: nat, b: nat) {
    && a <= b < |parsed|
    && (forall i | a < i <= b :: !GapBefore(parsed, i))
    && (a > 0 ==> GapBefore(parsed, a))
    && (b + 1 < |parsed| ==> GapBefore(parsed, b + 1))
  }

  // None is longer, and none as long comes later.
  ghost predicate IsBest(parsed: seq<ParsedLine>, a: nat, b: nat) {
    && IsCluster(parsed, a, b)
    && (forall c: nat, d: nat | IsCluster(parsed, c, d) :: d - c < b - a || (d - c == b - a && c <= a))
  }

  method FindCluster(parsed: seq<ParsedLine>) returns (bestStart: nat, bestEnd: nat)
    requires parsed != []
    ensures IsBest(parsed, bestStart, bestEnd)
  {
    bestStart, bestEnd := 0, 0;
    var curStart := 0;
    var i := 1;
    while i < |parsed|
      invariant 1 <= i <= |parsed| && curStart < i
      invariant curStart > 0 ==> GapBefore(parsed, curStart)
      invariant forall k | curStart < k < i :: !GapBefore(parsed, k)
      invariant if curStart == 0 then bestStart == bestEnd == 0 else IsCluster(parsed, bestStart, bestEnd) && bestEnd < curStart
      invariant forall c: nat, d: nat | IsCluster(parsed, c, d) && d < curStart ::
                  d - c < bestEnd - bestStart || (d - c == bestEnd - bestStart && c <= bestStart)
    {
      if parsed[i].idx - parsed[i - 1].idx > OPTION_GAP_LIMIT {
        if i - curStart >= bestEnd - bestStart + 1 {
          bestStart, bestEnd := curStart, i - 1;
        }
        curStart := i;
      }
      i := i + 1;
    }
    if |parsed| - curStart >= bestEnd - bestStart + 1 {
      bestStart, bestEnd := curStart, |parsed| - 1;
    }
  }

  // Which cluster is found is thereby settled.
  lemma {:induction false} BestIsUnique(parsed: seq<ParsedLine>, a: nat, b: nat, c: nat, d: nat)
    requires IsBest(parsed, a, b) && IsBest(parsed, c, d)
    ensures a == c && b == d
  {
  }

  // --- repetitions ----------------------------------------------------------------------

  function Key(o: ApprovalOption): string {
    Decimal(o.num) + ":" + o.caption + ":" + o.sendText
  }

  ghost predicate KeyAmong(opts: seq<ApprovalOption>, n: nat, key: string)
    requires n <= |opts|
  {
    exists i :: 0 <= i < n && Key(opts[i]) == key
  }

  // The options without those whose key came before.
  ghost function Distinct(opts: seq<ApprovalOption>): seq<ApprovalOption> {
    if opts == [] then []
    else
      var n := |opts| - 1;
      Distinct(opts[..n]) + if KeyAmong(opts, n, Key(opts[n])) then [] else [opts[n]]
  }

  method RemoveRepetitions(cluster: seq<ParsedLine>) returns (opts: seq<ApprovalOption>)
    ensures opts == Distinct(OptionsOf(cluster))
  {
    hide Key, Distinct, KeyAmong, OptionsOf;
    opts := [];
    var seen: set<string> := {};
    ghost var all := OptionsOf(cluster);
    NothingSeen(all);
    for i := 0 to |cluster|
      invariant opts == Distinct(all[..i])
      invariant forall key :: key in seen <==> KeyAmong(all, i, key)
    {
      OptionAt(cluster, i);
      OneMoreOption(all, i);
      var key := Key(cluster[i].opt);
      if key !in seen {
        seen := seen + {key};
        opts := opts + [cluster[i].opt];
      }
    }
    assert all[..|cluster|] == all;
  }

  lemma {:induction false} NothingSeen(all: seq<ApprovalOption>)
    ensures Distinct(all[..0]) == [] && forall key :: !KeyAmong(all, 0, key)
  {
  }

  lemma {:induction false} OptionAt(cluster: seq<ParsedLine>, i: nat)
    requires i < |cluster|
    ensures OptionsOf(cluster)[i] == cluster[i].opt
  {
  }

  lemma {:induction false} OneMoreOption(all: seq<ApprovalOption>, i: nat)
    requires i < |all|
    ensures Distinct(all[..i + 1]) == Distinct(all[..i]) + if KeyAmong(all, i, Key(all[i])) then [] else [all[i]]
    ensures forall key :: KeyAmong(all, i + 1, key) <==> KeyAmong(all, i, key) || Key(all[i]) == key
  {
    hide Key;
    var longer := all[..i + 1];
    assert longer[..i] == all[..i];
    assert KeyAmong(longer, i, Key(all[i])) <==> KeyAmong(all, i, Key(all[i]));
  }

  function OptionsOf(cluster: seq<ParsedLine>): (opts: seq<ApprovalOption>)
    ensures |opts| == |cluster|
  {
    seq(|cluster|, i requires 0 <= i < |cluster| => cluster[i].opt)
  }

  // Some of the options, in the order of the screen, each the first with its key.
  ghost predicate FirstsInOrder(opts: seq<ApprovalOption>, kept: seq<ApprovalOption>, at: seq<nat>) {
    && |at| == |kept|
    && (forall i | 0 <= i < |at| :: at[i] < |opts| && opts[at[i]] == kept[i])
    && (forall i, j | 0 <= i < j < |at| :: at[i] < at[j])
    && (forall i, k | 0 <= i < |at| && 0 <= k < at[i] :: Key(opts[k]) != Key(opts[at[i]]))
  }

  ghost predicate HasKey(kept: seq<ApprovalOption>, key: string) {
    exists i :: 0 <= i < |kept| && Key(kept[i]) == key
  }

  lemma {:induction false} DistinctKeepsTheFirst(opts: seq<ApprovalOption>) returns (at: seq<nat>)
    ensures FirstsInOrder(opts, Distinct(opts), at)
  {
    hide Key;
    at := [];
    if opts != [] {
      var n := |opts| - 1;
      at := DistinctKeepsTheFirst(opts[..n]);
      if !KeyAmong(opts, n, Key(opts[n])) {
        at := at + [n];
      }
    }
  }

  // No key is lost, and none is there twice.
  lemma {:induction false} DistinctKeepsEveryKey(opts: seq<ApprovalOption>)
    ensures forall k | 0 <= k < |opts| :: HasKey(Distinct(opts), Key(opts[k]))
    ensures forall i, j | 0 <= i < j < |Distinct(opts)| :: Key(Distinct(opts)[i]) != Key(Distinct(opts)[j])
  {
    hide Key;
    var at := DistinctKeepsTheFirst(opts);
    if opts != [] {
      var n := |opts| - 1;
      DistinctKeepsEveryKey(opts[..n]);
      var kept := Distinct(opts[..n]);
      assert kept + [] == kept;
      assert Distinct(opts) == kept || Distinct(opts) == kept + [opts[n]];
      forall k | 0 <= k < |opts|
        ensures HasKey(Distinct(opts), Key(opts[k]))
      {
        if k < n {
          assert opts[..n][k] == opts[k];
          KeyStays(kept, opts[n], Key(opts[k]));
        } else if KeyAmong(opts, n, Key(opts[n])) {
          var i :| 0 <= i < n && Key(opts[i]) == Key(opts[n]);
          assert opts[..n][i] == opts[i];
          assert Distinct(opts) == kept;
        } else {
          assert Distinct(opts)[|Distinct(opts)| - 1] == opts[n];
        }
      }
    }
  }

  lemma {:induction false} KeyStays(kept: seq<ApprovalOption>, o: ApprovalOption, key: string)
    requires HasKey(kept, key)
    ensures HasKey(kept + [o], key)
  {
    hide Key;
    var i :| 0 <= i < |kept| && Key(kept[i]) == key;
    assert (kept + [o])[i] == kept[i];
  }

  // The key joins number, label and send text with colons. No send text has one,
  // so the key stands for one number, label and send text.
  lemma {:induction false} KeysAreFaithful(o: ApprovalOption, p: ApprovalOption)
    ensures Key(o) == Key(p) <==> o.num == p.num && o.caption == p.caption && o.sendText == p.sendText
  {
    hide Decimal, Value, IsSendText;
    SendTextsHaveNoColon(o.sendText);
    SendTextsHaveNoColon(p.sendText);
    var x, y := o.caption + ":" + o.sendText, p.caption + ":" + p.sendText;
    assert Key(o) == Decimal(o.num) + ":" + x && Key(p) == Decimal(p.num) + ":" + y;
    DecimalReadsBack(o.num);
    DecimalReadsBack(p.num);
    if Key(o) == Key(p) {
      DigitsEndAtColon(Decimal(o.num), x, Decimal(p.num), y);
      SplitsAtLastColon(o.caption, o.sendText, p.caption, p.sendText);
    }
  }

  lemma {:induction false} SplitsAtLastColon(a: string, b: string, c: string, d: string)
    requires ':' !in b && ':' !in d && a + ":" + b == c + ":" + d
    ensures a == c && b == d
  {
    var s := a + ":" + b;
    LastColon(a, b, |c|);
    LastColon(c, d, |a|);
    assert a == s[..|a|] && b == s[|a| + 1..];
    assert c == s[..|c|] && d == s[|c| + 1..];
  }

  lemma {:induction false} DigitsEndAtColon(d: string, x: string, e: string, y: string)
    requires AllDigits(d) && AllDigits(e) && d + ":" + x == e + ":" + y
    ensures d == e && x == y
  {
    hide Split;
    SplitFirst(d, ':', x);
    SplitFirst(e, ':', y);
    assert d == Split(d + ":" + x, ':')[0] == e;
    assert x == (d + ":" + x)[|d| + 1..] && y == (e + ":" + y)[|e| + 1..];
  }

  lemma {:induction false} LastColon(x: string, y: string, k: nat)
    requires ':' !in y
    ensures var s := x + ":" + y; |x| < |s| && s[|x|] == ':' && (|x| < k < |s| ==> s[k] != ':')
  {
    var s := x + ":" + y;
    if |x| < k < |s| {
      assert s[k] == y[k - |x| - 1];
    }
  }

  // --- the whole search ------------------------------------------------------------------

  ghost function Parsed(lines: seq<Option<ApprovalOption>>): seq<ParsedLine> {
    if lines == [] then []
    else
      var n := |lines| - 1;
      Parsed(lines[..n]) + if lines[n].Some? then [ParsedLine(lines[n].value, n)] else []
  }

  // Every option line is there once, in the order of the screen.
  lemma {:induction false} ParsedIsTheOptionLines(lines: seq<Option<ApprovalOption>>)
    ensures forall i | 0 <= i < |Parsed(lines)| :: Parsed(lines)[i].idx < |lines| && lines[Parsed(lines)[i].idx] == Some(Parsed(lines)[i].opt)
    ensures forall k | 0 <= k < |lines| && lines[k].Some? :: ParsedLine(lines[k].value, k) in Parsed(lines)
    ensures Ascending(Parsed(lines))
  {
    if lines != [] {
      var n := |lines| - 1;
      ParsedIsTheOptionLines(lines[..n]);
      forall k | 0 <= k < |lines| && lines[k].Some?
        ensures ParsedLine(lines[k].value, k) in Parsed(lines)
      {
        if k < n {
          assert lines[..n][k] == lines[k];
          assert ParsedLine(lines[k].value, k) in Parsed(lines[..n]);
        }
      }
    }
  }

  method ParseLines(lines: seq<Option<ApprovalOption>>) returns (parsed: seq<ParsedLine>)
    ensures parsed == Parsed(lines)
  {
    parsed := [];
    for i := 0 to |lines|
      invariant parsed == Parsed(lines[..i])
    {
      assert lines[..i + 1][..i] == lines[..i];
      if lines[i].Some? {
        parsed := parsed + [ParsedLine(lines[i].value, i)];
      }
    }
    assert lines[..|lines|] == lines;
  }

  predicate HasCursor(opts: seq<ApprovalOption>) {
    exists i :: 0 <= i < |opts| && opts[i].isCurrent
  }

  predicate HasSendText(opts: seq<ApprovalOption>) {
    exists i :: 0 <= i < |opts| && opts[i].sendText != ""
  }

  predicate Acceptable(opts: seq<ApprovalOption>) {
    2 <= |opts| <= MAX_OPTIONS && (HasCursor(opts) || HasSendText(opts))
  }

  // No two of the options found agree in number, label and send text.
  ghost predicate AllDifferent(opts: seq<ApprovalOption>) {
    forall i, j | 0 <= i < j < |opts| ::
      opts[i].num != opts[j].num || opts[i].caption != opts[j].caption || opts[i].sendText != opts[j].sendText
  }

  lemma {:induction false} DistinctOptionsDiffer(opts: seq<ApprovalOption>)
    ensures AllDifferent(Distinct(opts))
  {
    hide Key, Distinct, IsSendText;
    DistinctKeepsEveryKey(opts);
    var kept := Distinct(opts);
    forall i, j | 0 <= i < j < |kept|
      ensures kept[i].num != kept[j].num || kept[i].caption != kept[j].caption || kept[i].sendText != kept[j].sendText
    {
      KeysAreFaithful(kept[i], kept[j]);
    }
  }

  // The search finds the distinct options of the best cluster, with its first
  // and last line, if they are acceptable, and nothing otherwise.
  method ExtractNativeApprovalOptions(lines: seq<Option<ApprovalOption>>) returns (found: Option<Found>)
    ensures Parsed(lines) == [] ==> found == None
    ensures forall a: nat, b: nat | IsBest(Parsed(lines), a, b) ::
              var opts := Distinct(OptionsOf(Parsed(lines)[a..b + 1]));
              && (found.Some? <==> 2 <= |opts| <= 12 && exists i :: 0 <= i < |opts| && (opts[i].isCurrent || opts[i].sendText != ""))
              && (found.Some? ==> found.value == Found(opts, Parsed(lines)[a].idx, Parsed(lines)[b].idx))
    ensures Parsed(lines) != [] ==> exists a: nat, b: nat :: IsBest(Parsed(lines), a, b)
    ensures found.Some? ==> AllDifferent(found.value.opts)
  {
    hide IsBest, Distinct, OptionsOf, Parsed, AllDifferent;
    var parsed := ParseLines(lines);
    if |parsed| == 0 {
      BestFits(parsed);
      return None;
    }
    var bestStart, bestEnd := FindCluster(parsed);
    forall a: nat, b: nat | IsBest(parsed, a, b)
      ensures a == bestStart && b == bestEnd
    {
      BestIsUnique(parsed, a, b, bestStart, bestEnd);
    }
    BestFits(parsed);
    var cluster := parsed[bestStart..bestEnd + 1];
    if |cluster| < 2 {
      TooFew(OptionsOf(cluster));
      return None;
    }
    var opts := RemoveRepetitions(cluster);
    DistinctOptionsDiffer(OptionsOf(cluster));
    var acceptable := Judge(opts);
    if !acceptable {
      return None;
    }
    return Some(Found(opts, cluster[0].idx, cluster[|cluster| - 1].idx));
  }

  method Judge(opts: seq<ApprovalOption>) returns (acceptable: bool)
    ensures acceptable == Acceptable(opts)
  {
    if |opts| < 2 || |opts| > MAX_OPTIONS {
      return false;
    }
    for k := 0 to |opts|
      invariant forall j | 0 <= j < k :: !opts[j].isCurrent && opts[j].sendText == ""
    {
      if opts[k].isCurrent || opts[k].sendText != "" {
        return true;
      }
    }
    return false;
  }

  lemma {:induction false} BestFits(parsed: seq<ParsedLine>)
    ensures forall a: nat, b: nat | IsBest(parsed, a, b) :: a <= b < |parsed|
  {
  }

  lemma {:induction false} TooFew(opts: seq<ApprovalOption>)
    requires |opts| < 2
    ensures !Acceptable(Distinct(opts))
  {
    DistinctIsShorter(opts);
  }

  lemma {:induction false} DistinctIsShorter(opts: seq<ApprovalOption>)
    ensures |Distinct(opts)| <= |opts|
  {
    if opts != [] {
      DistinctIsShorter(opts[..|opts| - 1]);
    }
  }
}
