/** The context bundle assembler: the progress-log parser, the choice of recent history, the
    priority-tiered token budget and the bundle it produces for one task. */
module BundleGenerator {
  import opened Common
  import opened Text
  import opened TokenCounter
  import opened SpecExtractor

  /** A progress-log entry. The header fields are always present; the others are set only when the
      entry has a line for them. */
  datatype ProgressEntry = ProgressEntry(timestamp: string, taskId: string, iteration: nat,
                                         agent: Option<string>, action: Option<string>,
                                         files: Option<seq<string>>, tests: Option<string>,
                                         commit: Option<string>, status: Option<string>)

  datatype ContextBundle = ContextBundle(taskId: string, specSections: seq<string>,
                                         acceptanceCriteria: seq<string>, filesToModify: seq<string>,
                                         recentProgress: seq<string>, totalTokens: nat)

  // =======================================================================================
  // Entry headers: `^##\s*\[([^\]]+)\]\s*-\s*\[([^\]]+)\]\s*-\s*Iteration\s*\[(\d+)\]`

  predicate NoCloseBracket(s: string)
  {
    forall i :: 0 <= i < |s| ==> s[i] != ']'
  }

  predicate IsNotCloseBracket(c: char) { c != ']' }

  /** `\[([^\]]+)\]` at the start of `r`: the bracketed text and what follows the bracket. */
  function Bracketed(r: string): (m: Option<(string, string)>)
    ensures m.Some? ==> |m.value.0| >= 1 && NoCloseBracket(m.value.0) && r == "[" + m.value.0 + "]" + m.value.1
  {
    if |r| >= 1 && r[0] == '[' then
      var n := Span(r[1..], IsNotCloseBracket);
      if n >= 1 && 1 + n < |r| then
        assert r[1..][n] == r[1 + n];
        assert r == "[" + r[1..1 + n] + "]" + r[2 + n..];
        Some((r[1..1 + n], r[2 + n..]))
      else None
    else None
  }

  /** A bracketed text without `]` is read back whole, with what follows it. */
  lemma BracketedOf(t: string, rest: string)
    requires |t| >= 1 && NoCloseBracket(t)
    ensures Bracketed("[" + t + "]" + rest) == Some((t, rest))
  {
    var r := "[" + t + "]" + rest;
    assert r[0] == '[';
    assert r[1..] == t + ("]" + rest);
    SpanStops(t, "]" + rest);
    assert Span(r[1..], IsNotCloseBracket) == |t|;
    assert r[1..1 + |t|] == t;
    assert r[2 + |t|..] == rest;
  }

  /** The span of non-`]` characters stops at the first `]`. */
  lemma SpanStops(t: string, rest: string)
    requires NoCloseBracket(t) && |rest| >= 1 && rest[0] == ']'
    ensures Span(t + rest, IsNotCloseBracket) == |t|
  {
    var s := t + rest;
    assert s[|t|] == ']';
    assert forall i :: 0 <= i < |t| ==> s[i] == t[i];
  }

  /** `\s*-\s*` at the start of `r`: what follows it. */
  function Dash(r: string): Option<string>
  {
    var k := Span(r, IsJsSpace);
    if k < |r| && r[k] == '-' then Some(TrimLeft(r[k + 1..], IsJsSpace)) else None
  }

  /** One space before a text that does not start with white space is trimmed away. */
  lemma TrimOneSpace(r: string)
    requires r == [] || !IsJsSpace(r[0])
    ensures TrimLeft(" " + r, IsJsSpace) == r
  {
    assert (" " + r)[1..] == r;
  }

  /** ` - ` before a text that does not start with white space is read by `\s*-\s*`. */
  lemma DashOf(rest: string)
    requires rest == [] || !IsJsSpace(rest[0])
    ensures Dash(" - " + rest) == Some(rest)
  {
    var t := " - " + rest;
    assert Span(t, IsJsSpace) == 1 by {
      assert t[0] == ' ' && t[1] == '-';
    }
    assert t[2..] == " " + rest;
    TrimOneSpace(rest);
  }

  /** `\[(\d+)\]` at the start of `r`: the number, as `parseInt` reads it. */
  function IterationNumber(r: string): Option<nat>
  {
    if |r| >= 1 && r[0] == '[' then
      var d := Span(r[1..], IsDigit);
      if d >= 1 && 1 + d < |r| && r[1 + d] == ']' then Some(DigitsValue(r[1..1 + d])) else None
    else None
  }

  datatype Header = Header(timestamp: string, taskId: string, iteration: nat)

  /** `Iteration\s*\[(\d+)\]` at the start of `r`. */
  function IterationPart(r: string): Option<nat>
  {
    if StartsWith(r, "Iteration") then IterationNumber(TrimLeft(r[9..], IsJsSpace)) else None
  }

  /** The header's tail after its task identifier: `\s*-\s*Iteration\s*\[(\d+)\]`. */
  function AfterTaskId(timestamp: string, taskId: string, r: string): (h: Option<Header>)
    ensures h.Some? ==> h.value.timestamp == timestamp && h.value.taskId == taskId
  {
    match Dash(r)
    case None => None
    case Some(r') =>
      match IterationPart(r')
      case None => None
      case Some(n) => Some(Header(timestamp, taskId, n))
  }

  /** The header's tail after its timestamp: `\s*-\s*\[([^\]]+)\]` and the rest. */
  function AfterTimestamp(timestamp: string, r: string): (h: Option<Header>)
    ensures h.Some? ==> h.value.timestamp == timestamp && |h.value.taskId| >= 1 && NoCloseBracket(h.value.taskId)
  {
    match Dash(r)
    case None => None
    case Some(r') =>
      match Bracketed(r')
      case None => None
      case Some((taskId, rest)) => AfterTaskId(timestamp, taskId, rest)
  }

  /** The header pattern. Every quantifier in it is followed by a character it cannot consume, so
      the match is found without backtracking. */
  function MatchProgressHeader(line: string): (h: Option<Header>)
    ensures h.Some? ==> |h.value.timestamp| >= 1 && NoCloseBracket(h.value.timestamp)
    ensures h.Some? ==> |h.value.taskId| >= 1 && NoCloseBracket(h.value.taskId)
  {
    if !StartsWith(line, "##") then None
    else match Bracketed(TrimLeft(line[2..], IsJsSpace))
      case None => None
      case Some((timestamp, rest)) => AfterTimestamp(timestamp, rest)
  }

  predicate IsProgressHeader(line: string) { MatchProgressHeader(line).Some? }

  // =======================================================================================
  // Entry fields

  /** `^Key:\s*(.+)$`. */
  function FieldValue(line: string, key: string): (v: Option<string>)
    ensures v.Some? ==> |v.value| >= 1 && NoLineTerminator(v.value)
  {
    if StartsWith(line, key + ":") then SpaceThenLine(line[|key| + 1..], 0) else None
  }

  function FromHeader(h: Header): ProgressEntry
  {
    ProgressEntry(h.timestamp, h.taskId, h.iteration, None, None, None, None, None, None)
  }

  function HeaderOf(e: ProgressEntry): Header
  {
    Header(e.timestamp, e.taskId, e.iteration)
  }

  function SetIfPresent(previous: Option<string>, found: Option<string>): Option<string>
  {
    if found.Some? then found else previous
  }

  /** One line inside an entry: each of the six field patterns that matches sets its field. */
  function ApplyField(e: ProgressEntry, line: string): (r: ProgressEntry)
    ensures HeaderOf(r) == HeaderOf(e)
  {
    var files := FieldValue(line, "Files");
    e.(agent := SetIfPresent(e.agent, FieldValue(line, "Agent")),
       action := SetIfPresent(e.action, FieldValue(line, "Action")),
       files := if files.Some? then Some(CommaList(files.value)) else e.files,
       tests := SetIfPresent(e.tests, FieldValue(line, "Tests")),
       commit := SetIfPresent(e.commit, FieldValue(line, "Commit")),
       status := SetIfPresent(e.status, FieldValue(line, "Status")))
  }

  // =======================================================================================
  // The progress scan

  datatype ProgressScan = ProgressScan(entries: seq<ProgressEntry>, current: Option<ProgressEntry>)

  /** The entries so far plus the open one, if it has a timestamp. */
  function FlushEntry(st: ProgressScan): seq<ProgressEntry>
  {
    if st.current.Some? && |st.current.value.timestamp| > 0 then st.entries + [st.current.value]
    else st.entries
  }

  function ProgressStep(st: ProgressScan, line: string): ProgressScan
  {
    match MatchProgressHeader(line)
    case Some(h) => ProgressScan(FlushEntry(st), Some(FromHeader(h)))
    case None =>
      if st.current.Some? then ProgressScan(st.entries, Some(ApplyField(st.current.value, line))) else st
  }

  function ScanProgress(lines: seq<string>): ProgressScan
    decreases |lines|
  {
    if lines == [] then ProgressScan([], None)
    else ProgressStep(ScanProgress(lines[..|lines| - 1]), lines[|lines| - 1])
  }

  lemma ScanProgressAt(lines: seq<string>, i: nat)
    requires i < |lines|
    ensures ScanProgress(lines[..i + 1]) == ProgressStep(ScanProgress(lines[..i]), lines[i])
  {
    assert lines[..i + 1][..i] == lines[..i];
  }

  function ProgressEntriesOf(lines: seq<string>): seq<ProgressEntry>
  {
    FlushEntry(ScanProgress(lines))
  }

  /** The body of `parseProgressEntries`' loop: a header line closes the open entry (kept if it
      has a timestamp) and opens a new one; any other line fills in the open entry's fields. */
  method ScanLine(entries: seq<ProgressEntry>, currentEntry: Option<ProgressEntry>, line: string)
    returns (entries': seq<ProgressEntry>, currentEntry': Option<ProgressEntry>)
    ensures ProgressScan(entries', currentEntry') == ProgressStep(ProgressScan(entries, currentEntry), line)
  {
    entries', currentEntry' := entries, currentEntry;
    var headerMatch := MatchProgressHeader(line);
    if headerMatch.Some? {
      if currentEntry.Some? && |currentEntry.value.timestamp| > 0 {
        entries' := entries + [currentEntry.value];
      }
      currentEntry' := Some(FromHeader(headerMatch.value));
    } else if currentEntry.Some? {
      currentEntry' := Some(ApplyField(currentEntry.value, line));
    }
  }

  /** `parseProgressEntries`. */
  method ParseProgressEntries(progressContent: string) returns (entries: seq<ProgressEntry>)
    ensures entries == ProgressEntriesOf(Split(progressContent, '\n'))
  {
    entries := [];
    var lines := Split(progressContent, '\n');
    var currentEntry: Option<ProgressEntry> := None;
    var i := 0;
    while i < |lines|
      invariant 0 <= i <= |lines|
      invariant ScanProgress(lines[..i]) == ProgressScan(entries, currentEntry)
    {
      ScanProgressAt(lines, i);
      entries, currentEntry := ScanLine(entries, currentEntry, lines[i]);
      i := i + 1;
    }
    if currentEntry.Some? && |currentEntry.value.timestamp| > 0 {
      entries := entries + [currentEntry.value];
    }
    assert lines[..|lines|] == lines;
  }

  /** The headers of the header lines, in order. */
  function HeadersOf(lines: seq<string>): seq<Header>
    decreases |lines|
  {
    if lines == [] then []
    else
      var last := lines[|lines| - 1];
      HeadersOf(lines[..|lines| - 1]) + (if IsProgressHeader(last) then [MatchProgressHeader(last).value] else [])
  }

  function EntryHeaders(es: seq<ProgressEntry>): (hs: seq<Header>)
    ensures |hs| == |es| && forall k :: 0 <= k < |es| ==> hs[k] == HeaderOf(es[k])
  {
    seq(|es|, k requires 0 <= k < |es| => HeaderOf(es[k]))
  }

  lemma {:induction false} ScanProgressHeaders(lines: seq<string>)
    ensures var st := ScanProgress(lines);
            && (st.current.Some? ==> |st.current.value.timestamp| > 0)
            && EntryHeaders(st.entries) + (if st.current.Some? then [HeaderOf(st.current.value)] else [])
               == HeadersOf(lines)
    decreases |lines|
  {
    if lines != [] {
      var prev := lines[..|lines| - 1];
      var last := lines[|lines| - 1];
      ScanProgressHeaders(prev);
      var st := ScanProgress(prev);
      var open := if st.current.Some? then [HeaderOf(st.current.value)] else [];
      assert EntryHeaders(FlushEntry(st)) == EntryHeaders(st.entries) + open by {
        if st.current.Some? {
          EntryHeadersSnoc(st.entries, st.current.value);
        }
      }
      assert ScanProgress(lines) == ProgressStep(st, last);
      match MatchProgressHeader(last)
      case Some(h) =>
        assert HeadersOf(lines) == HeadersOf(prev) + [h];
        assert HeaderOf(FromHeader(h)) == h;
        assert (EntryHeaders(st.entries) + open) + [h] == EntryHeaders(FlushEntry(st)) + [h];
      case None =>
        assert HeadersOf(lines) == HeadersOf(prev) + [];
    }
  }

  lemma EntryHeadersSnoc(es: seq<ProgressEntry>, e: ProgressEntry)
    ensures EntryHeaders(es + [e]) == EntryHeaders(es) + [HeaderOf(e)]
  {
    assert forall k :: 0 <= k < |es| ==> (es + [e])[k] == es[k];
  }

  /** Every header line opens exactly one entry, in order, and no entry is lost to the timestamp
      test: a header's timestamp is never empty. */
  lemma EntriesFollowHeaders(lines: seq<string>)
    ensures EntryHeaders(ProgressEntriesOf(lines)) == HeadersOf(lines)
  {
    var st := ScanProgress(lines);
    ScanProgressHeaders(lines);
    if st.current.Some? {
      assert EntryHeaders(FlushEntry(st)) == EntryHeaders(st.entries) + [HeaderOf(st.current.value)];
    }
  }

  lemma {:induction false} ScanProgressPreamble(lines: seq<string>)
    requires forall i :: 0 <= i < |lines| ==> !IsProgressHeader(lines[i])
    ensures ScanProgress(lines) == ProgressScan([], None)
    decreases |lines|
  {
    if lines != [] {
      ScanProgressPreamble(lines[..|lines| - 1]);
    }
  }

  /** Lines before the first header are ignored, field lines included. */
  lemma ProgressPreambleIgnored(lines: seq<string>)
    requires forall i :: 0 <= i < |lines| ==> !IsProgressHeader(lines[i])
    ensures ProgressEntriesOf(lines) == []
  {
    ScanProgressPreamble(lines);
  }

  /** The five text fields of an entry, named by the key of their line. */
  datatype TextField = AgentField | ActionField | TestsField | CommitField | StatusField

  function KeyOf(f: TextField): string
  {
    match f
    case AgentField => "Agent"
    case ActionField => "Action"
    case TestsField => "Tests"
    case CommitField => "Commit"
    case StatusField => "Status"
  }

  function Get(e: ProgressEntry, f: TextField): Option<string>
  {
    match f
    case AgentField => e.agent
    case ActionField => e.action
    case TestsField => e.tests
    case CommitField => e.commit
    case StatusField => e.status
  }

  /** The lines of an entry's body applied in order to the entry its header opened. */
  function ApplyFields(e: ProgressEntry, body: seq<string>): (r: ProgressEntry)
    ensures HeaderOf(r) == HeaderOf(e)
    decreases |body|
  {
    if body == [] then e else ApplyField(ApplyFields(e, body[..|body| - 1]), body[|body| - 1])
  }

  lemma ApplyFieldGet(e: ProgressEntry, line: string, f: TextField)
    ensures Get(ApplyField(e, line), f) == SetIfPresent(Get(e, f), FieldValue(line, KeyOf(f)))
  {
    match f
    case AgentField =>
    case ActionField =>
    case TestsField =>
    case CommitField =>
    case StatusField =>
  }

  /** A text field holds what the last body line for it says: later lines overwrite earlier ones. */
  lemma {:induction false} FieldLastWins(e: ProgressEntry, body: seq<string>, f: TextField, i: nat)
    requires i < |body| && FieldValue(body[i], KeyOf(f)).Some?
    requires forall j :: i < j < |body| ==> FieldValue(body[j], KeyOf(f)).None?
    ensures Get(ApplyFields(e, body), f) == FieldValue(body[i], KeyOf(f))
    decreases |body|
  {
    var prefix := body[..|body| - 1];
    ApplyFieldGet(ApplyFields(e, prefix), body[|body| - 1], f);
    if i < |body| - 1 {
      FieldLastWins(e, prefix, f, i);
    }
  }

  /** A text field no body line sets keeps the value it had. */
  lemma {:induction false} FieldUnmentioned(e: ProgressEntry, body: seq<string>, f: TextField)
    requires forall j :: 0 <= j < |body| ==> FieldValue(body[j], KeyOf(f)).None?
    ensures Get(ApplyFields(e, body), f) == Get(e, f)
    decreases |body|
  {
    if body != [] {
      var prefix := body[..|body| - 1];
      ApplyFieldGet(ApplyFields(e, prefix), body[|body| - 1], f);
      FieldUnmentioned(e, prefix, f);
    }
  }

  /** The file list is the comma-split of the last `Files:` line. */
  lemma {:induction false} FilesLastWins(e: ProgressEntry, body: seq<string>, i: nat)
    requires i < |body| && FieldValue(body[i], "Files").Some?
    requires forall j :: i < j < |body| ==> FieldValue(body[j], "Files").None?
    ensures ApplyFields(e, body).files == Some(CommaList(FieldValue(body[i], "Files").value))
    decreases |body|
  {
    if i < |body| - 1 {
      FilesLastWins(e, body[..|body| - 1], i);
    }
  }

  /** Without a `Files:` line the file list keeps the value it had. */
  lemma {:induction false} FilesUnmentioned(e: ProgressEntry, body: seq<string>)
    requires forall j :: 0 <= j < |body| ==> FieldValue(body[j], "Files").None?
    ensures ApplyFields(e, body).files == e.files
    decreases |body|
  {
    if body != [] {
      FilesUnmentioned(e, body[..|body| - 1]);
    }
  }

  /** A header followed by lines that are not headers: the entries before the header are closed,
      and the open entry is the header's with the body lines applied. */
  lemma ScanEntryBlock(lines: seq<string>, header: string, body: seq<string>)
    requires IsProgressHeader(header)
    requires forall j :: 0 <= j < |body| ==> !IsProgressHeader(body[j])
    ensures ScanProgress(lines + [header] + body) ==
            ProgressScan(ProgressEntriesOf(lines), Some(ApplyFields(FromHeader(MatchProgressHeader(header).value), body)))
  {
    ScanHeaderOpens(lines, header);
    ScanBody(lines + [header], FromHeader(MatchProgressHeader(header).value), body);
  }

  /** Lines that are not headers, read while an entry is open, fill in that entry and nothing else. */
  lemma {:induction false} ScanBody(opening: seq<string>, start: ProgressEntry, body: seq<string>)
    requires ScanProgress(opening).current == Some(start)
    requires forall j :: 0 <= j < |body| ==> !IsProgressHeader(body[j])
    ensures ScanProgress(opening + body) == ScanProgress(opening).(current := Some(ApplyFields(start, body)))
    decreases |body|
  {
    if body == [] {
      assert opening + body == opening;
    } else {
      var prefix, last := body[..|body| - 1], body[|body| - 1];
      LastSplit(opening, body);
      ScanBody(opening, start, prefix);
      ScanBodyLine(opening, start, prefix, last);
    }
  }

  lemma ScanHeaderOpens(lines: seq<string>, header: string)
    requires IsProgressHeader(header)
    ensures ScanProgress(lines + [header]) ==
            ProgressScan(ProgressEntriesOf(lines), Some(FromHeader(MatchProgressHeader(header).value)))
  {
    ScanProgressSnoc(lines, header);
    StepOnHeader(ScanProgress(lines), header);
  }

  lemma LastSplit(opening: seq<string>, body: seq<string>)
    requires body != []
    ensures body == body[..|body| - 1] + [body[|body| - 1]]
    ensures opening + body == opening + body[..|body| - 1] + [body[|body| - 1]]
  {
    assert body == body[..|body| - 1] + [body[|body| - 1]];
  }

  lemma ScanBodyLine(opening: seq<string>, start: ProgressEntry, prefix: seq<string>, last: string)
    requires !IsProgressHeader(last)
    requires ScanProgress(opening + prefix).current == Some(ApplyFields(start, prefix))
    ensures ScanProgress(opening + prefix + [last]) ==
            ScanProgress(opening + prefix).(current := Some(ApplyFields(start, prefix + [last])))
  {
    ScanProgressSnoc(opening + prefix, last);
    StepOnBody(ScanProgress(opening + prefix), last);
    ApplyFieldsSnoc(start, prefix, last);
  }

  lemma ApplyFieldsSnoc(e: ProgressEntry, prefix: seq<string>, last: string)
    ensures ApplyFields(e, prefix + [last]) == ApplyField(ApplyFields(e, prefix), last)
  {
    assert (prefix + [last])[..|prefix|] == prefix;
  }

  lemma ScanProgressSnoc(lines: seq<string>, line: string)
    ensures ScanProgress(lines + [line]) == ProgressStep(ScanProgress(lines), line)
  {
    assert (lines + [line])[..|lines|] == lines;
  }

  lemma StepOnHeader(st: ProgressScan, line: string)
    requires IsProgressHeader(line)
    ensures ProgressStep(st, line) == ProgressScan(FlushEntry(st), Some(FromHeader(MatchProgressHeader(line).value)))
  {
  }

  lemma StepOnBody(st: ProgressScan, line: string)
    requires !IsProgressHeader(line) && st.current.Some?
    ensures ProgressStep(st, line) == ProgressScan(st.entries, Some(ApplyField(st.current.value, line)))
  {
  }

  /** The last header of a log and the lines after it make its last entry: the header's fields
      with the body lines applied. */
  lemma LastEntryOfBlock(lines: seq<string>, header: string, body: seq<string>)
    requires IsProgressHeader(header)
    requires forall j :: 0 <= j < |body| ==> !IsProgressHeader(body[j])
    ensures ProgressEntriesOf(lines + [header] + body) ==
            ProgressEntriesOf(lines) + [ApplyFields(FromHeader(MatchProgressHeader(header).value), body)]
  {
    var e := ApplyFields(FromHeader(MatchProgressHeader(header).value), body);
    ScanEntryBlock(lines, header, body);
    assert |e.timestamp| > 0 by {
      assert HeaderOf(e) == HeaderOf(FromHeader(MatchProgressHeader(header).value));
    }
    FlushOpen(ProgressEntriesOf(lines), e);
  }

  lemma FlushOpen(entries: seq<ProgressEntry>, e: ProgressEntry)
    requires |e.timestamp| > 0
    ensures FlushEntry(ProgressScan(entries, Some(e))) == entries + [e]
  {
  }

  // =======================================================================================
  // Sorting by time, most recent first

  /** Puts `x` after every element whose key is at least its own. */
  function InsertDesc<T>(x: T, s: seq<T>, key: T -> int): (r: seq<T>)
    ensures |r| == |s| + 1
    decreases |s|
  {
    if s == [] then [x]
    else if key(s[0]) >= key(x) then [s[0]] + InsertDesc(x, s[1..], key)
    else [x] + s
  }

  /** `Array.prototype.sort` with the comparator `key(b) - key(a)`: a stable sort, largest key first. */
  function SortDesc<T>(s: seq<T>, key: T -> int): (r: seq<T>)
    ensures |r| == |s|
    decreases |s|
  {
    if s == [] then [] else InsertDesc(s[|s| - 1], SortDesc(s[..|s| - 1], key), key)
  }

  predicate SortedDesc<T>(s: seq<T>, key: T -> int)
  {
    forall i, j :: 0 <= i < j < |s| ==> key(s[i]) >= key(s[j])
  }

  lemma {:induction false} InsertDescSorted<T>(x: T, s: seq<T>, key: T -> int)
    requires SortedDesc(s, key)
    ensures SortedDesc(InsertDesc(x, s, key), key)
    decreases |s|
  {
    if s != [] && key(s[0]) >= key(x) {
      InsertDescSorted(x, s[1..], key);
      InsertDescKeys(x, s[1..], key);
      var r := InsertDesc(x, s[1..], key);
      assert forall k :: 0 <= k < |r| ==> key(r[k]) <= key(s[0]);
    }
  }

  /** The keys of the result are the key of `x` and those of `s`. */
  lemma {:induction false} InsertDescKeys<T>(x: T, s: seq<T>, key: T -> int)
    ensures forall k :: 0 <= k < |InsertDesc(x, s, key)| ==>
              InsertDesc(x, s, key)[k] == x || InsertDesc(x, s, key)[k] in s
    decreases |s|
  {
    if s != [] && key(s[0]) >= key(x) {
      InsertDescKeys(x, s[1..], key);
    }
  }

  lemma {:induction false} InsertDescMultiset<T>(x: T, s: seq<T>, key: T -> int)
    ensures multiset(InsertDesc(x, s, key)) == multiset(s) + multiset{x}
    decreases |s|
  {
    if s != [] {
      assert s == [s[0]] + s[1..];
      if key(s[0]) >= key(x) {
        InsertDescMultiset(x, s[1..], key);
      }
    }
  }

  /** The sort orders by key, largest first, and keeps every element. */
  lemma {:induction false} SortDescSpec<T>(s: seq<T>, key: T -> int)
    ensures SortedDesc(SortDesc(s, key), key)
    ensures multiset(SortDesc(s, key)) == multiset(s)
    decreases |s|
  {
    if s != [] {
      SortDescSpec(s[..|s| - 1], key);
      InsertDescSorted(s[|s| - 1], SortDesc(s[..|s| - 1], key), key);
      InsertDescMultiset(s[|s| - 1], SortDesc(s[..|s| - 1], key), key);
      assert s == s[..|s| - 1] + [s[|s| - 1]];
    }
  }

  function KeyIs<T>(key: T -> int, t: int): T -> bool
  {
    x => key(x) == t
  }

  lemma FilterNone<T>(s: seq<T>, p: T -> bool)
    requires forall x :: x in s ==> !p(x)
    ensures Filter(s, p) == []
  {
    if Filter(s, p) != [] {
      assert Filter(s, p)[0] in Filter(s, p);
    }
  }

  lemma {:induction false} InsertDescStable<T>(x: T, s: seq<T>, key: T -> int, t: int)
    requires SortedDesc(s, key)
    ensures Filter(InsertDesc(x, s, key), KeyIs(key, t)) ==
              Filter(s, KeyIs(key, t)) + (if key(x) == t then [x] else [])
    decreases |s|
  {
    var p := KeyIs(key, t);
    if s == [] {
      FilterCons(x, [], p);
      assert [x] + [] == [x];
    } else if key(s[0]) >= key(x) {
      SortedDescTail(s, key);
      InsertDescStable(x, s[1..], key, t);
      InsertDescStableKeep(x, s, key, t);
    } else {
      InsertDescStableFront(x, s, key, t);
    }
  }

  /** The head is kept in front when its key is not below that of `x`. */
  lemma InsertDescStableKeep<T>(x: T, s: seq<T>, key: T -> int, t: int)
    requires s != [] && key(s[0]) >= key(x)
    requires Filter(InsertDesc(x, s[1..], key), KeyIs(key, t)) ==
               Filter(s[1..], KeyIs(key, t)) + (if key(x) == t then [x] else [])
    ensures Filter(InsertDesc(x, s, key), KeyIs(key, t)) ==
              Filter(s, KeyIs(key, t)) + (if key(x) == t then [x] else [])
  {
    var p := KeyIs(key, t);
    var rest := InsertDesc(x, s[1..], key);
    var head := if p(s[0]) then [s[0]] else [];
    var tail := if key(x) == t then [x] else [];
    calc {
      Filter(InsertDesc(x, s, key), p);
      Filter([s[0]] + rest, p);
      { FilterCons(s[0], rest, p); }
      head + Filter(rest, p);
      head + (Filter(s[1..], p) + tail);
      { AppendAssoc(head, Filter(s[1..], p), tail); }
      (head + Filter(s[1..], p)) + tail;
      Filter(s, p) + tail;
    }
  }

  /** An element placed in front of a sorted sequence whose keys are all below its own. */
  lemma InsertDescStableFront<T>(x: T, s: seq<T>, key: T -> int, t: int)
    requires SortedDesc(s, key) && s != [] && key(s[0]) < key(x)
    ensures Filter([x] + s, KeyIs(key, t)) == Filter(s, KeyIs(key, t)) + (if key(x) == t then [x] else [])
  {
    var p := KeyIs(key, t);
    FilterCons(x, s, p);
    if key(x) == t {
      assert forall y :: y in s ==> key(y) <= key(s[0]);
      FilterNone(s, p);
      assert [x] + [] == [] + [x];
    } else {
      assert [] + Filter(s, p) == Filter(s, p) + [];
    }
  }

  lemma FilterCons<T>(x: T, s: seq<T>, p: T -> bool)
    ensures Filter([x] + s, p) == (if p(x) then [x] else []) + Filter(s, p)
  {
    assert ([x] + s)[0] == x && ([x] + s)[1..] == s;
  }

  lemma SortedDescTail<T>(s: seq<T>, key: T -> int)
    requires SortedDesc(s, key) && s != []
    ensures SortedDesc(s[1..], key)
  {
    forall i, j | 0 <= i < j < |s[1..]|
      ensures key(s[1..][i]) >= key(s[1..][j])
    {
      assert s[1..][i] == s[i + 1] && s[1..][j] == s[j + 1];
    }
  }

  /** The sort is stable: elements with the same key keep their relative order. */
  lemma {:induction false} SortDescStable<T>(s: seq<T>, key: T -> int, t: int)
    ensures Filter(SortDesc(s, key), KeyIs(key, t)) == Filter(s, KeyIs(key, t))
    decreases |s|
  {
    if s != [] {
      var prefix := s[..|s| - 1];
      SortDescStable(prefix, key, t);
      SortDescSpec(prefix, key);
      InsertDescStable(s[|s| - 1], SortDesc(prefix, key), key, t);
      FilterAppend(prefix, s[|s| - 1], KeyIs(key, t));
      assert s == prefix + [s[|s| - 1]];
    }
  }

  lemma {:induction false} FilterSortedDesc<T>(s: seq<T>, key: T -> int, p: T -> bool)
    requires SortedDesc(s, key)
    ensures SortedDesc(Filter(s, p), key)
    decreases |s|
  {
    if s != [] {
      var rest := Filter(s[1..], p);
      SortedDescTail(s, key);
      FilterSortedDesc(s[1..], key, p);
      if p(s[0]) {
        forall k | 0 <= k < |rest|
          ensures key(rest[k]) <= key(s[0])
        {
          assert rest[k] in rest;
          var m :| 0 <= m < |s[1..]| && s[1..][m] == rest[k];
          assert s[1..][m] == s[m + 1];
        }
        assert Filter(s, p) == [s[0]] + rest;
        SortedDescCons(s[0], rest, key);
      } else {
        assert Filter(s, p) == [] + rest;
        assert [] + rest == rest;
      }
    }
  }

  lemma SortedDescCons<T>(x: T, s: seq<T>, key: T -> int)
    requires SortedDesc(s, key) && forall k :: 0 <= k < |s| ==> key(s[k]) <= key(x)
    ensures SortedDesc([x] + s, key)
  {
    forall i, j | 0 <= i < j < |[x] + s|
      ensures key(([x] + s)[i]) >= key(([x] + s)[j])
    {
      assert ([x] + s)[j] == s[j - 1];
      if i > 0 {
        assert ([x] + s)[i] == s[i - 1];
      }
    }
  }

  // =======================================================================================
  // Recent progress

  function EntryTime(timeOf: string -> int): ProgressEntry -> int
  {
    (e: ProgressEntry) => timeOf(e.timestamp)
  }

  function TaskIs(taskId: string): ProgressEntry -> bool
  {
    (e: ProgressEntry) => e.taskId == taskId
  }

  function TaskIsNot(taskId: string): ProgressEntry -> bool
  {
    (e: ProgressEntry) => e.taskId != taskId
  }

  /** `Math.ceil(h * 0.7)`, in exact arithmetic. */
  function TaskShare(h: nat): nat { (7 * h + 9) / 10 }

  /** `Math.floor(h * 0.3)`, in exact arithmetic. */
  function ContextShare(h: nat): nat { 3 * h / 10 }

  /** `s.slice(0, n)` for `n >= 0`. */
  function Take<T>(s: seq<T>, n: nat): (r: seq<T>)
    ensures |r| == if n < |s| then n else |s|
    ensures forall i :: 0 <= i < |r| ==> r[i] == s[i]
  {
    if n < |s| then s[..n] else s
  }

  /** The entries `getRecentProgress` picks: the task's own most recent entries first, then the
      most recent entries of other tasks, each group within its share of `history`. */
  function SelectedEntries(entries: seq<ProgressEntry>, taskId: string, history: nat,
                           timeOf: string -> int): seq<ProgressEntry>
  {
    var sorted := SortDesc(entries, EntryTime(timeOf));
    var taskEntries := Filter(sorted, TaskIs(taskId));
    var otherEntries := Filter(sorted, TaskIsNot(taskId));
    Take(Take(taskEntries, TaskShare(history)) + Take(otherEntries, ContextShare(history)), history)
  }

  /** `value || fallback` on an optional string: an empty string counts as missing. */
  function OrElse(v: Option<string>, fallback: string): string
  {
    if v.Some? && v.value != "" then v.value else fallback
  }

  function HeaderLine(h: Header): string
  {
    "## [" + h.timestamp + "] - [" + h.taskId + "] - Iteration [" + NatToString(h.iteration) + "]"
  }

  /** A header line written for an entry is read back as that entry's header by the header
      pattern, whatever follows it on the line, when its timestamp and task are non-empty and hold
      no `]`. */
  lemma HeaderLineParses(h: Header, tail: string)
    requires |h.timestamp| >= 1 && NoCloseBracket(h.timestamp)
    requires |h.taskId| >= 1 && NoCloseBracket(h.taskId)
    ensures MatchProgressHeader(HeaderLine(h) + tail) == Some(h)
  {
    var r3 := "[" + (NatToString(h.iteration) + ("]" + tail));
    var r2 := "Iteration" + (" " + r3);
    var r1 := "[" + (h.taskId + ("]" + (" - " + r2)));
    var r0 := "[" + (h.timestamp + ("]" + (" - " + r1)));
    HeaderLineShape(h, tail);
    MarkerRead(r0);
    BracketedRight(h.timestamp, " - " + r1);
    TaskIdRead(h.timestamp, h.taskId, r2);
    IterationRead(h.timestamp, h.taskId, h.iteration, tail);
  }

  /** `##` and one space before a text that does not start with white space: the pattern goes on
      with that text. */
  lemma MarkerRead(r: string)
    requires r == [] || !IsJsSpace(r[0])
    ensures MatchProgressHeader("##" + (" " + r)) ==
            match Bracketed(r)
            case None => None
            case Some((timestamp, rest)) => AfterTimestamp(timestamp, rest)
  {
    var line := "##" + (" " + r);
    assert line[..2] == "##" && line[2..] == " " + r;
    TrimOneSpace(r);
  }

  /** ` - [taskId]` after the timestamp: the pattern goes on with what follows the bracket. */
  lemma TaskIdRead(timestamp: string, taskId: string, r: string)
    requires |taskId| >= 1 && NoCloseBracket(taskId)
    requires r == [] || !IsJsSpace(r[0])
    ensures AfterTimestamp(timestamp, " - " + ("[" + (taskId + ("]" + (" - " + r))))) ==
            AfterTaskId(timestamp, taskId, " - " + r)
  {
    DashOf("[" + (taskId + ("]" + (" - " + r))));
    BracketedRight(taskId, " - " + r);
  }

  /** ` - Iteration [n]` after the task: the header is complete. */
  lemma IterationRead(timestamp: string, taskId: string, k: nat, tail: string)
    ensures var r3 := "[" + (NatToString(k) + ("]" + tail));
            AfterTaskId(timestamp, taskId, " - " + ("Iteration" + (" " + r3))) == Some(Header(timestamp, taskId, k))
  {
    var r3 := "[" + (NatToString(k) + ("]" + tail));
    IterationDash(r3);
    IterationPartOf(k, tail);
    AfterTaskIdOf(timestamp, taskId, "Iteration" + (" " + r3), k);
  }

  lemma IterationDash(r3: string)
    ensures Dash(" - " + ("Iteration" + (" " + r3))) == Some("Iteration" + (" " + r3))
  {
    var r2 := "Iteration" + (" " + r3);
    assert r2[0] == 'I';
    DashOf(r2);
  }

  lemma IterationPartOf(k: nat, tail: string)
    ensures IterationPart("Iteration" + (" " + ("[" + (NatToString(k) + ("]" + tail))))) == Some(k)
  {
    var r3 := "[" + (NatToString(k) + ("]" + tail));
    IterationWordRead(r3);
    IterationNumberOf(k, tail);
  }

  lemma AfterTaskIdOf(timestamp: string, taskId: string, r2: string, k: nat)
    requires Dash(" - " + r2) == Some(r2) && IterationPart(r2) == Some(k)
    ensures AfterTaskId(timestamp, taskId, " - " + r2) == Some(Header(timestamp, taskId, k))
  {
  }

  /** `Iteration` and one space before a text that does not start with white space: the pattern
      goes on with that text. */
  lemma IterationWordRead(r: string)
    requires r == [] || !IsJsSpace(r[0])
    ensures IterationPart("Iteration" + (" " + r)) == IterationNumber(r)
  {
    var r2 := "Iteration" + (" " + r);
    assert r2[..9] == "Iteration";
    assert r2[9..] == " " + r;
    TrimOneSpace(r);
  }

  /** The header line, taken apart at each point the pattern reads it. */
  lemma HeaderLineShape(h: Header, tail: string)
    ensures var r3 := "[" + (NatToString(h.iteration) + ("]" + tail));
            var r1 := "[" + (h.taskId + ("]" + (" - " + ("Iteration" + (" " + r3)))));
            HeaderLine(h) + tail == "##" + (" " + ("[" + (h.timestamp + ("]" + (" - " + r1)))))
  {
    var n := NatToString(h.iteration);
    var a := "## [" + h.timestamp;
    var b := a + "] - [";
    var c := b + h.taskId;
    var d := c + "] - Iteration [";
    var e := d + n;
    var t3 := "]" + tail;
    var r3 := "[" + (n + t3);
    var x1 := "]" + (" - " + ("Iteration" + (" " + r3)));
    var r1 := "[" + (h.taskId + x1);
    var x0 := "]" + (" - " + r1);
    assert HeaderLine(h) == e + "]";
    calc {
      HeaderLine(h) + tail;
      { AppendAssoc(e, "]", tail); }
      e + t3;
      { AppendAssoc(d, n, t3); }
      d + (n + t3);
      { AppendAssoc(c, "] - Iteration [", n + t3); LiteralIteration(n + t3); }
      c + x1;
      { AppendAssoc(b, h.taskId, x1); }
      b + (h.taskId + x1);
      { AppendAssoc(a, "] - [", h.taskId + x1); LiteralDash(h.taskId + x1); }
      a + x0;
      { AppendAssoc("## [", h.timestamp, x0); LiteralMarker(h.timestamp + x0); }
      "##" + (" " + ("[" + (h.timestamp + x0)));
    }
  }

  lemma LiteralMarker(y: string)
    ensures "## [" + y == "##" + (" " + ("[" + y))
  {
  }

  lemma LiteralDash(y: string)
    ensures "] - [" + y == "]" + (" - " + ("[" + y))
  {
  }

  lemma LiteralIteration(y: string)
    ensures "] - Iteration [" + y == "]" + (" - " + ("Iteration" + (" " + ("[" + y))))
  {
  }

  /** `BracketedOf`, with the text grouped from the right. */
  lemma BracketedRight(t: string, rest: string)
    requires |t| >= 1 && NoCloseBracket(t)
    ensures Bracketed("[" + (t + ("]" + rest))) == Some((t, rest))
  {
    AppendAssoc(t, "]", rest);
    AppendAssoc("[", t + "]", rest);
    AppendAssoc("[", t, "]");
    BracketedOf(t, rest);
  }

  /** `[digits]` written for a number is read back as that number. */
  lemma IterationNumberOf(k: nat, tail: string)
    ensures IterationNumber("[" + (NatToString(k) + ("]" + tail))) == Some(k)
  {
    var n := NatToString(k);
    var r := "[" + (n + ("]" + tail));
    assert r[1..] == n + ("]" + tail);
    var d := Span(r[1..], IsDigit);
    assert d == |n| by {
      assert r[1..][|n|] == ']';
      assert forall i :: 0 <= i < |n| ==> r[1..][i] == n[i];
    }
    assert r[1..1 + d] == n;
    DigitsValueOfNat(k);
  }

  /** Every formatted entry starts with a header line that is read back as the entry's header. */
  lemma FormatEntryHeader(e: ProgressEntry)
    requires |e.timestamp| >= 1 && NoCloseBracket(e.timestamp)
    requires |e.taskId| >= 1 && NoCloseBracket(e.taskId)
    ensures MatchProgressHeader(FormatEntry(e)) == Some(HeaderOf(e))
  {
    var tail := FormatEntry(e)[|HeaderLine(HeaderOf(e))|..];
    assert FormatEntry(e) == HeaderLine(HeaderOf(e)) + tail;
    HeaderLineParses(HeaderOf(e), tail);
  }

  /** The text of one entry in the bundle. */
  function FormatEntry(e: ProgressEntry): string
  {
    HeaderLine(HeaderOf(e)) + "\n"
    + "Agent: " + OrElse(e.agent, "unknown") + "\n"
    + "Action: " + OrElse(e.action, "no action specified") + "\n"
    + "Files: " + (if e.files.Some? then Join(e.files.value, ", ") else "") + "\n"
    + "Tests: " + OrElse(e.tests, "no test info") + "\n"
    + "Commit: " + OrElse(e.commit, "no commit") + "\n"
    + "Status: " + OrElse(e.status, "unknown")
  }

  function WithField(e: ProgressEntry, f: TextField, v: Option<string>): (r: ProgressEntry)
    ensures Get(r, f) == v
  {
    match f
    case AgentField => e.(agent := v)
    case ActionField => e.(action := v)
    case TestsField => e.(tests := v)
    case CommitField => e.(commit := v)
    case StatusField => e.(status := v)
  }

  /** An empty text field is shown as its default, as a missing one is. */
  lemma EmptyFieldIsMissing(e: ProgressEntry, f: TextField)
    ensures FormatEntry(WithField(e, f, Some(""))) == FormatEntry(WithField(e, f, None))
  {
  }

  function FormatEntries(es: seq<ProgressEntry>): (r: seq<string>)
    ensures |r| == |es| && forall i :: 0 <= i < |es| ==> r[i] == FormatEntry(es[i])
  {
    seq(|es|, i requires 0 <= i < |es| => FormatEntry(es[i]))
  }

  /** `getRecentProgress`. */
  function GetRecentProgress(entries: seq<ProgressEntry>, taskId: string, history: nat,
                             timeOf: string -> int): (r: seq<string>)
    ensures |r| <= history
  {
    FormatEntries(SelectedEntries(entries, taskId, history, timeOf))
  }

  /** The two shares add up to the whole history, so the final `slice(0, h)` never cuts. */
  lemma SharesAddUp(h: nat)
    ensures TaskShare(h) + ContextShare(h) == h
  {
  }

  function OwnCount(entries: seq<ProgressEntry>, taskId: string, history: nat): nat
  {
    var own := |Filter(entries, TaskIs(taskId))|;
    if own < TaskShare(history) then own else TaskShare(history)
  }

  function OtherCount(entries: seq<ProgressEntry>, taskId: string, history: nat): nat
  {
    var other := |Filter(entries, TaskIsNot(taskId))|;
    if other < ContextShare(history) then other else ContextShare(history)
  }

  /** A group of the sorted log: most recent first, and exactly the log's entries that pass the
      test, each as often as in the log. */
  lemma GroupFacts(entries: seq<ProgressEntry>, key: ProgressEntry -> int, p: ProgressEntry -> bool)
    ensures var g := Filter(SortDesc(entries, key), p);
            && SortedDesc(g, key)
            && (forall i :: 0 <= i < |g| ==> p(g[i]) && g[i] in entries)
            && |g| == |Filter(entries, p)|
            && multiset(g) == multiset(Filter(entries, p))
  {
    var sorted := SortDesc(entries, key);
    SortDescSpec(entries, key);
    FilterSortedDesc(sorted, key, p);
    SortDescFilterSize(entries, key, p);
    SortDescFilterMultiset(entries, key, p);
    var g := Filter(sorted, p);
    assert forall i :: 0 <= i < |g| ==> g[i] in g;
    assert forall x :: x in sorted ==> x in multiset(entries);
  }

  /** The first `m` of a group sorted most recent first are drawn from the group, and none of the
      group's entries left out is more recent than any picked one. */
  lemma TakeMostRecent(g: seq<ProgressEntry>, m: nat, group: seq<ProgressEntry>, timeOf: string -> int)
    requires SortedDesc(g, EntryTime(timeOf)) && multiset(g) == multiset(group)
    ensures MostRecentOf(Take(g, m), group, timeOf)
  {
    var a := Take(g, m);
    var n := |a|;
    assert a == g[..n];
    var rest := g[n..];
    assert g == a + rest;
    forall e | multiset(a)[e] < multiset(group)[e]
      ensures forall i :: 0 <= i < |a| ==> timeOf(e.timestamp) <= timeOf(a[i].timestamp)
    {
      LeftOverInRest(a, rest, e);
      LaterNotNewer(g, n, e, timeOf);
    }
  }

  lemma LeftOverInRest(a: seq<ProgressEntry>, rest: seq<ProgressEntry>, e: ProgressEntry)
    requires multiset(a)[e] < multiset(a + rest)[e]
    ensures e in rest
  {
    assert multiset(a + rest) == multiset(a) + multiset(rest);
  }

  /** In a sequence sorted most recent first, nothing from position `n` on is more recent than
      anything before it. */
  lemma LaterNotNewer(g: seq<ProgressEntry>, n: nat, e: ProgressEntry, timeOf: string -> int)
    requires SortedDesc(g, EntryTime(timeOf)) && n <= |g| && e in g[n..]
    ensures forall i :: 0 <= i < n ==> timeOf(e.timestamp) <= timeOf(g[i].timestamp)
  {
    var j :| 0 <= j < |g[n..]| && g[n..][j] == e;
    assert g[n + j] == e;
    forall i | 0 <= i < n
      ensures timeOf(e.timestamp) <= timeOf(g[i].timestamp)
    {
      assert EntryTime(timeOf)(g[i]) >= EntryTime(timeOf)(g[n + j]);
    }
  }

  /** How many entries are picked: the task's own up to its share, others up to theirs. */
  lemma SelectedEntriesCount(entries: seq<ProgressEntry>, taskId: string, history: nat, timeOf: string -> int)
    ensures |SelectedEntries(entries, taskId, history, timeOf)| ==
              OwnCount(entries, taskId, history) + OtherCount(entries, taskId, history)
  {
    var key := EntryTime(timeOf);
    SortDescFilterSize(entries, key, TaskIs(taskId));
    SortDescFilterSize(entries, key, TaskIsNot(taskId));
    SharesAddUp(history);
  }

  /** The first `OwnCount` picked entries are the task's own, most recent first; the rest, up to
      `OtherCount` of them, belong to other tasks, most recent first; every one comes from the log.
      Each group picked is drawn from that group's entries in the log, and no entry of the group
      left out is more recent than any picked one. */
  lemma SelectedEntriesSpec(entries: seq<ProgressEntry>, taskId: string, history: nat, timeOf: string -> int)
    ensures var sel := SelectedEntries(entries, taskId, history, timeOf);
            var k := OwnCount(entries, taskId, history);
            && k <= |sel|
            && (forall i :: 0 <= i < k ==> sel[i].taskId == taskId)
            && (forall i :: k <= i < |sel| ==> sel[i].taskId != taskId)
            && (forall i, j :: 0 <= i < j < k ==> timeOf(sel[i].timestamp) >= timeOf(sel[j].timestamp))
            && (forall i, j :: k <= i < j < |sel| ==> timeOf(sel[i].timestamp) >= timeOf(sel[j].timestamp))
            && (forall i :: 0 <= i < |sel| ==> sel[i] in entries)
            && MostRecentOf(sel[..k], Filter(entries, TaskIs(taskId)), timeOf)
            && MostRecentOf(sel[k..], Filter(entries, TaskIsNot(taskId)), timeOf)
  {
    var sel := SelectedEntries(entries, taskId, history, timeOf);
    var k := OwnCount(entries, taskId, history);
    SelectedGroups(entries, taskId, history, timeOf);
    PickedMostRecent(entries, taskId, history, timeOf, sel, k);
  }

  /** The picked entries split into the task's own and then other tasks', each most recent first. */
  lemma SelectedGroups(entries: seq<ProgressEntry>, taskId: string, history: nat, timeOf: string -> int)
    ensures var sel := SelectedEntries(entries, taskId, history, timeOf);
            var k := OwnCount(entries, taskId, history);
            && k <= |sel|
            && (forall i :: 0 <= i < k ==> sel[i].taskId == taskId)
            && (forall i :: k <= i < |sel| ==> sel[i].taskId != taskId)
            && (forall i, j :: 0 <= i < j < k ==> timeOf(sel[i].timestamp) >= timeOf(sel[j].timestamp))
            && (forall i, j :: k <= i < j < |sel| ==> timeOf(sel[i].timestamp) >= timeOf(sel[j].timestamp))
            && (forall i :: 0 <= i < |sel| ==> sel[i] in entries)
  {
    var sorted := SortDesc(entries, EntryTime(timeOf));
    var g1 := Filter(sorted, TaskIs(taskId));
    var g2 := Filter(sorted, TaskIsNot(taskId));
    OwnGroup(entries, taskId, timeOf);
    OtherGroup(entries, taskId, timeOf);
    SelectedIs(entries, taskId, history, timeOf);
    var sel := SelectedEntries(entries, taskId, history, timeOf);
    PickFacts(entries, g1, g2, TaskShare(history), ContextShare(history), sel,
              OwnCount(entries, taskId, history), taskId, timeOf);
  }

  /** The task's own group of the sorted log, as the selection uses it. */
  lemma OwnGroup(entries: seq<ProgressEntry>, taskId: string, timeOf: string -> int)
    ensures var g := Filter(SortDesc(entries, EntryTime(timeOf)), TaskIs(taskId));
            && SortedDesc(g, EntryTime(timeOf)) && |g| == |Filter(entries, TaskIs(taskId))|
            && forall i :: 0 <= i < |g| ==> g[i].taskId == taskId && g[i] in entries
  {
    GroupFacts(entries, EntryTime(timeOf), TaskIs(taskId));
  }

  /** The other tasks' group of the sorted log, as the selection uses it. */
  lemma OtherGroup(entries: seq<ProgressEntry>, taskId: string, timeOf: string -> int)
    ensures var g := Filter(SortDesc(entries, EntryTime(timeOf)), TaskIsNot(taskId));
            && SortedDesc(g, EntryTime(timeOf))
            && forall i :: 0 <= i < |g| ==> g[i].taskId != taskId && g[i] in entries
  {
    GroupFacts(entries, EntryTime(timeOf), TaskIsNot(taskId));
  }

  /** `picked` is drawn from `group`, and no entry of `group` left out is more recent than any
      picked one. */
  ghost predicate MostRecentOf(picked: seq<ProgressEntry>, group: seq<ProgressEntry>, timeOf: string -> int)
  {
    && multiset(picked) <= multiset(group)
    && forall e :: multiset(picked)[e] < multiset(group)[e] ==>
         forall i :: 0 <= i < |picked| ==> timeOf(e.timestamp) <= timeOf(picked[i].timestamp)
  }

  lemma PickedMostRecent(entries: seq<ProgressEntry>, taskId: string, history: nat, timeOf: string -> int,
                         sel: seq<ProgressEntry>, k: nat)
    requires sel == SelectedEntries(entries, taskId, history, timeOf) && k == OwnCount(entries, taskId, history)
    requires k <= |sel|
    ensures MostRecentOf(sel[..k], Filter(entries, TaskIs(taskId)), timeOf)
    ensures MostRecentOf(sel[k..], Filter(entries, TaskIsNot(taskId)), timeOf)
  {
    var key := EntryTime(timeOf);
    var sorted := SortDesc(entries, key);
    var g1 := Filter(sorted, TaskIs(taskId));
    var g2 := Filter(sorted, TaskIsNot(taskId));
    assert SortedDesc(g1, key) && multiset(g1) == multiset(Filter(entries, TaskIs(taskId)))
           && |g1| == |Filter(entries, TaskIs(taskId))| by {
      GroupFacts(entries, key, TaskIs(taskId));
    }
    assert SortedDesc(g2, key) && multiset(g2) == multiset(Filter(entries, TaskIsNot(taskId))) by {
      GroupFacts(entries, key, TaskIsNot(taskId));
    }
    var a := Take(g1, TaskShare(history));
    var b := Take(g2, ContextShare(history));
    assert sel == a + b by {
      SelectedIs(entries, taskId, history, timeOf);
    }
    assert |a| == k;
    assert sel[..k] == a && sel[k..] == b;
    TakeMostRecent(g1, TaskShare(history), Filter(entries, TaskIs(taskId)), timeOf);
    TakeMostRecent(g2, ContextShare(history), Filter(entries, TaskIsNot(taskId)), timeOf);
  }


  lemma SelectedIs(entries: seq<ProgressEntry>, taskId: string, history: nat, timeOf: string -> int)
    ensures var sorted := SortDesc(entries, EntryTime(timeOf));
            SelectedEntries(entries, taskId, history, timeOf) ==
              Take(Filter(sorted, TaskIs(taskId)), TaskShare(history)) + Take(Filter(sorted, TaskIsNot(taskId)), ContextShare(history))
  {
    SharesAddUp(history);
  }

  lemma PickFacts(entries: seq<ProgressEntry>, g1: seq<ProgressEntry>, g2: seq<ProgressEntry>, m: nat, n: nat,
                  sel: seq<ProgressEntry>, k: nat, taskId: string, timeOf: string -> int)
    requires SortedDesc(g1, EntryTime(timeOf)) && SortedDesc(g2, EntryTime(timeOf))
    requires forall i :: 0 <= i < |g1| ==> g1[i].taskId == taskId && g1[i] in entries
    requires forall i :: 0 <= i < |g2| ==> g2[i].taskId != taskId && g2[i] in entries
    requires sel == Take(g1, m) + Take(g2, n) && k == |Take(g1, m)|
    ensures && k <= |sel|
            && (forall i :: 0 <= i < k ==> sel[i].taskId == taskId)
            && (forall i :: k <= i < |sel| ==> sel[i].taskId != taskId)
            && (forall i, j :: 0 <= i < j < k ==> timeOf(sel[i].timestamp) >= timeOf(sel[j].timestamp))
            && (forall i, j :: k <= i < j < |sel| ==> timeOf(sel[i].timestamp) >= timeOf(sel[j].timestamp))
            && (forall i :: 0 <= i < |sel| ==> sel[i] in entries)
  {
    var a := Take(g1, m);
    forall i, j | 0 <= i < j < |a|
      ensures timeOf(sel[i].timestamp) >= timeOf(sel[j].timestamp)
    {
      assert EntryTime(timeOf)(g1[i]) >= EntryTime(timeOf)(g1[j]);
    }
    forall i, j | |a| <= i < j < |sel|
      ensures timeOf(sel[i].timestamp) >= timeOf(sel[j].timestamp)
    {
      assert EntryTime(timeOf)(g2[i - |a|]) >= EntryTime(timeOf)(g2[j - |a|]);
    }
  }

  lemma {:induction false} InsertDescFilterSize<T>(x: T, s: seq<T>, key: T -> int, p: T -> bool)
    ensures |Filter(InsertDesc(x, s, key), p)| == |Filter(s, p)| + (if p(x) then 1 else 0)
    decreases |s|
  {
    if s != [] && key(s[0]) >= key(x) {
      InsertDescFilterSize(x, s[1..], key, p);
      assert ([s[0]] + InsertDesc(x, s[1..], key))[1..] == InsertDesc(x, s[1..], key);
    } else if s != [] {
      assert ([x] + s)[1..] == s;
    }
  }

  lemma {:induction false} InsertDescFilterMultiset<T>(x: T, s: seq<T>, key: T -> int, p: T -> bool)
    ensures multiset(Filter(InsertDesc(x, s, key), p)) ==
              multiset(Filter(s, p)) + multiset(if p(x) then [x] else [])
    decreases |s|
  {
    if s == [] {
      FilterSingle(x, p);
    } else if key(s[0]) >= key(x) {
      InsertDescFilterMultiset(x, s[1..], key, p);
      FilterMultisetCons(s[0], s[1..], InsertDesc(x, s[1..], key), multiset(if p(x) then [x] else []), p);
      assert [s[0]] + s[1..] == s;
    } else {
      FilterCons(x, s, p);
    }
  }

  lemma FilterSingle<T>(x: T, p: T -> bool)
    ensures multiset(Filter([x], p)) == multiset(Filter([], p)) + multiset(if p(x) then [x] else [])
  {
    FilterCons(x, [], p);
    assert [x] + [] == [x];
  }

  /** Putting the same element in front of two sequences keeps the difference of their filters. */
  lemma FilterMultisetCons<T>(y: T, s: seq<T>, t: seq<T>, extra: multiset<T>, p: T -> bool)
    requires multiset(Filter(t, p)) == multiset(Filter(s, p)) + extra
    ensures multiset(Filter([y] + t, p)) == multiset(Filter([y] + s, p)) + extra
  {
    var head := if p(y) then [y] else [];
    FilterCons(y, t, p);
    FilterCons(y, s, p);
    calc {
      multiset(Filter([y] + t, p));
      multiset(head + Filter(t, p));
      multiset(head) + multiset(Filter(t, p));
      multiset(head) + (multiset(Filter(s, p)) + extra);
      (multiset(head) + multiset(Filter(s, p))) + extra;
      multiset(head + Filter(s, p)) + extra;
      multiset(Filter([y] + s, p)) + extra;
    }
  }

  /** Sorting does not change which elements satisfy a test, nor how often. */
  lemma {:induction false} SortDescFilterMultiset<T>(s: seq<T>, key: T -> int, p: T -> bool)
    ensures multiset(Filter(SortDesc(s, key), p)) == multiset(Filter(s, p))
    decreases |s|
  {
    if s != [] {
      var prefix, x := s[..|s| - 1], s[|s| - 1];
      var extra := if p(x) then [x] else [];
      calc {
        multiset(Filter(SortDesc(s, key), p));
        multiset(Filter(InsertDesc(x, SortDesc(prefix, key), key), p));
        { InsertDescFilterMultiset(x, SortDesc(prefix, key), key, p); }
        multiset(Filter(SortDesc(prefix, key), p)) + multiset(extra);
        { SortDescFilterMultiset(prefix, key, p); }
        multiset(Filter(prefix, p)) + multiset(extra);
        multiset(Filter(prefix, p) + extra);
        { FilterAppend(prefix, x, p); }
        multiset(Filter(prefix + [x], p));
        { assert s == prefix + [x]; }
        multiset(Filter(s, p));
      }
    }
  }

  /** Sorting does not change how many elements satisfy a test. */
  lemma {:induction false} SortDescFilterSize<T>(s: seq<T>, key: T -> int, p: T -> bool)
    ensures |Filter(SortDesc(s, key), p)| == |Filter(s, p)|
    decreases |s|
  {
    if s != [] {
      var prefix, x := s[..|s| - 1], s[|s| - 1];
      calc {
        |Filter(SortDesc(s, key), p)|;
        |Filter(InsertDesc(x, SortDesc(prefix, key), key), p)|;
        { InsertDescFilterSize(x, SortDesc(prefix, key), key, p); }
        |Filter(SortDesc(prefix, key), p)| + (if p(x) then 1 else 0);
        { SortDescFilterSize(prefix, key, p); }
        |Filter(prefix, p)| + (if p(x) then 1 else 0);
        { FilterAppend(prefix, x, p); }
        |Filter(prefix + [x], p)|;
        { assert s == prefix + [x]; }
        |Filter(s, p)|;
      }
    }
  }

  // =======================================================================================
  // The token budget

  /** `Math.floor(maxTokens * 0.15)` and the other shares, in exact arithmetic (`/` by a positive
      number rounds down, negative budgets included). */
  function AcceptanceShare(maxTokens: int): int { 15 * maxTokens / 100 }

  function FilesShare(maxTokens: int): int { 5 * maxTokens / 100 }

  function ProgressShare(maxTokens: int): int { 30 * maxTokens / 100 }

  function SpecShare(maxTokens: int): int { 50 * maxTokens / 100 }

  /** The texts kept so far in one bucket and the running token count. */
  datatype Fill = Fill(kept: seq<string>, used: int)

  /** One item offered against a fixed ceiling. */
  function CapStep(f: Fill, item: string, cap: int): Fill
  {
    if !WouldExceedBudget(f.used, item, cap) then Fill(f.kept + [item], f.used + EstimateTokens(item)) else f
  }

  function CapFill(items: seq<string>, start: int, cap: int): Fill
    decreases |items|
  {
    if items == [] then Fill([], start)
    else CapStep(CapFill(items[..|items| - 1], start, cap), items[|items| - 1], cap)
  }

  /** One item offered against the running count plus the bucket's share, as the files and progress
      buckets do. */
  function ShareStep(f: Fill, item: string, reserved: int): Fill
  {
    CapStep(f, item, f.used + reserved)
  }

  function ShareFill(items: seq<string>, start: int, reserved: int): Fill
    decreases |items|
  {
    if items == [] then Fill([], start)
    else ShareStep(ShareFill(items[..|items| - 1], start, reserved), items[|items| - 1], reserved)
  }

  // The literal is split into short pieces on purpose: long string literals are costly to the solver.
  const TruncationMarker: string := "\n\n[... truncated " + "for token budget ...]"

  /** The spec bucket: sections kept, running count, and whether a truncated section ended it. */
  datatype SpecFillState = SpecFillState(kept: seq<string>, used: int, stopped: bool)

  function SpecStep(st: SpecFillState, section: string, maxTokens: int): SpecFillState
  {
    if st.stopped then st
    else if !WouldExceedBudget(st.used, section, maxTokens) then
      SpecFillState(st.kept + [section], st.used + EstimateTokens(section), false)
    else if maxTokens - st.used > 100 then
      SpecFillState(st.kept + [TruncateToTokenBudget(section, maxTokens - st.used) + TruncationMarker], st.used, true)
    else st
  }

  function SpecFill(sections: seq<string>, start: int, maxTokens: int): SpecFillState
    decreases |sections|
  {
    if sections == [] then SpecFillState([], start, false)
    else SpecStep(SpecFill(sections[..|sections| - 1], start, maxTokens), sections[|sections| - 1], maxTokens)
  }

  datatype Fitted = Fitted(specSections: seq<string>, acceptanceCriteria: seq<string>,
                           recentProgress: seq<string>, filesToModify: seq<string>)

  /** The four buckets filled in priority order, each starting from the count the previous left. */
  function Fit(maxTokens: int, specSections: seq<string>, acceptanceCriteria: seq<string>,
               recentProgress: seq<string>, filesToModify: seq<string>): Fitted
  {
    var ac := CapFill(acceptanceCriteria, 0, AcceptanceShare(maxTokens));
    var files := ShareFill(filesToModify, ac.used, FilesShare(maxTokens));
    var progress := ShareFill(recentProgress, files.used, ProgressShare(maxTokens));
    var spec := SpecFill(specSections, progress.used, maxTokens);
    Fitted(spec.kept, ac.kept, progress.kept, files.kept)
  }

  lemma CapFillSnoc(items: seq<string>, item: string, start: int, cap: int)
    ensures CapFill(items + [item], start, cap) == CapStep(CapFill(items, start, cap), item, cap)
  {
    assert (items + [item])[..|items|] == items;
  }

  lemma ShareFillSnoc(items: seq<string>, item: string, start: int, reserved: int)
    ensures ShareFill(items + [item], start, reserved) == ShareStep(ShareFill(items, start, reserved), item, reserved)
  {
    assert (items + [item])[..|items|] == items;
  }

  lemma SpecFillSnoc(sections: seq<string>, section: string, start: int, maxTokens: int)
    ensures SpecFill(sections + [section], start, maxTokens) == SpecStep(SpecFill(sections, start, maxTokens), section, maxTokens)
  {
    assert (sections + [section])[..|sections|] == sections;
  }

  /** One more section: the fold over the first `i + 1` sections is one step past the first `i`. */
  lemma SpecFillAt(sections: seq<string>, i: nat, start: int, maxTokens: int)
    requires i < |sections|
    ensures SpecFill(sections[..i + 1], start, maxTokens) == SpecStep(SpecFill(sections[..i], start, maxTokens), sections[i], maxTokens)
  {
    assert sections[..i + 1] == sections[..i] + [sections[i]];
    SpecFillSnoc(sections[..i], sections[i], start, maxTokens);
  }

  /** Once a truncated section has been added, the remaining sections change nothing. */
  lemma {:induction false} SpecFillStopped(sections: seq<string>, k: nat, start: int, maxTokens: int)
    requires k <= |sections| && SpecFill(sections[..k], start, maxTokens).stopped
    ensures SpecFill(sections, start, maxTokens) == SpecFill(sections[..k], start, maxTokens)
    decreases |sections| - k
  {
    if k < |sections| {
      SpecFillSnoc(sections[..k], sections[k], start, maxTokens);
      assert sections[..k + 1] == sections[..k] + [sections[k]];
      SpecFillStopped(sections, k + 1, start, maxTokens);
    } else {
      assert sections[..k] == sections;
    }
  }

  // =======================================================================================
  // What the buckets hold

  /** The acceptance bucket keeps an order-preserving selection of the criteria whose tokens add up
      to the running count, and never goes past its ceiling unless it started past it. */
  lemma {:induction false} CapFillSpec(items: seq<string>, start: int, cap: int)
    ensures var f := CapFill(items, start, cap);
            && IsSubsequence(f.kept, items)
            && f.used == start + EstimateTokensForArray(f.kept)
            && f.used <= (if start <= cap then cap else start)
    decreases |items|
  {
    if items != [] {
      var prefix := items[..|items| - 1];
      var item := items[|items| - 1];
      CapFillSpec(prefix, start, cap);
      var f := CapFill(prefix, start, cap);
      SubsequenceSnoc(f.kept, prefix, item);
      assert items == prefix + [item];
      if !WouldExceedBudget(f.used, item, cap) {
        EstimateArrayAppend(f.kept, [item]);
        assert EstimateTokensForArray([item]) == EstimateTokens(item);
      }
    }
  }

  /** A share bucket keeps exactly the items that fit the share on their own, in order: the running
      count cancels out of `current + estimate > current + share`. */
  lemma {:induction false} ShareFillSpec(items: seq<string>, start: int, reserved: int)
    ensures var f := ShareFill(items, start, reserved);
            && f.kept == Filter(items, FitsShare(reserved))
            && f.used == start + EstimateTokensForArray(f.kept)
    decreases |items|
  {
    if items != [] {
      var prefix := items[..|items| - 1];
      var item := items[|items| - 1];
      assert items == prefix + [item];
      ShareFillSpec(prefix, start, reserved);
      ShareFillSnoc(prefix, item, start, reserved);
      FilterAppend(prefix, item, FitsShare(reserved));
      var f := ShareFill(prefix, start, reserved);
      ExceedRelativeBudget(f.used, item, reserved);
      if EstimateTokens(item) <= reserved {
        assert FitsShare(reserved)(item);
        EstimateArrayAppend(f.kept, [item]);
        assert EstimateTokensForArray([item]) == EstimateTokens(item);
      } else {
        assert !FitsShare(reserved)(item);
      }
    }
  }

  function FitsShare(reserved: int): string -> bool
  {
    (s: string) => EstimateTokens(s) <= reserved
  }

  /** A subsequence stays one when both sides grow by the same element. */
  lemma SubsequenceSnoc<T>(sub: seq<T>, s: seq<T>, x: T)
    requires IsSubsequence(sub, s)
    ensures IsSubsequence(sub, s + [x]) && IsSubsequence(sub + [x], s + [x])
  {
    SubsequenceSnocBoth(sub, s, x);
  }

  lemma {:induction false} SubsequenceSnocBoth<T>(sub: seq<T>, s: seq<T>, x: T)
    requires IsSubsequence(sub, s)
    ensures IsSubsequence(sub, s + [x]) && IsSubsequence(sub + [x], s + [x])
    decreases |s|
  {
    if s == [] {
      var one: seq<T> := [x];
      assert sub == [] && one[1..] == [];
    } else {
      assert (s + [x])[1..] == s[1..] + [x];
      if sub != [] && sub[0] == s[0] {
        SubsequenceSnocBoth(sub[1..], s[1..], x);
        assert (sub + [x])[1..] == sub[1..] + [x];
      } else {
        SubsequenceSnocBoth(sub, s[1..], x);
      }
    }
  }

  /** The sections kept whole: all of them, or all but the truncated last one. */
  function WholeSections(st: SpecFillState): seq<string>
  {
    if st.stopped && |st.kept| >= 1 then st.kept[..|st.kept| - 1] else st.kept
  }

  /** A section that does not fit when 100 tokens or fewer are left is skipped: the fill is as it
      was, and a later section that still fits is kept after it. */
  lemma SpecSkipsWhenLittleLeft(sections: seq<string>, section: string, later: string, start: int, maxTokens: int)
    requires !SpecFill(sections, start, maxTokens).stopped
    requires WouldExceedBudget(SpecFill(sections, start, maxTokens).used, section, maxTokens)
    requires maxTokens - SpecFill(sections, start, maxTokens).used <= 100
    ensures SpecFill(sections + [section], start, maxTokens) == SpecFill(sections, start, maxTokens)
    ensures var st := SpecFill(sections, start, maxTokens);
            !WouldExceedBudget(st.used, later, maxTokens) ==>
              SpecFill(sections + [section, later], start, maxTokens).kept == st.kept + [later]
  {
    SpecFillSnoc(sections, section, start, maxTokens);
    assert sections + [section, later] == (sections + [section]) + [later];
    SpecFillSnoc(sections + [section], later, start, maxTokens);
  }

  /** The spec bucket keeps an order-preserving selection of whole sections that stay within the
      ceiling (unless the count started past it); if it stopped, its last text is the prefix of a
      section cut to the tokens left, followed by the marker, and more than 100 tokens were left. */
  lemma {:induction false} SpecFillSpec(sections: seq<string>, start: int, maxTokens: int)
    ensures var st := SpecFill(sections, start, maxTokens);
            && IsSubsequence(WholeSections(st), sections)
            && st.used == start + EstimateTokensForArray(WholeSections(st))
            && st.used <= (if start <= maxTokens then maxTokens else start)
            && (st.stopped ==> EndsTruncated(st, sections, maxTokens))
    decreases |sections|
  {
    if sections != [] {
      var prefix := sections[..|sections| - 1];
      var section := sections[|sections| - 1];
      assert sections == prefix + [section];
      SpecFillSpec(prefix, start, maxTokens);
      SpecFillSnoc(prefix, section, start, maxTokens);
      SpecStepKeeps(SpecFill(prefix, start, maxTokens), prefix, section, start, maxTokens);
    }
  }

  /** The last kept text is a section of `sections` cut to the tokens left, plus the marker. */
  predicate EndsTruncated(st: SpecFillState, sections: seq<string>, maxTokens: int)
  {
    && |st.kept| >= 1
    && maxTokens - st.used > 100
    && exists j :: 0 <= j < |sections| &&
         st.kept[|st.kept| - 1] == TruncateToTokenBudget(sections[j], maxTokens - st.used) + TruncationMarker
  }

  lemma SpecStepKeeps(st: SpecFillState, prefix: seq<string>, section: string, start: int, maxTokens: int)
    requires IsSubsequence(WholeSections(st), prefix)
    requires st.used == start + EstimateTokensForArray(WholeSections(st))
    requires st.used <= (if start <= maxTokens then maxTokens else start)
    requires st.stopped ==> EndsTruncated(st, prefix, maxTokens)
    ensures var next := SpecStep(st, section, maxTokens);
            && IsSubsequence(WholeSections(next), prefix + [section])
            && next.used == start + EstimateTokensForArray(WholeSections(next))
            && next.used <= (if start <= maxTokens then maxTokens else start)
            && (next.stopped ==> EndsTruncated(next, prefix + [section], maxTokens))
  {
    SubsequenceSnoc(WholeSections(st), prefix, section);
    if st.stopped {
      StoppedStays(st, prefix, section, maxTokens);
    } else if !WouldExceedBudget(st.used, section, maxTokens) {
      WholeSectionCounted(st, section);
    } else if maxTokens - st.used > 100 {
      TruncatedSectionLast(st, prefix, section, maxTokens);
    }
  }

  lemma StoppedStays(st: SpecFillState, prefix: seq<string>, section: string, maxTokens: int)
    requires EndsTruncated(st, prefix, maxTokens)
    ensures EndsTruncated(st, prefix + [section], maxTokens)
  {
    var j :| 0 <= j < |prefix| &&
             st.kept[|st.kept| - 1] == TruncateToTokenBudget(prefix[j], maxTokens - st.used) + TruncationMarker;
    assert (prefix + [section])[j] == prefix[j];
  }

  lemma WholeSectionCounted(st: SpecFillState, section: string)
    requires !st.stopped
    ensures EstimateTokensForArray(st.kept + [section]) == EstimateTokensForArray(WholeSections(st)) + EstimateTokens(section)
  {
    EstimateArrayAppend(st.kept, [section]);
    assert EstimateTokensForArray([section]) == EstimateTokens(section);
  }

  lemma TruncatedSectionLast(st: SpecFillState, prefix: seq<string>, section: string, maxTokens: int)
    requires !st.stopped && maxTokens - st.used > 100
    ensures var next := SpecFillState(st.kept + [TruncateToTokenBudget(section, maxTokens - st.used) + TruncationMarker], st.used, true);
            && WholeSections(next) == WholeSections(st)
            && EndsTruncated(next, prefix + [section], maxTokens)
  {
    var kept := st.kept + [TruncateToTokenBudget(section, maxTokens - st.used) + TruncationMarker];
    assert kept[..|kept| - 1] == st.kept;
    assert (prefix + [section])[|prefix|] == section;
  }

  /** The spec bucket as written: what it adds to the running count is at most what was left
      under the ceiling plus the marker's tokens. */
  lemma SpecFillTotal(sections: seq<string>, start: int, maxTokens: int)
    ensures start + EstimateTokensForArray(SpecFill(sections, start, maxTokens).kept)
              <= (if start <= maxTokens then maxTokens else start) + EstimateTokens(TruncationMarker)
  {
    var st := SpecFill(sections, start, maxTokens);
    SpecFillSpec(sections, start, maxTokens);
    if st.stopped {
      var whole := WholeSections(st);
      var last := st.kept[|st.kept| - 1];
      assert st.kept == whole + [last];
      EstimateArrayAppend(whole, [last]);
      assert EstimateTokensForArray([last]) == EstimateTokens(last);
      TruncatedLastBound(st, sections, maxTokens);
    }
  }

  /** A text cut to the tokens left and followed by the marker costs at most those tokens plus
      the marker's. */
  lemma TruncatedLastBound(st: SpecFillState, sections: seq<string>, maxTokens: int)
    requires EndsTruncated(st, sections, maxTokens)
    ensures EstimateTokens(st.kept[|st.kept| - 1]) <= maxTokens - st.used + EstimateTokens(TruncationMarker)
  {
    var j :| 0 <= j < |sections| &&
             st.kept[|st.kept| - 1] == TruncateToTokenBudget(sections[j], maxTokens - st.used) + TruncationMarker;
    EstimateConcat(TruncateToTokenBudget(sections[j], maxTokens - st.used), TruncationMarker);
  }

  /** The tokens of the whole bundle as it is written: at most the larger of the ceiling and what
      the first three buckets used, plus the marker's tokens. */
  lemma FitTotal(maxTokens: int, specSections: seq<string>, acceptanceCriteria: seq<string>,
                 recentProgress: seq<string>, filesToModify: seq<string>)
    ensures var r := Fit(maxTokens, specSections, acceptanceCriteria, recentProgress, filesToModify);
            var before := EstimateTokensForArray(r.acceptanceCriteria) + EstimateTokensForArray(r.filesToModify)
                          + EstimateTokensForArray(r.recentProgress);
            before + EstimateTokensForArray(r.specSections)
              <= (if before <= maxTokens then maxTokens else before) + EstimateTokens(TruncationMarker)
  {
    var ac := CapFill(acceptanceCriteria, 0, AcceptanceShare(maxTokens));
    var files := ShareFill(filesToModify, ac.used, FilesShare(maxTokens));
    var progress := ShareFill(recentProgress, files.used, ProgressShare(maxTokens));
    CapFillSpec(acceptanceCriteria, 0, AcceptanceShare(maxTokens));
    ShareFillSpec(filesToModify, ac.used, FilesShare(maxTokens));
    ShareFillSpec(recentProgress, files.used, ProgressShare(maxTokens));
    SpecFillTotal(specSections, progress.used, maxTokens);
  }

  /** What each bucket holds: the criteria within 15% of the ceiling; every file and every progress
      entry that fits its share (5%, 30%) on its own, however many there are; spec sections in order. */
  lemma FitBuckets(maxTokens: int, specSections: seq<string>, acceptanceCriteria: seq<string>,
                   recentProgress: seq<string>, filesToModify: seq<string>)
    ensures var r := Fit(maxTokens, specSections, acceptanceCriteria, recentProgress, filesToModify);
            && IsSubsequence(r.acceptanceCriteria, acceptanceCriteria)
            && (maxTokens >= 0 ==> EstimateTokensForArray(r.acceptanceCriteria) <= AcceptanceShare(maxTokens))
            && r.filesToModify == Filter(filesToModify, FitsShare(FilesShare(maxTokens)))
            && r.recentProgress == Filter(recentProgress, FitsShare(ProgressShare(maxTokens)))
  {
    var ac := CapFill(acceptanceCriteria, 0, AcceptanceShare(maxTokens));
    CapFillSpec(acceptanceCriteria, 0, AcceptanceShare(maxTokens));
    var files := ShareFill(filesToModify, ac.used, FilesShare(maxTokens));
    ShareFillSpec(filesToModify, ac.used, FilesShare(maxTokens));
    ShareFillSpec(recentProgress, files.used, ProgressShare(maxTokens));
  }

  /** `estimateTokensForArray` over the four buckets, as `generate` computes `totalTokens`. */
  function BundleTokens(r: Fitted): nat
  {
    EstimateTokensForArray(r.specSections + r.acceptanceCriteria + r.recentProgress + r.filesToModify)
  }

  /** The four buckets' estimates add up to the bundle's. */
  lemma BundleTokensSum(r: Fitted)
    ensures BundleTokens(r) == EstimateTokensForArray(r.specSections) + EstimateTokensForArray(r.acceptanceCriteria)
                               + EstimateTokensForArray(r.recentProgress) + EstimateTokensForArray(r.filesToModify)
  {
    EstimateArrayAppend(r.specSections, r.acceptanceCriteria);
    EstimateArrayAppend(r.specSections + r.acceptanceCriteria, r.recentProgress);
    EstimateArrayAppend(r.specSections + r.acceptanceCriteria + r.recentProgress, r.filesToModify);
  }

  /** The bundle as written stays within the ceiling plus the marker, unless the acceptance,
      files and progress buckets alone already went past it. */
  lemma BundleTokensBound(maxTokens: int, specSections: seq<string>, acceptanceCriteria: seq<string>,
                          recentProgress: seq<string>, filesToModify: seq<string>)
    ensures var r := Fit(maxTokens, specSections, acceptanceCriteria, recentProgress, filesToModify);
            var before := EstimateTokensForArray(r.acceptanceCriteria) + EstimateTokensForArray(r.filesToModify)
                          + EstimateTokensForArray(r.recentProgress);
            BundleTokens(r) <= (if before <= maxTokens then maxTokens else before) + EstimateTokens(TruncationMarker)
  {
    FitTotal(maxTokens, specSections, acceptanceCriteria, recentProgress, filesToModify);
    BundleTokensSum(Fit(maxTokens, specSections, acceptanceCriteria, recentProgress, filesToModify));
  }

  /** The files and progress buckets test each item against its share alone, so a ceiling of 100
      (30 for progress) keeps four progress entries of 120 characters, 30 tokens each: 120 tokens
      in all. */
  lemma FitCanExceedBudget(entry: string)
    requires |entry| == 120
    ensures var r := Fit(100, [], [], [entry, entry, entry, entry], []);
            r.recentProgress == [entry, entry, entry, entry] && BundleTokens(r) == 120
  {
    var progress := [entry, entry, entry, entry];
    var r := Fit(100, [], [], progress, []);
    FourEntriesKept(entry);
    assert r.specSections + r.acceptanceCriteria + r.recentProgress + r.filesToModify == progress;
    FourEntriesTokens(entry);
  }

  lemma FourEntriesKept(entry: string)
    requires |entry| == 120
    ensures var r := Fit(100, [], [], [entry, entry, entry, entry], []);
            r == Fitted([], [], [entry, entry, entry, entry], [])
  {
    var progress := [entry, entry, entry, entry];
    var ac := CapFill([], 0, AcceptanceShare(100));
    var files := ShareFill([], ac.used, FilesShare(100));
    assert ac == Fill([], 0) && files == Fill([], 0);
    assert ProgressShare(100) == 30;
    ProgressKept(entry);
    var pr := ShareFill(progress, 0, 30);
    assert SpecFill([], pr.used, 100).kept == [];
  }

  lemma ProgressKept(entry: string)
    requires |entry| == 120
    ensures ShareFill([entry, entry, entry, entry], 0, 30).kept == [entry, entry, entry, entry]
  {
    var progress := [entry, entry, entry, entry];
    assert EstimateTokens(entry) == 30;
    assert forall x :: x in progress ==> FitsShare(30)(x);
    FilterAll(progress, FitsShare(30));
    ShareFillSpec(progress, 0, 30);
  }

  lemma FourEntriesTokens(entry: string)
    requires |entry| == 120
    ensures EstimateTokensForArray([entry, entry, entry, entry]) == 120
  {
    var two := [entry, entry];
    assert two + two == [entry, entry, entry, entry] && [entry] + [entry] == two;
    EstimateArrayAppend([entry], [entry]);
    EstimateArrayAppend(two, two);
    assert EstimateTokensForArray([entry]) == 30;
  }

  /** A 1000-character section with no space or newline: 250 tokens. */
  function LongSection(): string { seq(1000, _ => 'x') }

  /** The marker is appended after the section is cut to the tokens left: with a ceiling of 200 the
      cut keeps 800 characters, and with the 38-character marker the bundle holds 210 tokens. */
  lemma TruncationCanExceedBudget()
    ensures var r := Fit(200, [LongSection()], [], [], []);
            |r.specSections| == 1 && BundleTokens(r) == 210
  {
    var section := LongSection();
    TruncateCutPoint(section, 200);
    var cut := TruncateToTokenBudget(section, 200);
    assert forall j :: 5 * j > 4 * 800 && j < 800 ==> section[j] != '\n' && section[j] != ' ';
    assert |cut| == 800;
    assert |TruncationMarker| == 38;
    var one: seq<string> := [section];
    assert one[..0] == [];
    assert CapFill([], 0, AcceptanceShare(200)) == Fill([], 0);
    assert ShareFill([], 0, FilesShare(200)) == Fill([], 0);
    assert ShareFill([], 0, ProgressShare(200)) == Fill([], 0);
    assert SpecFill(one[..0], 0, 200) == SpecFillState([], 0, false);
    assert EstimateTokens(section) == 250;
    assert SpecFill(one, 0, 200) == SpecFillState([cut + TruncationMarker], 0, true);
    var r := Fit(200, [section], [], [], []);
    assert r.specSections == [cut + TruncationMarker];
    assert r.specSections + r.acceptanceCriteria + r.recentProgress + r.filesToModify == r.specSections;
  }

  // =======================================================================================
  // The generator

  /** The bundle `generate` returns, with `None` for a document that is missing. */
  function BundleOf(maxTokens: int, progressHistory: nat, taskId: string, tasksDoc: Option<string>,
                    specDoc: Option<string>, acceptanceDoc: Option<string>, progressDoc: Option<string>,
                    timeOf: string -> int): ContextBundle
  {
    var e := ExtractionOf(tasksDoc, specDoc, acceptanceDoc, taskId);
    var filesToModify := if e.taskInfo.Some? then e.taskInfo.value.files else [];
    var recentProgress :=
      if progressDoc.Some?
      then GetRecentProgress(ProgressEntriesOf(Split(progressDoc.value, '\n')), taskId, progressHistory, timeOf)
      else [];
    var fitted := Fit(maxTokens, e.specSections, e.acceptanceCriteria, recentProgress, filesToModify);
    ContextBundle(taskId, fitted.specSections, fitted.acceptanceCriteria, fitted.filesToModify,
                  fitted.recentProgress, BundleTokens(fitted))
  }

  class Generator {
    const maxTokens: int
    const progressHistory: nat

    constructor (maxTokens: int := 8000, progressHistory: nat := 10)
      ensures this.maxTokens == maxTokens && this.progressHistory == progressHistory
    {
      this.maxTokens := maxTokens;
      this.progressHistory := progressHistory;
    }

    /** `fitWithinBudget`: the four loops over one running token count. */
    method FitWithinBudget(specSections: seq<string>, acceptanceCriteria: seq<string>,
                           recentProgress: seq<string>, filesToModify: seq<string>)
      returns (r: Fitted)
      ensures r == Fit(maxTokens, specSections, acceptanceCriteria, recentProgress, filesToModify)
    {
      var currentTokens := 0;
      var acceptance: seq<string> := [];
      var files: seq<string> := [];
      var progress: seq<string> := [];
      var spec: seq<string> := [];
      var acceptanceShare := AcceptanceShare(maxTokens);
      var filesShare := FilesShare(maxTokens);
      var progressShare := ProgressShare(maxTokens);

      for i := 0 to |acceptanceCriteria|
        invariant CapFill(acceptanceCriteria[..i], 0, acceptanceShare) == Fill(acceptance, currentTokens)
      {
        var criterion := acceptanceCriteria[i];
        CapFillSnoc(acceptanceCriteria[..i], criterion, 0, acceptanceShare);
        assert acceptanceCriteria[..i + 1] == acceptanceCriteria[..i] + [criterion];
        if !WouldExceedBudget(currentTokens, criterion, acceptanceShare) {
          acceptance := acceptance + [criterion];
          currentTokens := currentTokens + EstimateTokens(criterion);
        }
      }
      assert acceptanceCriteria[..|acceptanceCriteria|] == acceptanceCriteria;
      ghost var afterAcceptance := currentTokens;

      for i := 0 to |filesToModify|
        invariant ShareFill(filesToModify[..i], afterAcceptance, filesShare) == Fill(files, currentTokens)
      {
        var file := filesToModify[i];
        ShareFillSnoc(filesToModify[..i], file, afterAcceptance, filesShare);
        assert filesToModify[..i + 1] == filesToModify[..i] + [file];
        if !WouldExceedBudget(currentTokens, file, currentTokens + filesShare) {
          files := files + [file];
          currentTokens := currentTokens + EstimateTokens(file);
        }
      }
      assert filesToModify[..|filesToModify|] == filesToModify;
      ghost var afterFiles := currentTokens;

      for i := 0 to |recentProgress|
        invariant ShareFill(recentProgress[..i], afterFiles, progressShare) == Fill(progress, currentTokens)
      {
        var entry := recentProgress[i];
        ShareFillSnoc(recentProgress[..i], entry, afterFiles, progressShare);
        assert recentProgress[..i + 1] == recentProgress[..i] + [entry];
        if !WouldExceedBudget(currentTokens, entry, currentTokens + progressShare) {
          progress := progress + [entry];
          currentTokens := currentTokens + EstimateTokens(entry);
        }
      }
      assert recentProgress[..|recentProgress|] == recentProgress;

      spec := FillSpec(specSections, currentTokens);
      r := Fitted(spec, acceptance, progress, files);
    }

    /** The spec loop of `fitWithinBudget`, from the running count the other buckets left. */
    method FillSpec(specSections: seq<string>, start: int) returns (spec: seq<string>)
      ensures spec == SpecFill(specSections, start, maxTokens).kept
    {
      spec := [];
      var currentTokens := start;
      var i := 0;
      while i < |specSections|
        invariant 0 <= i <= |specSections|
        invariant SpecFill(specSections[..i], start, maxTokens) == SpecFillState(spec, currentTokens, false)
      {
        var section := specSections[i];
        ghost var next := SpecStep(SpecFillState(spec, currentTokens, false), section, maxTokens);
        SpecFillAt(specSections, i, start, maxTokens);
        if !WouldExceedBudget(currentTokens, section, maxTokens) {
          spec := spec + [section];
          currentTokens := currentTokens + EstimateTokens(section);
        } else {
          var availableTokens := maxTokens - currentTokens;
          if availableTokens > 100 {
            var truncated := TruncateToTokenBudget(section, availableTokens);
            spec := spec + [truncated + TruncationMarker];
            assert next.stopped && next.kept == spec;
            SpecFillStopped(specSections, i + 1, start, maxTokens);
            return;
          }
        }
        assert next == SpecFillState(spec, currentTokens, false);
        i := i + 1;
      }
      assert specSections[..i] == specSections;
    }

    /** `generate`, with the task, spec, acceptance and progress documents given as their text
        (`None` when the file does not exist) and `timeOf` standing for `new Date(t).getTime()`. */
    method Generate(taskId: string, tasksDoc: Option<string>, specDoc: Option<string>,
                    acceptanceDoc: Option<string>, progressDoc: Option<string>, timeOf: string -> int)
      returns (bundle: ContextBundle)
      ensures bundle == BundleOf(maxTokens, progressHistory, taskId, tasksDoc, specDoc, acceptanceDoc,
                                 progressDoc, timeOf)
    {
      var extracted := ExtractForTask(tasksDoc, specDoc, acceptanceDoc, taskId);
      var filesToModify := if extracted.taskInfo.Some? then extracted.taskInfo.value.files else [];
      var recentProgress: seq<string> := [];
      if progressDoc.Some? {
        var progressEntries := ParseProgressEntries(progressDoc.value);
        recentProgress := GetRecentProgress(progressEntries, taskId, progressHistory, timeOf);
      }
      var fitted := FitWithinBudget(extracted.specSections, extracted.acceptanceCriteria, recentProgress, filesToModify);
      var totalTokens := EstimateTokensForArray(fitted.specSections + fitted.acceptanceCriteria
                                                + fitted.recentProgress + fitted.filesToModify);
      bundle := ContextBundle(taskId, fitted.specSections, fitted.acceptanceCriteria, fitted.filesToModify,
                              fitted.recentProgress, totalTokens);
    }
  }
}
