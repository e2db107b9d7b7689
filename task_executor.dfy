/** The task executor of the iteration loop: one task is retried with a freshly built prompt until
    the agent signals completion, a critical error stops it, or the iteration ceiling is reached.
    The agent, the documents read on each iteration and the CI gate are oracles. */
module TaskExecutor {
  import opened Common
  import opened Text
  import BundleGenerator

  datatype RalphConfig = RalphConfig(maxIterations: int, completeSignal: string, requireCIGreen: bool,
                                     progressHistory: int)

  datatype Status = Complete | MaxIterations | CiFailed | Error

  datatype TaskResult = TaskResult(status: Status, iterations: int, finalOutput: string,
                                   errorMessage: Option<string>)

  datatype TaskContext = TaskContext(taskId: string, iteration: int, specSections: seq<string>,
                                     acceptanceCriteria: seq<string>, filesToModify: seq<string>,
                                     recentProgress: seq<string>)

  /** The feature directory's documents as one iteration reads them (`None`: the file does not exist). */
  datatype Documents = Documents(spec: Option<string>, acceptance: Option<string>, tasks: Option<string>,
                                 progress: Option<string>)

  // =======================================================================================
  // Files to modify: a scan of tasks.md with `inTask` / `inFilesSection` flags

  /** `^###?\s+TASK-\d+`: the heading of another task. */
  predicate IsTaskHeading(line: string)
  {
    && StartsWith(line, "##")
    && var r := if |line| > 2 && line[2] == '#' then line[3..] else line[2..];
       var k := Span(r, IsJsSpace);
       k >= 1 && k + 5 < |r| && r[k..k + 5] == "TASK-" && IsDigit(r[k + 5])
  }

  predicate StartsWithChangeVerb(r: string)
  {
    StartsWith(r, "modify") || StartsWith(r, "change") || StartsWith(r, "touch")
  }

  /** `files?\s*(to\s*)?(modify|change|touch)` at the start of a lower-cased `r`. When `to` is
      not followed by a verb the group is dropped, so `touch` is still tried at the `t`. */
  predicate FilesHeaderAt(r: string)
  {
    && StartsWith(r, "file")
    && var b := TrimLeft(if |r| > 4 && r[4] == 's' then r[5..] else r[4..], IsJsSpace);
       StartsWithChangeVerb(b) || (StartsWith(b, "to") && StartsWithChangeVerb(TrimLeft(b[2..], IsJsSpace)))
  }

  /** The unanchored search for the files header. */
  predicate MentionsFilesHeader(s: string)
    decreases |s|
  {
    FilesHeaderAt(s) || (|s| > 0 && MentionsFilesHeader(s[1..]))
  }

  /** The `i` flag only folds ASCII letters, which is what `Lower` does. */
  predicate IsFilesHeader(line: string)
  {
    MentionsFilesHeader(Lower(line))
  }

  /** `^\s*-\s*`: what follows the list dash. */
  function AfterDash(line: string): (r: Option<string>)
    ensures r.Some? ==> EndsWith(line, r.value)
  {
    var t := TrimLeft(line, IsJsSpace);
    if |t| >= 1 && t[0] == '-' then
      var rest := TrimLeft(t[1..], IsJsSpace);
      SuffixOfSuffix(line, t, t[1..]);
      SuffixOfSuffix(line, t[1..], rest);
      Some(rest)
    else None
  }

  lemma SuffixOfSuffix(a: string, b: string, c: string)
    requires EndsWith(a, b) && EndsWith(b, c)
    ensures EndsWith(a, c)
  {
    assert a[|a| - |c|..] == b[|b| - |c|..];
  }

  /** What a suffix of a text starts with, the text contains. */
  lemma ContainsInSuffix(line: string, r: string, sub: string)
    requires EndsWith(line, r) && StartsWith(r, sub)
    ensures Contains(line, sub)
  {
    var i := |line| - |r|;
    assert line[i..i + |sub|] == r[..|sub|];
    ContainsAt(line, i, sub);
  }

  predicate IsNotBacktick(c: char) { c != '`' }

  predicate IsPlainPathChar(c: char) { !IsJsSpace(c) && c != '(' }

  /** `` `([^`]+)` ``: the text between the first pair of backticks. */
  function BacktickItem(r: string): (f: Option<string>)
    ensures f.Some? ==> |f.value| >= 1 && StartsWith(r, "`" + f.value + "`")
  {
    if |r| >= 1 && r[0] == '`' then
      var n := Span(r[1..], IsNotBacktick);
      if n >= 1 && 1 + n < |r| then
        assert r[1..][n] == r[1 + n];
        assert r[..n + 2] == "`" + r[1..1 + n] + "`";
        Some(r[1..1 + n])
      else None
    else None
  }

  /** `([^\s(]+)`: the longest run without a space or an opening parenthesis. */
  function PlainItem(r: string): (f: Option<string>)
    ensures f.Some? ==> |f.value| >= 1 && StartsWith(r, f.value)
  {
    var n := Span(r, IsPlainPathChar);
    if n >= 1 then Some(r[..n]) else None
  }

  /** The file a list item names: a backquoted item always, a plain one only with a `/` in it. */
  function ListedFile(line: string): (f: Option<string>)
    ensures f.Some? ==> |f.value| >= 1
    ensures f.Some? ==> Contains(line, "`" + f.value + "`") || '/' in f.value
  {
    match AfterDash(line)
    case None => None
    case Some(r) =>
      match BacktickItem(r)
      case Some(f) =>
        ContainsInSuffix(line, r, "`" + f + "`");
        Some(f)
      case None =>
        match PlainItem(r)
        case Some(f) => if '/' in f then Some(f) else None
        case None => None
  }

  predicate AllSpace(s: string)
  {
    forall i :: 0 <= i < |s| ==> IsJsSpace(s[i])
  }

  /** `^\s*-\s*` consumes the indentation, the dash and the gap after it. */
  lemma AfterDashOf(indent: string, gap: string, r: string)
    requires AllSpace(indent) && AllSpace(gap) && (r == [] || !IsJsSpace(r[0]))
    ensures AfterDash(indent + "-" + gap + r) == Some(r)
  {
    var tail := "-" + (gap + r);
    assert indent + "-" + gap + r == indent + tail;
    assert tail[0] == '-' && !IsJsSpace('-');
    TrimLeftPad(indent, tail, IsJsSpace);
    assert tail[1..] == gap + r;
    TrimLeftPad(gap, r, IsJsSpace);
  }

  /** A list item in backticks is always taken, whatever follows it. */
  lemma BacktickListed(indent: string, gap: string, f: string, rest: string)
    requires AllSpace(indent) && AllSpace(gap)
    requires |f| >= 1 && forall i :: 0 <= i < |f| ==> f[i] != '`'
    ensures ListedFile(indent + "-" + gap + "`" + f + "`" + rest) == Some(f)
  {
    var t := f + ("`" + rest);
    var r := "`" + t;
    assert indent + "-" + gap + "`" + f + "`" + rest == indent + "-" + gap + r;
    AfterDashOf(indent, gap, r);
    BacktickItemOf(f, rest);
  }

  lemma BacktickItemOf(f: string, rest: string)
    requires |f| >= 1 && forall i :: 0 <= i < |f| ==> f[i] != '`'
    ensures BacktickItem("`" + (f + ("`" + rest))) == Some(f)
  {
    var t := f + ("`" + rest);
    var r := "`" + t;
    assert r[1..] == t;
    assert t[|f|] == '`';
    assert forall i :: 0 <= i < |f| ==> t[i] == f[i];
    assert Span(t, IsNotBacktick) == |f|;
    assert r[1..1 + |f|] == f;
  }

  /** A plain list item is taken exactly when it holds a `/`: the run up to the first space or
      opening parenthesis. */
  lemma PlainListed(indent: string, gap: string, p: string, rest: string)
    requires AllSpace(indent) && AllSpace(gap)
    requires |p| >= 1 && p[0] != '`' && forall i :: 0 <= i < |p| ==> IsPlainPathChar(p[i])
    requires rest == [] || !IsPlainPathChar(rest[0])
    ensures ListedFile(indent + "-" + gap + p + rest) == if '/' in p then Some(p) else None
  {
    var r := p + rest;
    assert indent + "-" + gap + p + rest == indent + "-" + gap + r;
    assert r[0] == p[0] && !IsJsSpace(r[0]);
    AfterDashOf(indent, gap, r);
    PlainItemOf(p, rest);
  }

  lemma PlainItemOf(p: string, rest: string)
    requires |p| >= 1 && p[0] != '`' && forall i :: 0 <= i < |p| ==> IsPlainPathChar(p[i])
    requires rest == [] || !IsPlainPathChar(rest[0])
    ensures BacktickItem(p + rest).None? && PlainItem(p + rest) == Some(p)
  {
    var r := p + rest;
    assert r[0] == p[0];
    assert forall i :: 0 <= i < |p| ==> r[i] == p[i];
    assert |p| < |r| ==> r[|p|] == rest[0];
    assert Span(r, IsPlainPathChar) == |p|;
    assert r[..|p|] == p;
  }

  predicate IsHash(c: char) { c == '#' }

  /** `^#+\s` or `^\*\*`: a heading or a bold label, which ends a files section. */
  predicate IsSectionBreak(line: string)
  {
    var n := Span(line, IsHash);
    (n >= 1 && n < |line| && IsJsSpace(line[n])) || StartsWith(line, "**")
  }

  datatype FileScan = FileScan(files: seq<string>, inTask: bool, inFilesSection: bool, stopped: bool)

  /** One line of the scan; `stopped` is the `break` at the next task's heading. */
  function FileStep(st: FileScan, line: string, taskId: string): FileScan
  {
    if st.stopped then st
    else if Contains(line, taskId) then st.(inTask := true)
    else if st.inTask && IsTaskHeading(line) then st.(stopped := true)
    else if st.inTask && IsFilesHeader(line) then st.(inFilesSection := true)
    else if st.inTask && st.inFilesSection then
      var found := ListedFile(line);
      FileScan(st.files + (if found.Some? then [found.value] else []), true, !IsSectionBreak(line), false)
    else st
  }

  function ScanFiles(lines: seq<string>, taskId: string): FileScan
    decreases |lines|
  {
    if lines == [] then FileScan([], false, false, false)
    else FileStep(ScanFiles(lines[..|lines| - 1], taskId), lines[|lines| - 1], taskId)
  }

  function FilesToModify(lines: seq<string>, taskId: string): seq<string>
  {
    ScanFiles(lines, taskId).files
  }

  lemma ScanFilesAt(lines: seq<string>, i: nat, taskId: string)
    requires i < |lines|
    ensures ScanFiles(lines[..i + 1], taskId) == FileStep(ScanFiles(lines[..i], taskId), lines[i], taskId)
  {
    assert lines[..i + 1][..i] == lines[..i];
  }

  /** After the next task's heading, the remaining lines change nothing. */
  lemma {:induction false} ScanFilesStopped(lines: seq<string>, k: nat, taskId: string)
    requires k <= |lines| && ScanFiles(lines[..k], taskId).stopped
    ensures ScanFiles(lines, taskId) == ScanFiles(lines[..k], taskId)
    decreases |lines| - k
  {
    if k < |lines| {
      ScanFilesAt(lines, k, taskId);
      ScanFilesStopped(lines, k + 1, taskId);
    } else {
      assert lines[..k] == lines;
    }
  }

  /** `extractFilesToModify`. */
  method ExtractFilesToModify(tasksContent: string, taskId: string) returns (files: seq<string>)
    ensures files == FilesToModify(Split(tasksContent, '\n'), taskId)
  {
    var lines := Split(tasksContent, '\n');
    files := [];
    var inTask := false;
    var inFilesSection := false;
    var i := 0;
    while i < |lines|
      invariant 0 <= i <= |lines|
      invariant ScanFiles(lines[..i], taskId) == FileScan(files, inTask, inFilesSection, false)
    {
      var line := lines[i];
      ScanFilesAt(lines, i, taskId);
      ghost var next := FileStep(FileScan(files, inTask, inFilesSection, false), line, taskId);
      if Contains(line, taskId) {
        inTask := true;
        assert next == FileScan(files, inTask, inFilesSection, false);
        i := i + 1;
        continue;
      }
      if inTask && IsTaskHeading(line) {
        assert next.stopped && next.files == files;
        ScanFilesStopped(lines, i + 1, taskId);
        return;
      }
      if inTask && IsFilesHeader(line) {
        inFilesSection := true;
        assert next == FileScan(files, inTask, inFilesSection, false);
        i := i + 1;
        continue;
      }
      if inTask && inFilesSection {
        var found := ListedFile(line);
        if found.Some? {
          files := files + [found.value];
        }
        if IsSectionBreak(line) {
          inFilesSection := false;
        }
      }
      assert next == FileScan(files, inTask, inFilesSection, false);
      i := i + 1;
    }
    assert lines[..i] == lines;
  }

  /** Every collected path was listed on a line of the document: quoted in backticks there, or
      holding a `/`. */
  lemma {:induction false} FilesAreListed(lines: seq<string>, taskId: string)
    ensures forall f :: f in FilesToModify(lines, taskId) ==>
              exists line :: line in lines && ListedFile(line) == Some(f)
    decreases |lines|
  {
    if lines != [] {
      var prefix := lines[..|lines| - 1];
      var line := lines[|lines| - 1];
      FilesAreListed(prefix, taskId);
      FileStepFiles(ScanFiles(prefix, taskId), line, taskId);
      forall f | f in FilesToModify(lines, taskId)
        ensures exists l :: l in lines && ListedFile(l) == Some(f)
      {
        if f in FilesToModify(prefix, taskId) {
          var l :| l in prefix && ListedFile(l) == Some(f);
          assert l in lines;
        } else {
          assert line in lines && ListedFile(line) == Some(f);
        }
      }
    }
  }

  /** One line adds at most the path listed on it. */
  lemma FileStepFiles(st: FileScan, line: string, taskId: string)
    ensures var found := ListedFile(line);
            || FileStep(st, line, taskId).files == st.files
            || (found.Some? && FileStep(st, line, taskId).files == st.files + [found.value])
  {
  }

  /** Inside the task and an open files section, a line that names no task and is no files
      header adds the file its list item names, if any, and a heading or bold label closes the
      section. */
  lemma CollectsListedFile(before: seq<string>, line: string, taskId: string)
    requires ScanFiles(before, taskId).inTask && ScanFiles(before, taskId).inFilesSection
    requires !ScanFiles(before, taskId).stopped
    requires !Contains(line, taskId) && !IsTaskHeading(line) && !IsFilesHeader(line)
    ensures FilesToModify(before + [line], taskId) ==
              FilesToModify(before, taskId) + (match ListedFile(line) case Some(f) => [f] case None => [])
    ensures ScanFiles(before + [line], taskId).inFilesSection == !IsSectionBreak(line)
  {
    assert (before + [line])[..|before|] == before;
  }

  /** A line naming the task enters it, and inside the task a files header opens the files
      section; neither adds a file. */
  lemma EntersTaskAndSection(before: seq<string>, line: string, taskId: string)
    requires !ScanFiles(before, taskId).stopped
    ensures Contains(line, taskId) ==>
              ScanFiles(before + [line], taskId).inTask && FilesToModify(before + [line], taskId) == FilesToModify(before, taskId)
    ensures !Contains(line, taskId) && ScanFiles(before, taskId).inTask && !IsTaskHeading(line) && IsFilesHeader(line) ==>
              ScanFiles(before + [line], taskId).inFilesSection && FilesToModify(before + [line], taskId) == FilesToModify(before, taskId)
  {
    assert (before + [line])[..|before|] == before;
  }

  /** Some line before `n` names the task. */
  predicate TaskNamedBefore(lines: seq<string>, taskId: string, n: nat)
  {
    exists i :: 0 <= i < n && i < |lines| && Contains(lines[i], taskId)
  }

  /** Some files header before `n` follows a line naming the task. */
  predicate HeaderAfterTaskBefore(lines: seq<string>, taskId: string, n: nat)
  {
    exists i, j :: 0 <= i < j < n && j < |lines| && Contains(lines[i], taskId) && IsFilesHeader(lines[j])
  }

  /** A list line before `n` naming `f` follows a files header, which follows a line naming the
      task. */
  predicate ListedAfterHeader(lines: seq<string>, taskId: string, n: nat, f: string)
  {
    exists i, j, k :: 0 <= i < j < k < n && k < |lines| && Contains(lines[i], taskId) && IsFilesHeader(lines[j])
                     && ListedFile(lines[k]) == Some(f)
  }

  predicate Witnessed(lines: seq<string>, taskId: string, n: nat, st: FileScan)
  {
    && (st.inTask ==> TaskNamedBefore(lines, taskId, n))
    && (st.inFilesSection ==> st.inTask && HeaderAfterTaskBefore(lines, taskId, n))
    && (forall f :: f in st.files ==> ListedAfterHeader(lines, taskId, n, f))
  }

  /** What one step of the scan can change: it enters the task only at a line naming it, opens
      the files section only inside the task at a files header, and adds a file only inside an
      open files section of the task, the one its line lists. */
  lemma FileStepFacts(st: FileScan, line: string, taskId: string)
    ensures var st' := FileStep(st, line, taskId);
            && (st'.inTask ==> st.inTask || Contains(line, taskId))
            && (st'.inFilesSection && !st'.inTask ==> st.inFilesSection && !st.inTask)
            && (st'.inFilesSection && !st.inFilesSection ==> st.inTask && IsFilesHeader(line))
            && (st'.files == st.files ||
                  (st.inTask && st.inFilesSection && ListedFile(line).Some? && st'.files == st.files + [ListedFile(line).value]))
  {
  }

  lemma WitnessedStep(lines: seq<string>, taskId: string, n: nat, st: FileScan, st': FileScan)
    requires n < |lines| && Witnessed(lines, taskId, n, st)
    requires st'.inTask ==> st.inTask || Contains(lines[n], taskId)
    requires st'.inFilesSection && !st'.inTask ==> st.inFilesSection && !st.inTask
    requires st'.inFilesSection && !st.inFilesSection ==> st.inTask && IsFilesHeader(lines[n])
    requires st'.files == st.files ||
               (st.inTask && st.inFilesSection && ListedFile(lines[n]).Some? && st'.files == st.files + [ListedFile(lines[n]).value])
    ensures Witnessed(lines, taskId, n + 1, st')
  {
    if st'.inTask {
      TaskNamedStep(lines, taskId, n, st.inTask);
    }
    if st'.inFilesSection {
      HeaderStep(lines, taskId, n, st.inFilesSection);
    }
    forall f | f in st'.files
      ensures ListedAfterHeader(lines, taskId, n + 1, f)
    {
      if f in st.files {
        ListedStep(lines, taskId, n, f);
      } else {
        assert ListedFile(lines[n]) == Some(f);
        ListedHere(lines, taskId, n, f);
      }
    }
  }

  lemma TaskNamedStep(lines: seq<string>, taskId: string, n: nat, before: bool)
    requires n < |lines|
    requires before ==> TaskNamedBefore(lines, taskId, n)
    requires before || Contains(lines[n], taskId)
    ensures TaskNamedBefore(lines, taskId, n + 1)
  {
    if before {
      var i :| 0 <= i < n && i < |lines| && Contains(lines[i], taskId);
      assert 0 <= i < n + 1;
    } else {
      assert Contains(lines[n], taskId);
    }
  }

  lemma HeaderStep(lines: seq<string>, taskId: string, n: nat, before: bool)
    requires n < |lines|
    requires before ==> HeaderAfterTaskBefore(lines, taskId, n)
    requires !before ==> TaskNamedBefore(lines, taskId, n) && IsFilesHeader(lines[n])
    ensures HeaderAfterTaskBefore(lines, taskId, n + 1)
  {
    if before {
      var i, j :| 0 <= i < j < n && j < |lines| && Contains(lines[i], taskId) && IsFilesHeader(lines[j]);
      assert 0 <= i < j < n + 1;
    } else {
      var i :| 0 <= i < n && i < |lines| && Contains(lines[i], taskId);
      assert 0 <= i < n < n + 1 && Contains(lines[i], taskId) && IsFilesHeader(lines[n]);
    }
  }

  lemma ListedStep(lines: seq<string>, taskId: string, n: nat, f: string)
    requires ListedAfterHeader(lines, taskId, n, f)
    ensures ListedAfterHeader(lines, taskId, n + 1, f)
  {
    var i, j, k :| 0 <= i < j < k < n && k < |lines| && Contains(lines[i], taskId) && IsFilesHeader(lines[j])
                   && ListedFile(lines[k]) == Some(f);
    assert k < n + 1;
  }

  lemma ListedHere(lines: seq<string>, taskId: string, n: nat, f: string)
    requires n < |lines| && HeaderAfterTaskBefore(lines, taskId, n) && ListedFile(lines[n]) == Some(f)
    ensures ListedAfterHeader(lines, taskId, n + 1, f)
  {
    var i, j :| 0 <= i < j < n && j < |lines| && Contains(lines[i], taskId) && IsFilesHeader(lines[j]);
    assert 0 <= i < j < n < n + 1;
  }

  lemma {:induction false} ScanFilesWitnessed(lines: seq<string>, taskId: string, n: nat)
    requires n <= |lines|
    ensures Witnessed(lines, taskId, n, ScanFiles(lines[..n], taskId))
    decreases n
  {
    if n > 0 {
      ScanFilesWitnessed(lines, taskId, n - 1);
      ScanFilesAt(lines, n - 1, taskId);
      var st := ScanFiles(lines[..n - 1], taskId);
      FileStepFacts(st, lines[n - 1], taskId);
      WitnessedStep(lines, taskId, n - 1, st, FileStep(st, lines[n - 1], taskId));
    }
  }

  /** Every collected file was listed after a files header, which itself came after a line
      naming the task. */
  lemma FilesAfterHeader(lines: seq<string>, taskId: string)
    ensures forall f :: f in FilesToModify(lines, taskId) ==>
              exists i, j, k :: 0 <= i < j < k < |lines| && Contains(lines[i], taskId) && IsFilesHeader(lines[j])
                               && ListedFile(lines[k]) == Some(f)
  {
    ScanFilesWitnessed(lines, taskId, |lines|);
    assert lines[..|lines|] == lines;
  }

  /** Nothing is collected before a line that mentions the task: a document that never mentions
      it yields no files. */
  lemma {:induction false} NoMentionNoFiles(lines: seq<string>, taskId: string)
    requires forall line :: line in lines ==> !Contains(line, taskId)
    ensures ScanFiles(lines, taskId) == FileScan([], false, false, false)
    decreases |lines|
  {
    if lines != [] {
      NoMentionNoFiles(lines[..|lines| - 1], taskId);
    }
  }

  /** Once inside the task, the next `## TASK-n` heading ends the scan: what comes after it is
      never collected. */
  lemma StopsAtNextTask(before: seq<string>, heading: string, after: seq<string>, taskId: string)
    requires ScanFiles(before, taskId).inTask && !ScanFiles(before, taskId).stopped
    requires IsTaskHeading(heading) && !Contains(heading, taskId)
    ensures FilesToModify(before + [heading] + after, taskId) == FilesToModify(before, taskId)
  {
    var lines := before + [heading] + after;
    assert lines[..|before|] == before;
    ScanFilesAt(lines, |before|, taskId);
    ScanFilesStopped(lines, |before| + 1, taskId);
  }

  // =======================================================================================
  // Recent progress: the log cut at every line that starts with `## [`

  /** `^## \[` with the `m` flag: at the start of the text or just after a line terminator. */
  predicate EntryStartAt(s: string, i: nat)
  {
    i + 4 <= |s| && s[i..i + 4] == "## [" && (i == 0 || IsLineTerminator(s[i - 1]))
  }

  /** `split(/^## \[/m)` from `from`, looking for the next match at `i`. */
  function ChunksFrom(s: string, from: nat, i: nat): (r: seq<string>)
    requires from <= i <= |s|
    ensures |r| >= 1
    decreases |s| - i
  {
    if i + 4 > |s| then [s[from..]]
    else if EntryStartAt(s, i) then [s[from..i]] + ChunksFrom(s, i + 4, i + 4)
    else ChunksFrom(s, from, i + 1)
  }

  function SplitEntries(s: string): seq<string>
  {
    ChunksFrom(s, 0, 0)
  }

  /** Joining the chunks with the marker gives back the log. */
  lemma {:induction false} ChunksJoin(s: string, from: nat, i: nat)
    requires from <= i <= |s|
    ensures Join(ChunksFrom(s, from, i), "## [") == s[from..]
    decreases |s| - i
  {
    if i + 4 > |s| {
    } else if EntryStartAt(s, i) {
      ChunksJoin(s, i + 4, i + 4);
      var rest := ChunksFrom(s, i + 4, i + 4);
      assert ([s[from..i]] + rest)[1..] == rest;
      assert s[from..] == s[from..i] + s[i..i + 4] + s[i + 4..];
    } else {
      ChunksJoin(s, from, i + 1);
    }
  }

  lemma SplitEntriesJoin(s: string)
    ensures Join(SplitEntries(s), "## [") == s
  {
    ChunksJoin(s, 0, 0);
  }

  /** Where piece `t` of a split starts, counted from where the split starts: the pieces before
      it and one marker after each. */
  function PieceStart(ps: seq<string>, t: nat): (r: nat)
    requires t <= |ps|
    ensures t > 0 ==> r >= 4
  {
    if t == 0 then 0 else |ps[0]| + 4 + PieceStart(ps[1..], t - 1)
  }

  /** Every marker between two pieces stands at a line-start `## [` of the log. */
  predicate CutAtEntries(s: string, from: nat, ps: seq<string>)
  {
    forall t :: 0 < t < |ps| ==> EntryStartAt(s, from + PieceStart(ps, t) - 4)
  }

  /** No position inside a piece is a line-start `## [`. */
  predicate NoEntryInside(s: string, from: nat, ps: seq<string>)
  {
    forall t, q: nat :: 0 <= t < |ps| && from + PieceStart(ps, t) <= q < from + PieceStart(ps, t) + |ps[t]| ==>
      !EntryStartAt(s, q)
  }

  lemma PieceStartCons(a: string, rest: seq<string>, t: nat)
    requires 0 < t <= |rest| + 1
    ensures PieceStart([a] + rest, t) == |a| + 4 + PieceStart(rest, t - 1)
  {
    assert ([a] + rest)[1..] == rest;
  }

  /** The split from `from` cuts at every line-start `## [` it meets and nowhere else, given that
      none lies between `from` and `i`. */
  lemma {:induction false} ChunksCut(s: string, from: nat, i: nat)
    requires from <= i <= |s|
    requires forall q: nat :: from <= q < i ==> !EntryStartAt(s, q)
    ensures CutAtEntries(s, from, ChunksFrom(s, from, i)) && NoEntryInside(s, from, ChunksFrom(s, from, i))
    decreases |s| - i
  {
    if i + 4 > |s| {
      LastChunkCut(s, from, i);
    } else if EntryStartAt(s, i) {
      ChunksCut(s, i + 4, i + 4);
      CutCons(s, from, i, ChunksFrom(s, i + 4, i + 4));
    } else {
      ChunksCut(s, from, i + 1);
    }
  }

  lemma LastChunkCut(s: string, from: nat, i: nat)
    requires from <= i <= |s| && i + 4 > |s|
    requires forall q: nat :: from <= q < i ==> !EntryStartAt(s, q)
    ensures CutAtEntries(s, from, [s[from..]]) && NoEntryInside(s, from, [s[from..]])
  {
    assert PieceStart([s[from..]], 0) == 0;
  }

  /** A piece ended by a line-start `## [` in front of the pieces after that marker. */
  lemma CutCons(s: string, from: nat, i: nat, rest: seq<string>)
    requires from <= i && i + 4 <= |s| && EntryStartAt(s, i)
    requires forall q: nat :: from <= q < i ==> !EntryStartAt(s, q)
    requires CutAtEntries(s, i + 4, rest) && NoEntryInside(s, i + 4, rest)
    ensures CutAtEntries(s, from, [s[from..i]] + rest) && NoEntryInside(s, from, [s[from..i]] + rest)
  {
    CutConsMarkers(s, from, s[from..i], rest);
    CutConsInside(s, from, s[from..i], rest);
  }

  lemma CutConsMarkers(s: string, from: nat, a: string, rest: seq<string>)
    requires from + |a| + 4 <= |s| && EntryStartAt(s, from + |a|)
    requires CutAtEntries(s, from + |a| + 4, rest)
    ensures CutAtEntries(s, from, [a] + rest)
  {
    forall t | 0 < t < |[a] + rest|
      ensures EntryStartAt(s, from + PieceStart([a] + rest, t) - 4)
    {
      PieceStartCons(a, rest, t);
      if t > 1 {
        assert 0 < t - 1 < |rest|;
      }
    }
  }

  lemma CutConsInside(s: string, from: nat, a: string, rest: seq<string>)
    requires forall q: nat :: from <= q < from + |a| ==> !EntryStartAt(s, q)
    requires NoEntryInside(s, from + |a| + 4, rest)
    ensures NoEntryInside(s, from, [a] + rest)
  {
    var ps := [a] + rest;
    forall t, q: nat | 0 <= t < |ps| && from + PieceStart(ps, t) <= q < from + PieceStart(ps, t) + |ps[t]|
      ensures !EntryStartAt(s, q)
    {
      if t == 0 {
        assert PieceStart(ps, 0) == 0 && ps[0] == a;
      } else {
        InsideConsAt(s, from, a, rest, t, q);
      }
    }
  }

  lemma InsideConsAt(s: string, from: nat, a: string, rest: seq<string>, t: nat, q: nat)
    requires NoEntryInside(s, from + |a| + 4, rest)
    requires 0 < t <= |rest|
    requires from + PieceStart([a] + rest, t) <= q < from + PieceStart([a] + rest, t) + |([a] + rest)[t]|
    ensures !EntryStartAt(s, q)
  {
    PieceStartCons(a, rest, t);
    assert ([a] + rest)[t] == rest[t - 1];
    assert from + |a| + 4 + PieceStart(rest, t - 1) <= q < from + |a| + 4 + PieceStart(rest, t - 1) + |rest[t - 1]|;
  }

  /** `split(/^## \[/m)` cuts the log at every line-start `## [` and nowhere else: each marker
      between two pieces stands at one, and none lies inside a piece. */
  lemma SplitEntriesCuts(s: string)
    ensures CutAtEntries(s, 0, SplitEntries(s)) && NoEntryInside(s, 0, SplitEntries(s))
  {
    ChunksCut(s, 0, 0);
  }

  /** `e.trim()` is not empty. */
  predicate IsNotBlank(e: string) { Trim(e) != "" }

  /** `slice(start)` with JavaScript's reading of a negative start. */
  function SliceFrom<T>(s: seq<T>, start: int): (r: seq<T>)
    ensures |r| <= |s| && r == s[|s| - |r|..]
    ensures start == 0 ==> r == s
    ensures start < 0 ==> |r| == if -start < |s| then -start else |s|
  {
    var k := if start < 0 then (if |s| + start < 0 then 0 else |s| + start)
             else if start > |s| then |s| else start;
    s[k..]
  }

  /** `extractRecentProgress`: the last `count` non-blank chunks (all of them for 0), each with its
      `## [` put back. */
  function ExtractRecentProgress(progressContent: string, count: int): (r: seq<string>)
    ensures var entries := Filter(SplitEntries(progressContent), IsNotBlank);
            && |r| <= |entries|
            && (count == 0 ==> |r| == |entries|)
            && (count > 0 ==> |r| == if count < |entries| then count else |entries|)
            && MarkedTail(r, entries)
  {
    LastEntries(Filter(SplitEntries(progressContent), IsNotBlank), count)
  }

  /** The last `count` entries (all of them for 0), each with `## [` put back. */
  function LastEntries(entries: seq<string>, count: int): (r: seq<string>)
    ensures |r| <= |entries|
    ensures count == 0 ==> |r| == |entries|
    ensures count > 0 ==> |r| == if count < |entries| then count else |entries|
    ensures MarkedTail(r, entries)
  {
    Rebracket(SliceFrom(entries, -count))
  }

  /** `r` is the last `|r|` entries, each with `## [` put back in front. */
  predicate MarkedTail(r: seq<string>, entries: seq<string>)
  {
    |r| <= |entries| && forall k :: 0 <= k < |r| ==> r[k] == "## [" + entries[|entries| - |r| + k]
  }

  /** Each chunk with the `## [` that splitting took off put back. */
  function Rebracket(chunks: seq<string>): (r: seq<string>)
    ensures |r| == |chunks| && forall k :: 0 <= k < |r| ==> r[k] == "## [" + chunks[k]
  {
    seq(|chunks|, k requires 0 <= k < |chunks| => "## [" + chunks[k])
  }

  /** Every returned entry starts with the marker and has text after it. */
  lemma RecentProgressEntries(progressContent: string, count: int)
    ensures var r := ExtractRecentProgress(progressContent, count);
            forall k :: 0 <= k < |r| ==> StartsWith(r[k], "## [") && IsNotBlank(r[k][4..])
  {
    var entries := Filter(SplitEntries(progressContent), IsNotBlank);
    var r := ExtractRecentProgress(progressContent, count);
    forall k | 0 <= k < |r|
      ensures StartsWith(r[k], "## [") && IsNotBlank(r[k][4..])
    {
      var chunk := entries[|entries| - |r| + k];
      assert IsNotBlank(chunk) by {
        assert chunk in entries;
      }
      Remarked(chunk);
    }
  }

  lemma Remarked(chunk: string)
    ensures StartsWith("## [" + chunk, "## [") && ("## [" + chunk)[4..] == chunk
  {
  }

  // =======================================================================================
  // Context, prompt, completion and the log entry

  /** `generateContext`: whole documents for the spec and criteria, the parsed files and the
      recent progress window. */
  method GenerateContext(docs: Documents, taskId: string, iteration: int, progressHistory: int)
    returns (context: TaskContext)
    ensures context == ContextOf(docs, taskId, iteration, progressHistory)
  {
    context := TaskContext(taskId, iteration, [], [], [], []);
    if docs.spec.Some? {
      context := context.(specSections := [docs.spec.value]);
    }
    if docs.acceptance.Some? {
      context := context.(acceptanceCriteria := [docs.acceptance.value]);
    }
    if docs.tasks.Some? {
      var files := ExtractFilesToModify(docs.tasks.value, taskId);
      context := context.(filesToModify := files);
    }
    if docs.progress.Some? {
      context := context.(recentProgress := ExtractRecentProgress(docs.progress.value, progressHistory));
    }
  }

  function ContextOf(docs: Documents, taskId: string, iteration: int, progressHistory: int): TaskContext
  {
    TaskContext(taskId, iteration,
                if docs.spec.Some? then [docs.spec.value] else [],
                if docs.acceptance.Some? then [docs.acceptance.value] else [],
                if docs.tasks.Some? then FilesToModify(Split(docs.tasks.value, '\n'), taskId) else [],
                if docs.progress.Some? then ExtractRecentProgress(docs.progress.value, progressHistory) else [])
  }

  /** The texts in order, with nothing between them. */
  function Concat(parts: seq<string>): string
    decreases |parts|
  {
    if parts == [] then "" else parts[0] + Concat(parts[1..])
  }

  /** Every part of a concatenation occurs in it. */
  lemma {:induction false} ConcatContains(parts: seq<string>, k: nat)
    requires k < |parts|
    ensures Contains(Concat(parts), parts[k])
    decreases k
  {
    if k == 0 {
      var whole := Concat(parts);
      assert whole == parts[0] + Concat(parts[1..]);
      assert whole[..|parts[0]|] == parts[0];
    } else {
      ConcatContains(parts[1..], k - 1);
      ContainsSuffix(parts[0], Concat(parts[1..]), parts[k]);
    }
  }

  /** The parts of the implementer prompt: the fixed text of the template with the context's
      fields in their places. */
  function PromptParts(c: TaskContext): seq<string>
  {
    // The fixed text is split into short literals on purpose: long string literals are costly
    // to the solver.
    [ "# Task Execution: ", c.taskId, " (Iteration ", IntToString(c.iteration),
      ")\n\n## Instructions\n\n"
      + "Execute the task " + "following these steps:\n"
      + "1. Micro-decompose " + "into atomic steps\n"
      + "2. Execute each step " + "with self-verification\n"
      + "3. Run tests after " + "implementation\n"
      + "4. Emit <complete/> " + "when ALL acceptance " + "criteria pass\n\n"
      + "## Specification\n\n",
      Join(c.specSections, "\n\n"),
      "\n\n## Acceptance " + "Criteria\n\n",
      Join(c.acceptanceCriteria, "\n\n"),
      "\n\n## Files to Modify\n\n",
      Join(c.filesToModify, "\n"),
      "\n\n## Recent Progress\n\n",
      Join(c.recentProgress, "\n\n"),
      "\n\n## Completion " + "Signal\n\n"
      + "When ALL acceptance " + "criteria pass and " + "tests are green, " + "emit:\n\n",
      CompleteTag,
      "\n\nThis signals that " + "the task is done and " + "no more iterations " + "are needed.\n\n---\n\n"
      + "Begin implementation " + "now." ]
  }

  const CompleteTag: string := "<complete/>"

  /** `buildImplementerPrompt`. */
  function BuildImplementerPrompt(c: TaskContext): string
  {
    Concat(PromptParts(c))
  }

  /** The prompt names the task and carries every part of the context, and asks for the
      `<complete/>` signal. */
  lemma PromptCarriesContext(c: TaskContext)
    ensures var p := BuildImplementerPrompt(c);
            && StartsWith(p, "# Task Execution: ")
            && Contains(p, c.taskId)
            && Contains(p, Join(c.specSections, "\n\n"))
            && Contains(p, Join(c.acceptanceCriteria, "\n\n"))
            && Contains(p, Join(c.filesToModify, "\n"))
            && Contains(p, Join(c.recentProgress, "\n\n"))
            && Contains(p, CompleteTag)
  {
    var parts := PromptParts(c);
    assert Concat(parts) == parts[0] + Concat(parts[1..]);
    assert Concat(parts)[..|parts[0]|] == parts[0];
    ConcatContains(parts, 1);
    ConcatContains(parts, 5);
    ConcatContains(parts, 7);
    ConcatContains(parts, 9);
    ConcatContains(parts, 11);
    ConcatContains(parts, 13);
  }

  /** A text that contains `sub` still does after something is put in front of it. */
  lemma {:induction false} ContainsSuffix(a: string, b: string, sub: string)
    requires Contains(b, sub)
    ensures Contains(a + b, sub)
    decreases |a|
  {
    if a == [] {
      assert a + b == b;
    } else {
      ContainsSuffix(a[1..], b, sub);
      assert (a + b)[1..] == a[1..] + b;
      assert Contains((a + b)[1..], sub);
    }
  }

  /** `detectComplete`. */
  predicate DetectComplete(config: RalphConfig, output: string)
  {
    Contains(output, config.completeSignal)
  }

  /** `output.slice(0, 500)`, with `...` when something was cut. */
  function OutputSummary(output: string): (r: string)
    ensures |output| <= 500 ==> r == output
    ensures |output| > 500 ==> |r| == 503 && EndsWith(r, "...")
    ensures StartsWith(r, if |output| <= 500 then output else output[..500])
  {
    if |output| > 500 then output[..500] + "..." else output
  }

  /** The header line of an appended log entry: `## [timestamp] - taskId - Iteration i`. */
  function LogHeaderLine(timestamp: string, taskId: string, iteration: int): string
  {
    "## " + ("[" + timestamp + "]") + (" - " + (taskId + " - Iteration " + IntToString(iteration)))
  }

  /** The text `logProgress` appends to progress.md; the timestamp is a parameter. */
  function LogEntry(timestamp: string, taskId: string, iteration: int, status: string, output: string): string
  {
    ("\n" + LogHeaderLine(timestamp, taskId, iteration) + "\n**Status**: " + status + "\n")
    + ("**Output Summary**: " + OutputSummary(output) + "\n\n---\n")
  }

  /** The entry opens with its header line and the status line, and closes with the summary and
      the rule. */
  lemma LogEntryLines(timestamp: string, taskId: string, iteration: int, status: string, output: string)
    ensures StartsWith(LogEntry(timestamp, taskId, iteration, status, output),
                       "\n" + LogHeaderLine(timestamp, taskId, iteration) + "\n**Status**: " + status + "\n")
    ensures EndsWith(LogEntry(timestamp, taskId, iteration, status, output),
                     "**Output Summary**: " + OutputSummary(output) + "\n\n---\n")
  {
    var head := "\n" + LogHeaderLine(timestamp, taskId, iteration) + "\n**Status**: " + status + "\n";
    var tail := "**Output Summary**: " + OutputSummary(output) + "\n\n---\n";
    assert (head + tail)[..|head|] == head;
    assert (head + tail)[|head + tail| - |tail|..] == tail;
  }

  /** The progress-log parser of the context bundle reads `## [ts] - [id] - Iteration [n]`; the
      header written here has no brackets around the task, so for a task identifier that does not
      start with one (or with a space) it is never read. */
  lemma LogHeaderNotParsed(timestamp: string, taskId: string, iteration: int)
    requires BundleGenerator.NoCloseBracket(timestamp)
    requires |taskId| >= 1 && taskId[0] != '[' && !IsJsSpace(taskId[0])
    ensures !BundleGenerator.IsProgressHeader(LogHeaderLine(timestamp, taskId, iteration))
  {
    var rest := taskId + " - Iteration " + IntToString(iteration);
    assert rest[0] == taskId[0];
    UnbracketedTaskNotParsed(timestamp, rest);
  }

  /** `## [ts] - ` followed by something other than `[` does not match the header pattern. */
  lemma UnbracketedTaskNotParsed(timestamp: string, rest: string)
    requires BundleGenerator.NoCloseBracket(timestamp)
    requires |rest| >= 1 && rest[0] != '[' && !IsJsSpace(rest[0])
    ensures !BundleGenerator.IsProgressHeader("## " + ("[" + timestamp + "]") + (" - " + rest))
  {
    var tail := " - " + rest;
    var r := "[" + timestamp + "]" + tail;
    var line := "## " + ("[" + timestamp + "]") + tail;
    MarkerThen(r, line);
    if timestamp == [] {
      EmptyTimestamp(tail);
    } else {
      DashAfterTimestamp(timestamp, rest);
    }
    NotHeaderWhen(line, r);
  }

  lemma MarkerThen(r: string, line: string)
    requires line == "## " + r && (r == [] || !IsJsSpace(r[0]))
    ensures StartsWith(line, "##") && TrimLeft(line[2..], IsJsSpace) == r
  {
    assert line[2..] == " " + r;
    BundleGenerator.TrimOneSpace(r);
  }

  lemma EmptyTimestamp(tail: string)
    ensures BundleGenerator.Bracketed("[" + "" + "]" + tail).None?
  {
    var r := "[" + "" + "]" + tail;
    assert r[1..][0] == ']';
  }

  lemma DashAfterTimestamp(timestamp: string, rest: string)
    requires |timestamp| >= 1 && BundleGenerator.NoCloseBracket(timestamp)
    requires |rest| >= 1 && rest[0] != '[' && !IsJsSpace(rest[0])
    ensures var r := "[" + timestamp + "]" + (" - " + rest);
            BundleGenerator.Bracketed(r) == Some((timestamp, " - " + rest))
            && BundleGenerator.AfterTimestamp(timestamp, " - " + rest).None?
  {
    BundleGenerator.BracketedOf(timestamp, " - " + rest);
    BundleGenerator.DashOf(rest);
    assert BundleGenerator.Bracketed(rest).None?;
  }

  lemma NotHeaderWhen(line: string, r: string)
    requires StartsWith(line, "##") && TrimLeft(line[2..], IsJsSpace) == r
    requires BundleGenerator.Bracketed(r).None? ||
             BundleGenerator.AfterTimestamp(BundleGenerator.Bracketed(r).value.0, BundleGenerator.Bracketed(r).value.1).None?
    ensures !BundleGenerator.IsProgressHeader(line)
  {
  }

  // =======================================================================================
  // The iteration loop

  /** What one iteration's context generation, child session and implementer run produce: the
      agent's text, or the message of the error thrown on the way. */
  datatype Attempt = Output(text: string) | Thrown(message: string)

  /** One `logProgress` call: the iteration, the status word and the text summarised. */
  datatype LogRecord = LogRecord(iteration: int, status: string, output: string)

  /** The oracles: the documents read on iteration `i`, the agent's answer to a prompt on
      iteration `i`, and whether the CI gate passes when consulted on iteration `i`. */
  datatype Environment = Environment(docs: int -> Documents, agent: (int, string) -> Attempt,
                                     ciPassed: int -> bool)

  /** How an iteration ends: the loop goes on, or the task returns. */
  datatype Outcome = Continue(records: seq<LogRecord>) | Return(records: seq<LogRecord>, result: TaskResult)

  /** `maxIterations || this.config.maxIterations`. */
  function Ceiling(config: RalphConfig, maxIterations: int): int
  {
    if maxIterations != 0 then maxIterations else config.maxIterations
  }

  // The literal is split into short pieces on purpose: long string literals are costly to the solver.
  const HumanIntervention: string :=
    "Maximum iterations " + "reached. Task " + "requires human " + "intervention."

  // The literal is split into short pieces on purpose: long string literals are costly to the solver.
  const CiFailedMessage: string := "CI checks failed " + "after completion"

  function MaxIterationsResult(taskId: string, iterations: int): TaskResult
  {
    TaskResult(MaxIterations, iterations, HumanIntervention,
               Some("Task " + taskId + " did not complete " + "after " + IntToString(iterations) + " iterations"))
  }

  /** The prompt of iteration `i`, built from the documents read on it. */
  function PromptAt(config: RalphConfig, taskId: string, env: Environment, i: int): string
  {
    BuildImplementerPrompt(ContextOf(env.docs(i), taskId, i, config.progressHistory))
  }

  /** The agent's answer on each iteration. */
  function Attempts(config: RalphConfig, taskId: string, env: Environment): int -> Attempt
  {
    i => env.agent(i, PromptAt(config, taskId, env, i))
  }

  /** The body of the loop for iteration `i`. */
  function IterationOutcome(config: RalphConfig, i: int, attempt: Attempt, ciPassed: bool): Outcome
  {
    match attempt
    case Thrown(message) =>
      if Contains(message, "CRITICAL") then
        Return([LogRecord(i, "error", message)], TaskResult(Error, i, "", Some(message)))
      else Continue([LogRecord(i, "error", message)])
    case Output(output) =>
      if DetectComplete(config, output) then
        if config.requireCIGreen && !ciPassed then
          Return([LogRecord(i, "completed", output), LogRecord(i, "ci_failed_final", output)],
                 TaskResult(CiFailed, i, output, Some(CiFailedMessage)))
        else Return([LogRecord(i, "completed", output)], TaskResult(Complete, i, output, None))
      else if config.requireCIGreen && !ciPassed then Continue([LogRecord(i, "ci_failed", output)])
      else Continue([LogRecord(i, "in_progress", output)])
  }

  /** Iterations `i..n`, given each iteration's answer and gate: the result and the log records
      they append. */
  function ExecuteFrom(config: RalphConfig, taskId: string, attempts: int -> Attempt, ciPassed: int -> bool,
                       n: int, i: int): (TaskResult, seq<LogRecord>)
    decreases n - i + 1
  {
    if i > n then (MaxIterationsResult(taskId, n), [])
    else match IterationOutcome(config, i, attempts(i), ciPassed(i))
      case Return(records, result) => (result, records)
      case Continue(records) =>
        var rest := ExecuteFrom(config, taskId, attempts, ciPassed, n, i + 1);
        (rest.0, records + rest.1)
  }

  /** One iteration of the loop, seen from the log written so far. */
  lemma ExecuteFromStep(config: RalphConfig, taskId: string, attempts: int -> Attempt, ciPassed: int -> bool,
                        n: int, i: int, log: seq<LogRecord>)
    requires i <= n
    ensures var e := ExecuteFrom(config, taskId, attempts, ciPassed, n, i);
            match IterationOutcome(config, i, attempts(i), ciPassed(i))
            case Return(records, result) => e == (result, records)
            case Continue(records) =>
              var rest := ExecuteFrom(config, taskId, attempts, ciPassed, n, i + 1);
              e.0 == rest.0 && log + e.1 == (log + records) + rest.1
  {
  }

  function Execute(config: RalphConfig, taskId: string, env: Environment, maxIterations: int)
    : (TaskResult, seq<LogRecord>)
  {
    ExecuteFrom(config, taskId, Attempts(config, taskId, env), env.ciPassed, Ceiling(config, maxIterations), 1)
  }

  /** An iteration returns exactly in three cases, each with its own status: completion with a
      green (or unrequired) gate, completion with a red gate, or an error whose message says
      `CRITICAL`. Everything else goes on to the next iteration. */
  lemma OutcomeCases(config: RalphConfig, i: int, attempt: Attempt, ciPassed: bool)
    ensures var o := IterationOutcome(config, i, attempt, ciPassed);
            && (o.Return? && o.result.status == Complete <==>
                  attempt.Output? && DetectComplete(config, attempt.text) && (config.requireCIGreen ==> ciPassed))
            && (o.Return? && o.result.status == CiFailed <==>
                  attempt.Output? && DetectComplete(config, attempt.text) && config.requireCIGreen && !ciPassed)
            && (o.Return? && o.result.status == Error <==>
                  attempt.Thrown? && Contains(attempt.message, "CRITICAL"))
            && (o.Return? ==> o.result.status != MaxIterations && o.result.iterations == i)
            && (o.Return? && o.result.status != Error ==> o.result.finalOutput == attempt.text)
            && (o.Return? && o.result.status == Error ==>
                  o.result.finalOutput == "" && o.result.errorMessage == Some(attempt.message))
  {
  }

  predicate Continues(config: RalphConfig, attempts: int -> Attempt, ciPassed: int -> bool, j: int)
  {
    IterationOutcome(config, j, attempts(j), ciPassed(j)).Continue?
  }

  /** The loop returns what the first returning iteration returns; if none returns, it ends with
      `max_iterations` after the whole ceiling. */
  lemma {:induction false} ExecuteFirstReturn(config: RalphConfig, taskId: string, attempts: int -> Attempt,
                                              ciPassed: int -> bool, n: int, i: int)
    ensures var r := ExecuteFrom(config, taskId, attempts, ciPassed, n, i).0;
            && (r.status == MaxIterations ==>
                  r == MaxIterationsResult(taskId, n)
                  && forall j :: i <= j <= n ==> Continues(config, attempts, ciPassed, j))
            && (r.status != MaxIterations ==>
                  && i <= r.iterations <= n
                  && (forall j :: i <= j < r.iterations ==> Continues(config, attempts, ciPassed, j))
                  && IterationOutcome(config, r.iterations, attempts(r.iterations), ciPassed(r.iterations))
                     == Return(IterationOutcome(config, r.iterations, attempts(r.iterations), ciPassed(r.iterations)).records, r))
    decreases n - i + 1
  {
    if i <= n {
      OutcomeCases(config, i, attempts(i), ciPassed(i));
      if Continues(config, attempts, ciPassed, i) {
        ExecuteFirstReturn(config, taskId, attempts, ciPassed, n, i + 1);
      }
    }
  }

  /** What the task's final status tells about the iterations, as `executeTask` promises. */
  lemma ExecuteStatus(config: RalphConfig, taskId: string, env: Environment, maxIterations: int)
    ensures var r := Execute(config, taskId, env, maxIterations).0;
            var n := Ceiling(config, maxIterations);
            var answer := Attempts(config, taskId, env);
            && (r.status == Complete ==>
                  && 1 <= r.iterations <= n
                  && answer(r.iterations) == Output(r.finalOutput)
                  && DetectComplete(config, r.finalOutput)
                  && (config.requireCIGreen ==> env.ciPassed(r.iterations)))
            && (r.status == CiFailed ==>
                  && 1 <= r.iterations <= n
                  && answer(r.iterations) == Output(r.finalOutput)
                  && DetectComplete(config, r.finalOutput)
                  && config.requireCIGreen && !env.ciPassed(r.iterations))
            && (r.status == Error ==>
                  && 1 <= r.iterations <= n
                  && r.errorMessage.Some?
                  && answer(r.iterations) == Thrown(r.errorMessage.value)
                  && Contains(r.errorMessage.value, "CRITICAL") && r.finalOutput == "")
            && (r.status == MaxIterations ==>
                  r.iterations == n && r.finalOutput == HumanIntervention)
  {
    var n := Ceiling(config, maxIterations);
    var answer := Attempts(config, taskId, env);
    ExecuteFirstReturn(config, taskId, answer, env.ciPassed, n, 1);
    var r := Execute(config, taskId, env, maxIterations).0;
    if r.status != MaxIterations {
      OutcomeCases(config, r.iterations, answer(r.iterations), env.ciPassed(r.iterations));
    }
  }

  /** The iteration the loop ends on: the one that returned, or the ceiling. */
  function LastIteration(r: TaskResult, n: int, i: int): int
  {
    if r.status == MaxIterations then (if n < i then i - 1 else n) else r.iterations
  }

  /** The log holds one record per iteration run, in order, plus the `ci_failed_final` record of a
      completion the gate rejected. Each iteration's first record carries the status word and the
      text that iteration's outcome gives it. */
  lemma {:induction false} ExecuteLog(config: RalphConfig, taskId: string, attempts: int -> Attempt,
                                      ciPassed: int -> bool, n: int, i: int)
    ensures var e := ExecuteFrom(config, taskId, attempts, ciPassed, n, i);
            var last := LastIteration(e.0, n, i);
            && |e.1| == last - i + 1 + (if e.0.status == CiFailed then 1 else 0)
            && (forall k :: 0 <= k < |e.1| ==> e.1[k].iteration == if k <= last - i then i + k else last)
            && FirstRecordsFrom(e.1, config, attempts, ciPassed, i, last)
    decreases n - i + 1
  {
    if i <= n {
      var o := IterationOutcome(config, i, attempts(i), ciPassed(i));
      OutcomeRecords(config, i, attempts(i), ciPassed(i));
      if o.Continue? {
        ExecuteLog(config, taskId, attempts, ciPassed, n, i + 1);
        ExecuteFirstReturn(config, taskId, attempts, ciPassed, n, i + 1);
        var rest := ExecuteFrom(config, taskId, attempts, ciPassed, n, i + 1);
        var last := LastIteration(rest.0, n, i);
        assert LastIteration(rest.0, n, i + 1) == last >= i;
        LogCons(o.records, rest.1, i, last, if rest.0.status == CiFailed then 1 else 0);
        FirstRecordsCons(o.records, rest.1, config, attempts, ciPassed, i, last);
      } else {
        assert FirstRecordsFrom(o.records, config, attempts, ciPassed, i, i);
      }
    }
  }

  /** The status word of the first record an iteration logs: `error` for a thrown error,
      `completed` for a completion, and for an answer that does not complete, `ci_failed` when the
      gate is required and red, else `in_progress`. */
  function FirstStatus(config: RalphConfig, attempt: Attempt, ciPassed: bool): string
  {
    match attempt
    case Thrown(_) => "error"
    case Output(output) =>
      if DetectComplete(config, output) then "completed"
      else if config.requireCIGreen && !ciPassed then "ci_failed"
      else "in_progress"
  }

  /** The text an iteration's records summarise: the agent's answer or the error's message. */
  function AttemptText(attempt: Attempt): string
  {
    match attempt
    case Output(text) => text
    case Thrown(message) => message
  }

  function FirstRecord(config: RalphConfig, i: int, attempt: Attempt, ciPassed: bool): LogRecord
  {
    LogRecord(i, FirstStatus(config, attempt, ciPassed), AttemptText(attempt))
  }

  /** The records one iteration logs: one, or two for a completion the gate rejected, all of
      them for that iteration. An iteration that goes on logs `error` for a non-critical error,
      `ci_failed` for a red required gate and `in_progress` otherwise; a returning one logs
      `error` or `completed`, followed by `ci_failed_final` when the gate rejected it. */
  lemma OutcomeRecords(config: RalphConfig, i: int, attempt: Attempt, ciPassed: bool)
    ensures var o := IterationOutcome(config, i, attempt, ciPassed);
            && (o.Continue? ==> |o.records| == 1)
            && (o.Return? ==> o.result.iterations == i && o.result.status != MaxIterations
                              && |o.records| == 1 + (if o.result.status == CiFailed then 1 else 0))
            && (forall k :: 0 <= k < |o.records| ==> o.records[k].iteration == i)
            && |o.records| >= 1 && o.records[0] == FirstRecord(config, i, attempt, ciPassed)
            && (o.Continue? ==>
                  o.records[0].status == if attempt.Thrown? then "error"
                                         else if config.requireCIGreen && !ciPassed then "ci_failed"
                                         else "in_progress")
            && (o.Return? ==> o.records[0].status == if attempt.Thrown? then "error" else "completed")
            && (o.Return? && o.result.status == CiFailed ==>
                  o.records[1] == LogRecord(i, "ci_failed_final", attempt.text))
  {
  }

  /** The log's records for iterations `i..last` are, position by position, the first record each
      of those iterations logs. */
  predicate FirstRecordsFrom(log: seq<LogRecord>, config: RalphConfig, attempts: int -> Attempt,
                             ciPassed: int -> bool, i: int, last: int)
  {
    forall k :: 0 <= k <= last - i && k < |log| ==>
      log[k] == FirstRecord(config, i + k, attempts(i + k), ciPassed(i + k))
  }

  lemma FirstRecordsCons(records: seq<LogRecord>, rest: seq<LogRecord>, config: RalphConfig,
                         attempts: int -> Attempt, ciPassed: int -> bool, i: int, last: int)
    requires |records| == 1 && records[0] == FirstRecord(config, i, attempts(i), ciPassed(i))
    requires FirstRecordsFrom(rest, config, attempts, ciPassed, i + 1, last)
    ensures FirstRecordsFrom(records + rest, config, attempts, ciPassed, i, last)
  {
    var log := records + rest;
    forall k | 0 <= k <= last - i && k < |log|
      ensures log[k] == FirstRecord(config, i + k, attempts(i + k), ciPassed(i + k))
    {
      if k > 0 {
        assert log[k] == rest[k - 1];
        assert i + 1 + (k - 1) == i + k;
      }
    }
  }

  /** The record of iteration `i` in front of the log of iterations `i + 1..last`. */
  lemma LogCons(records: seq<LogRecord>, rest: seq<LogRecord>, i: int, last: int, extra: nat)
    requires |records| == 1 && records[0].iteration == i && last >= i
    requires |rest| == last - (i + 1) + 1 + extra
    requires forall k :: 0 <= k < |rest| ==> rest[k].iteration == if k <= last - (i + 1) then i + 1 + k else last
    ensures |records + rest| == last - i + 1 + extra
    ensures forall k :: 0 <= k < |records + rest| ==>
              (records + rest)[k].iteration == if k <= last - i then i + k else last
  {
    var log := records + rest;
    forall k | 0 <= k < |log|
      ensures log[k].iteration == if k <= last - i then i + k else last
    {
      if k > 0 {
        assert log[k] == rest[k - 1];
      }
    }
  }

  /** The last records name how the task ended: `completed`, `completed` then `ci_failed_final`,
      or `error`. */
  lemma {:induction false} ExecuteLogEnd(config: RalphConfig, taskId: string, attempts: int -> Attempt,
                                         ciPassed: int -> bool, n: int, i: int)
    ensures var e := ExecuteFrom(config, taskId, attempts, ciPassed, n, i);
            && (e.0.status == Complete ==> |e.1| >= 1 && e.1[|e.1| - 1].status == "completed")
            && (e.0.status == CiFailed ==>
                  |e.1| >= 2 && e.1[|e.1| - 2].status == "completed" && e.1[|e.1| - 1].status == "ci_failed_final")
            && (e.0.status == Error ==> |e.1| >= 1 && e.1[|e.1| - 1].status == "error")
    decreases n - i + 1
  {
    if i <= n {
      var o := IterationOutcome(config, i, attempts(i), ciPassed(i));
      if o.Continue? {
        ExecuteLogEnd(config, taskId, attempts, ciPassed, n, i + 1);
        var rest := ExecuteFrom(config, taskId, attempts, ciPassed, n, i + 1);
        var log := o.records + rest.1;
        assert |rest.1| >= 1 ==> log[|log| - 1] == rest.1[|rest.1| - 1];
        assert |rest.1| >= 2 ==> log[|log| - 2] == rest.1[|rest.1| - 2];
      } else {
        OutcomeCases(config, i, attempts(i), ciPassed(i));
      }
    }
  }

  class Executor {
    const config: RalphConfig

    constructor (config: RalphConfig)
      ensures this.config == config
    {
      this.config := config;
    }

    /** One pass of the body of `executeTask`'s loop: fresh context, prompt, the agent's run and
        the checks on what it produced; the records it logs and whether the task returns. */
    method RunIteration(taskId: string, env: Environment, i: int) returns (outcome: Outcome)
      ensures outcome == IterationOutcome(config, i, Attempts(config, taskId, env)(i), env.ciPassed(i))
    {
      var context := GenerateContext(env.docs(i), taskId, i, config.progressHistory);
      var prompt := BuildImplementerPrompt(context);
      var attempt := env.agent(i, prompt);
      AttemptsAt(config, taskId, env, i);
      match attempt {
        case Thrown(errorMessage) =>
          if Contains(errorMessage, "CRITICAL") {
            return Return([LogRecord(i, "error", errorMessage)], TaskResult(Error, i, "", Some(errorMessage)));
          }
          return Continue([LogRecord(i, "error", errorMessage)]);
        case Output(output) =>
          if DetectComplete(config, output) {
            if config.requireCIGreen {
              var passed := env.ciPassed(i);
              if !passed {
                return Return([LogRecord(i, "completed", output), LogRecord(i, "ci_failed_final", output)],
                              TaskResult(CiFailed, i, output, Some(CiFailedMessage)));
              }
            }
            return Return([LogRecord(i, "completed", output)], TaskResult(Complete, i, output, None));
          }
          if config.requireCIGreen {
            var passed := env.ciPassed(i);
            if !passed {
              return Continue([LogRecord(i, "ci_failed", output)]);
            }
          }
          return Continue([LogRecord(i, "in_progress", output)]);
      }
    }

    /** `executeTask`: the returned result and the records appended to the progress log. */
    method ExecuteTask(taskId: string, maxIterations: int, env: Environment)
      returns (result: TaskResult, log: seq<LogRecord>)
      ensures (result, log) == Execute(config, taskId, env, maxIterations)
    {
      var iterations := if maxIterations != 0 then maxIterations else config.maxIterations;
      ghost var attempts := Attempts(config, taskId, env);
      ghost var target := Execute(config, taskId, env, maxIterations);
      assert target == ExecuteFrom(config, taskId, attempts, env.ciPassed, iterations, 1);
      log := [];
      var i := 1;
      while i <= iterations
        invariant target.0 == ExecuteFrom(config, taskId, attempts, env.ciPassed, iterations, i).0
        invariant target.1 == log + ExecuteFrom(config, taskId, attempts, env.ciPassed, iterations, i).1
        decreases iterations - i + 1
      {
        var outcome := RunIteration(taskId, env, i);
        ExecuteFromStep(config, taskId, attempts, env.ciPassed, iterations, i, log);
        match outcome {
          case Return(records, r) =>
            log := log + records;
            result := r;
            return;
          case Continue(records) =>
            log := log + records;
        }
        i := i + 1;
      }
      assert ExecuteFrom(config, taskId, attempts, env.ciPassed, iterations, i).1 == [];
      assert log + [] == log;
      result := MaxIterationsResult(taskId, iterations);
    }
  }

  lemma AttemptsAt(config: RalphConfig, taskId: string, env: Environment, i: int)
    ensures Attempts(config, taskId, env)(i) == env.agent(i, PromptAt(config, taskId, env, i))
  {
  }
}
