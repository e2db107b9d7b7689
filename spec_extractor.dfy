/** The spec extractor: line-oriented parsers for the specification document (heading sections),
    the task list (checklist task records with indented details) and the acceptance document
    (checklist criteria), the relevance filters, and the glue that selects a task's material. */
module SpecExtractor {
  import opened Common
  import opened Text

  datatype SpecSection = SpecSection(title: string, content: string, level: nat)

  datatype TaskInfo = TaskInfo(id: string, description: string, complexity: string,
                               dependencies: seq<string>, files: seq<string>)

  datatype AcceptanceCriterion = AcceptanceCriterion(id: string, description: string, taskId: string)

  // =======================================================================================
  // Heading sections

  datatype Heading = Heading(level: nat, title: string)

  /** `^(#{1,6})\s+(.+)$`: one to six `#`, at least one space, and a title running to the end of
      the line. Seven or more `#` never match, since the spaces would have to start on a `#`. */
  function MatchHeading(line: string): (h: Option<Heading>)
    ensures h.Some? ==> 1 <= h.value.level <= 6 && |h.value.title| >= 1
    ensures h.Some? ==> h.value.level < |line| && EndsWith(line, h.value.title)
    ensures h.Some? ==> forall i :: 0 <= i < h.value.level ==> line[i] == '#'
  {
    HeadingAfter(line, 0)
  }

  /** The rest of the match once the first `n` characters are known to be `#`: more `#`, or the
      end of the run, which must be one to six long and followed by spaces and the title. */
  function HeadingAfter(line: string, n: nat): (h: Option<Heading>)
    requires n <= |line| && forall i :: 0 <= i < n ==> line[i] == '#'
    ensures h.Some? ==> 1 <= h.value.level <= 6 && |h.value.title| >= 1
    ensures h.Some? ==> n <= h.value.level < |line| && EndsWith(line, h.value.title)
    ensures h.Some? ==> forall i :: 0 <= i < h.value.level ==> line[i] == '#'
    decreases |line| - n
  {
    if n < |line| && line[n] == '#' then HeadingAfter(line, n + 1)
    else if 1 <= n <= 6 then
      match SpaceThenLine(line[n..], 1)
      case Some(title) =>
        EndsWithSuffix(line, n, title);
        Some(Heading(n, title))
      case None => None
    else None
  }

  lemma EndsWithSuffix(s: string, n: nat, t: string)
    requires n <= |s| && EndsWith(s[n..], t)
    ensures EndsWith(s, t) && n + |t| <= |s|
  {
    assert s[|s| - |t|..] == s[n..][|s| - n - |t|..];
  }

  predicate IsHeadingLine(line: string) { MatchHeading(line).Some? }

  predicate NoHeadingLines(lines: seq<string>)
  {
    forall i :: 0 <= i < |lines| ==> !IsHeadingLine(lines[i])
  }

  /** The state of the section scan: the sections closed so far, the open heading and the lines
      collected for it (starting with the heading line itself). */
  datatype SectionScan = SectionScan(sections: seq<SpecSection>, current: Option<Heading>,
                                     content: seq<string>)

  function CloseSection(h: Heading, content: seq<string>): SpecSection
  {
    SpecSection(h.title, Trim(Join(content, "\n")), h.level)
  }

  /** The closed sections plus the open one, if any. */
  function Flush(st: SectionScan): seq<SpecSection>
  {
    if st.current.Some? then st.sections + [CloseSection(st.current.value, st.content)] else st.sections
  }

  function SectionStep(st: SectionScan, line: string): SectionScan
  {
    match MatchHeading(line)
    case Some(h) => SectionScan(Flush(st), Some(h), [line])
    case None => if st.current.Some? then st.(content := st.content + [line]) else st
  }

  function ScanSections(lines: seq<string>): SectionScan
    decreases |lines|
  {
    if lines == [] then SectionScan([], None, [])
    else SectionStep(ScanSections(lines[..|lines| - 1]), lines[|lines| - 1])
  }

  lemma ScanSnoc(lines: seq<string>, line: string)
    ensures ScanSections(lines + [line]) == SectionStep(ScanSections(lines), line)
  {
    assert (lines + [line])[..|lines|] == lines;
  }

  lemma ScanSectionsAt(lines: seq<string>, i: nat)
    requires i < |lines|
    ensures ScanSections(lines[..i + 1]) == SectionStep(ScanSections(lines[..i]), lines[i])
  {
    assert lines[..i + 1][..i] == lines[..i];
  }

  /** The sections of a document given as lines. */
  function SectionsOf(lines: seq<string>): seq<SpecSection>
  {
    Flush(ScanSections(lines))
  }

  /** The body of `parseMarkdownSections`' loop: a heading line closes the open section and opens
      a new one; any other line is added to the open section, if there is one. */
  method ScanLine(sections: seq<SpecSection>, current: Option<Heading>, currentContent: seq<string>, line: string)
    returns (sections': seq<SpecSection>, current': Option<Heading>, currentContent': seq<string>)
    ensures SectionScan(sections', current', currentContent') ==
              SectionStep(SectionScan(sections, current, currentContent), line)
  {
    sections', current', currentContent' := sections, current, currentContent;
    var headerMatch := MatchHeading(line);
    if headerMatch.Some? {
      if current.Some? {
        sections' := sections + [CloseSection(current.value, currentContent)];
      }
      current' := headerMatch;
      currentContent' := [line];
    } else if current.Some? {
      currentContent' := currentContent + [line];
    }
  }

  /** `parseMarkdownSections`. */
  method ParseMarkdownSections(content: string) returns (sections: seq<SpecSection>)
    ensures sections == SectionsOf(Split(content, '\n'))
  {
    var lines := Split(content, '\n');
    sections := [];
    var current: Option<Heading> := None;
    var currentContent: seq<string> := [];
    var i := 0;
    while i < |lines|
      invariant 0 <= i <= |lines|
      invariant ScanSections(lines[..i]) == SectionScan(sections, current, currentContent)
    {
      ScanSectionsAt(lines, i);
      sections, current, currentContent := ScanLine(sections, current, currentContent, lines[i]);
      i := i + 1;
    }
    ghost var st := SectionScan(sections, current, currentContent);
    assert ScanSections(lines) == st by {
      assert lines[..|lines|] == lines;
    }
    if current.Some? {
      sections := sections + [CloseSection(current.value, currentContent)];
    }
    assert sections == Flush(st);
  }

  /** The headings of the heading lines, in document order. */
  function HeadingsOf(lines: seq<string>): seq<Heading>
    decreases |lines|
  {
    if lines == [] then []
    else
      var last := lines[|lines| - 1];
      HeadingsOf(lines[..|lines| - 1]) + (if IsHeadingLine(last) then [MatchHeading(last).value] else [])
  }

  function HeadingOfSection(s: SpecSection): Heading { Heading(s.level, s.title) }

  function Headings(ss: seq<SpecSection>): (hs: seq<Heading>)
    ensures |hs| == |ss| && forall k :: 0 <= k < |ss| ==> hs[k] == HeadingOfSection(ss[k])
  {
    seq(|ss|, k requires 0 <= k < |ss| => HeadingOfSection(ss[k]))
  }

  lemma {:induction false} ScanHeadings(lines: seq<string>)
    ensures var st := ScanSections(lines);
            Headings(st.sections) + (if st.current.Some? then [st.current.value] else []) == HeadingsOf(lines)
    decreases |lines|
  {
    if lines != [] {
      var prev, last := lines[..|lines| - 1], lines[|lines| - 1];
      ScanHeadings(prev);
      HeadingsStep(ScanSections(prev), last);
    }
  }

  /** The headings seen so far: those of the closed sections and the open one. */
  function HeadingsSeen(st: SectionScan): seq<Heading>
  {
    Headings(st.sections) + (if st.current.Some? then [st.current.value] else [])
  }

  /** One scan step adds the line's heading, if it has one, to the headings seen. */
  lemma HeadingsStep(st: SectionScan, line: string)
    ensures HeadingsSeen(SectionStep(st, line)) ==
            HeadingsSeen(st) + (if IsHeadingLine(line) then [MatchHeading(line).value] else [])
  {
    FlushHeadings(st);
  }

  /** Closing the open section keeps the headings seen. */
  lemma FlushHeadings(st: SectionScan)
    ensures Headings(Flush(st)) == HeadingsSeen(st)
  {
    if st.current.Some? {
      assert Headings(Flush(st)) == Headings(st.sections) + [st.current.value];
    }
  }

  /** One section per heading line, in document order, with the heading's title and `#` count. */
  lemma SectionsFollowHeadings(lines: seq<string>)
    ensures Headings(SectionsOf(lines)) == HeadingsOf(lines)
  {
    ScanHeadings(lines);
    FlushHeadings(ScanSections(lines));
  }

  /** Every section's level is between 1 and 6. */
  lemma SectionLevels(lines: seq<string>)
    ensures forall k :: 0 <= k < |SectionsOf(lines)| ==> 1 <= SectionsOf(lines)[k].level <= 6
  {
    var ss := SectionsOf(lines);
    SectionsFollowHeadings(lines);
    HeadingLevels(lines);
    forall k | 0 <= k < |ss|
      ensures 1 <= ss[k].level <= 6
    {
      assert Headings(ss)[k] == HeadingsOf(lines)[k];
    }
  }

  lemma {:induction false} HeadingLevels(lines: seq<string>)
    ensures forall k :: 0 <= k < |HeadingsOf(lines)| ==> 1 <= HeadingsOf(lines)[k].level <= 6
    decreases |lines|
  {
    if lines != [] {
      HeadingLevels(lines[..|lines| - 1]);
    }
  }

  lemma {:induction false} ScanPreamble(lines: seq<string>)
    requires NoHeadingLines(lines)
    ensures ScanSections(lines) == SectionScan([], None, [])
    decreases |lines|
  {
    if lines != [] {
      ScanPreamble(lines[..|lines| - 1]);
    }
  }

  /** Scanning up to line `n`, where line `p` opened the section `h` and no line after it is a
      heading: the section stays open and holds lines `p..n`. */
  lemma {:induction false} ScanBlock(all: seq<string>, p: nat, n: nat, sections: seq<SpecSection>,
                                     h: Option<Heading>)
    requires p < n <= |all| && h.Some?
    requires ScanSections(all[..p + 1]) == SectionScan(sections, h, all[p..p + 1])
    requires forall k :: p < k < n ==> NotHeadingAt(all, k)
    ensures ScanSections(all[..n]) == SectionScan(sections, h, all[p..n])
    decreases n
  {
    if n > p + 1 {
      ScanBlock(all, p, n - 1, sections, h);
      ScanBlockStep(all, p, n, sections, h);
    }
  }

  predicate NotHeadingAt(lines: seq<string>, k: nat)
  {
    k < |lines| && !IsHeadingLine(lines[k])
  }

  /** A line that is not a heading joins the open section. */
  lemma ScanBlockStep(all: seq<string>, p: nat, n: nat, sections: seq<SpecSection>, h: Option<Heading>)
    requires p < n - 1 && n <= |all| && h.Some? && NotHeadingAt(all, n - 1)
    requires ScanSections(all[..n - 1]) == SectionScan(sections, h, all[p..n - 1])
    ensures ScanSections(all[..n]) == SectionScan(sections, h, all[p..n])
  {
    ScanSectionsAt(all, n - 1);
    SliceSnoc(all, p, n);
  }

  /** Lines before the first heading belong to no section. */
  lemma SectionsPreamble(lines: seq<string>)
    requires NoHeadingLines(lines)
    ensures SectionsOf(lines) == []
  {
    ScanPreamble(lines);
  }

  /** A heading line followed by lines that are not headings adds exactly one section: its title and
      level come from the heading, and its content is the heading line and all the lines after it,
      joined and trimmed. */
  lemma SectionsBlock(lines: seq<string>, heading: string, body: seq<string>)
    requires IsHeadingLine(heading) && NoHeadingLines(body)
    ensures var h := MatchHeading(heading).value;
            SectionsOf(lines + [heading] + body) ==
              SectionsOf(lines) + [SpecSection(h.title, Trim(Join([heading] + body, "\n")), h.level)]
  {
    var all := lines + [heading] + body;
    var p := |lines|;
    assert all[p] == heading && all[..p] == lines && all[p..|all|] == [heading] + body && all[..|all|] == all;
    assert forall k :: p < k < |all| ==> NotHeadingAt(all, k) by {
      assert forall k :: p < k < |all| ==> all[k] == body[k - p - 1];
    }
    var h := MatchHeading(heading);
    assert ScanSections(all[..p + 1]) == SectionScan(SectionsOf(lines), h, all[p..p + 1]) by {
      ScanSectionsAt(all, p);
      assert all[p..p + 1] == [heading];
    }
    ScanBlock(all, p, |all|, SectionsOf(lines), h);
  }

  // =======================================================================================
  // Checklist lines

  /** `^-\s*\[.\]\s*`: the length of the opening of a checklist item, if the line starts with one. */
  function CheckboxPrefix(line: string): (k: Option<nat>)
    ensures k.Some? ==> k.value <= |line|
  {
    if |line| >= 1 && line[0] == '-' then
      var k := 1 + Span(line[1..], IsJsSpace);
      if k + 3 <= |line| && line[k] == '[' && !IsLineTerminator(line[k + 1]) && line[k + 2] == ']' then
        Some(k + 3 + Span(line[k + 3..], IsJsSpace))
      else None
    else None
  }

  datatype ChecklistItem = ChecklistItem(id: string, description: string)

  /** `([A-Z]+-\d+):` at the start of `r`: the identifier and what follows the colon. */
  function IdAt(r: string): Option<(string, string)>
  {
    var u := Span(r, IsUpper);
    if 1 <= u < |r| && r[u] == '-' then
      var d := Span(r[u + 1..], IsDigit);
      if d >= 1 && u + 1 + d < |r| && r[u + 1 + d] == ':' then Some((r[..u + 1 + d], r[u + 2 + d..]))
      else None
    else None
  }

  /** `^-\s*\[.\]\s*([A-Z]+-\d+):\s*(.+)$`. */
  function MatchTaskLine(line: string): Option<ChecklistItem>
  {
    match CheckboxPrefix(line)
    case None => None
    case Some(k) =>
      match IdAt(line[k..])
      case None => None
      case Some((id, rest)) =>
        match SpaceThenLine(rest, 0)
        case None => None
        case Some(description) => Some(ChecklistItem(id, description))
  }

  /** `^-\s*\[.\]\s*(AC-\d+):\s*(.+)$`: an upper-case run followed by `-` starts with `AC-` exactly
      when the run is `AC`, so this is the task pattern restricted to identifiers starting `AC-`. */
  function MatchCriterionLine(line: string): Option<ChecklistItem>
  {
    match MatchTaskLine(line)
    case Some(item) => if StartsWith(item.id, "AC-") then Some(item) else None
    case None => None
  }

  // =======================================================================================
  // Task records

  /** Lines that may carry task details: indented by two spaces and not a checklist item. */
  predicate IsDetailLine(line: string)
  {
    StartsWith(line, "  ") && CheckboxPrefix(line).None?
  }

  /** How many consecutive detail lines open `lines`. */
  function DetailRun(lines: seq<string>): (n: nat)
    ensures n <= |lines|
    ensures forall i :: 0 <= i < n ==> IsDetailLine(lines[i])
    ensures n < |lines| ==> !IsDetailLine(lines[n])
    decreases |lines|
  {
    if lines != [] && IsDetailLine(lines[0]) then 1 + DetailRun(lines[1..]) else 0
  }

  /** `key` (lower case) at the start of `s`, compared case-insensitively as the `i` flag does
      outside Unicode mode. */
  predicate StartsWithIgnoringCase(s: string, key: string)
  {
    |key| <= |s| && Lower(s[..|key|]) == key
  }

  /** The leftmost match of `key` followed by `tail` anywhere in `s` (an unanchored search). */
  function SearchKey(s: string, key: string, tail: string -> Option<string>): Option<string>
    decreases |s|
  {
    if StartsWithIgnoringCase(s, key) && tail(s[|key|..]).Some? then tail(s[|key|..])
    else if s == [] then None
    else SearchKey(s[1..], key, tail)
  }

  /** `\s*(\w+)` at the start of `r`. */
  function SpaceThenWord(r: string): (m: Option<string>)
    ensures m.Some? ==> |m.value| >= 1
  {
    var k := Span(r, IsJsSpace);
    if k < |r| && IsWordChar(r[k]) then Some(r[k..k + Span(r[k..], IsWordChar)]) else None
  }

  function ComplexityIn(line: string): Option<string> { SearchKey(line, "complexity:", SpaceThenWord) }

  function DependsIn(line: string): Option<string> { SearchKey(line, "depends:", SpaceThenRun) }

  function FilesIn(line: string): Option<string> { SearchKey(line, "files:", SpaceThenRun) }

  function TrimAll(parts: seq<string>): (r: seq<string>)
    ensures |r| == |parts| && forall i :: 0 <= i < |parts| ==> r[i] == Trim(parts[i])
  {
    seq(|parts|, i requires 0 <= i < |parts| => Trim(parts[i]))
  }

  /** `s.split(',').map(x => x.trim())`. */
  function CommaList(s: string): seq<string>
  {
    TrimAll(Split(s, ','))
  }

  datatype Details = Details(complexity: string, dependencies: seq<string>, files: seq<string>)

  const DefaultDetails := Details("medium", [], [])

  /** One detail line: each of the three patterns that matches overwrites its field. */
  function ApplyDetail(d: Details, line: string): Details
  {
    WithFiles(WithDepends(WithComplexity(d, line), line), line)
  }

  function WithComplexity(d: Details, line: string): Details
  {
    match ComplexityIn(line) case Some(w) => d.(complexity := Lower(w)) case None => d
  }

  function WithDepends(d: Details, line: string): Details
  {
    match DependsIn(line) case Some(v) => d.(dependencies := CommaList(v)) case None => d
  }

  function WithFiles(d: Details, line: string): Details
  {
    match FilesIn(line) case Some(v) => d.(files := CommaList(v)) case None => d
  }

  function FoldDetails(lines: seq<string>): Details
    decreases |lines|
  {
    if lines == [] then DefaultDetails
    else ApplyDetail(FoldDetails(lines[..|lines| - 1]), lines[|lines| - 1])
  }

  /** The details of a task whose checklist line is followed by `after`: only the opening run of
      detail lines is read. */
  function DetailsAfter(after: seq<string>): Details
  {
    FoldDetails(after[..DetailRun(after)])
  }

  lemma FoldSnoc(ds: seq<string>, line: string)
    ensures FoldDetails(ds + [line]) == ApplyDetail(FoldDetails(ds), line)
  {
    assert (ds + [line])[..|ds|] == ds;
  }

  lemma FoldStep(lines: seq<string>, from: nat, j: nat)
    requires from <= j < |lines|
    ensures FoldDetails(lines[from..j + 1]) == ApplyDetail(FoldDetails(lines[from..j]), lines[j])
  {
    assert lines[from..j + 1] == lines[from..j] + [lines[j]];
    FoldSnoc(lines[from..j], lines[j]);
  }

  /** The run of detail lines is exactly `n` long when the first `n` lines are detail lines and the
      next one, if any, is not. */
  lemma {:induction false} DetailRunIs(lines: seq<string>, n: nat)
    requires n <= |lines|
    requires forall i :: 0 <= i < n ==> IsDetailLine(lines[i])
    requires n < |lines| ==> !IsDetailLine(lines[n])
    ensures DetailRun(lines) == n
    decreases n
  {
    if n > 0 {
      assert forall i :: 0 <= i < n - 1 ==> lines[1..][i] == lines[i + 1];
      DetailRunIs(lines[1..], n - 1);
    }
  }

  lemma DetailsOfRun(lines: seq<string>, from: nat, j: nat)
    requires from <= j <= |lines|
    requires forall k :: from <= k < j ==> IsDetailLine(lines[k])
    requires j < |lines| ==> !IsDetailLine(lines[j])
    ensures DetailsAfter(lines[from..]) == FoldDetails(lines[from..j])
  {
    var after := lines[from..];
    assert forall k :: 0 <= k < |after| ==> after[k] == lines[from + k];
    DetailRunIs(after, j - from);
    assert after[..j - from] == lines[from..j];
  }

  predicate IsTaskLineFor(line: string, taskId: string)
  {
    MatchTaskLine(line).Some? && MatchTaskLine(line).value.id == taskId
  }

  /** The record built from a matching checklist line's description and the lines after it. */
  function TaskRecord(taskId: string, description: string, after: seq<string>): TaskInfo
  {
    var d := DetailsAfter(after);
    TaskInfo(taskId, description, d.complexity, d.dependencies, d.files)
  }

  /** The record of the first checklist line whose identifier is `taskId`, if any. */
  function TaskInfoOf(lines: seq<string>, taskId: string): Option<TaskInfo>
    decreases |lines|
  {
    if lines == [] then None
    else if IsTaskLineFor(lines[0], taskId) then
      Some(TaskRecord(taskId, MatchTaskLine(lines[0]).value.description, lines[1..]))
    else TaskInfoOf(lines[1..], taskId)
  }

  /** The body of the details loop: each of the three patterns that matches sets its field. */
  method ReadDetailLine(complexity: string, dependencies: seq<string>, files: seq<string>, detailLine: string)
    returns (complexity': string, dependencies': seq<string>, files': seq<string>)
    ensures Details(complexity', dependencies', files') == ApplyDetail(Details(complexity, dependencies, files), detailLine)
  {
    ghost var d0 := Details(complexity, dependencies, files);
    complexity', dependencies', files' := complexity, dependencies, files;
    var complexityMatch := ComplexityIn(detailLine);
    if complexityMatch.Some? {
      complexity' := Lower(complexityMatch.value);
    }
    ghost var d1 := Details(complexity', dependencies', files');
    assert d1 == WithComplexity(d0, detailLine);
    var depsMatch := DependsIn(detailLine);
    if depsMatch.Some? {
      dependencies' := CommaList(depsMatch.value);
    }
    ghost var d2 := Details(complexity', dependencies', files');
    assert d2 == WithDepends(d1, detailLine);
    var filesMatch := FilesIn(detailLine);
    if filesMatch.Some? {
      files' := CommaList(filesMatch.value);
    }
    assert Details(complexity', dependencies', files') == WithFiles(d2, detailLine);
  }

  /** The inner loop of `parseTaskInfo`: reads the detail lines from index `from` on, stopping at
      the first line that is not indented by two spaces or that opens another checklist item. */
  method ReadTaskDetails(lines: seq<string>, from: nat) returns (d: Details)
    requires from <= |lines|
    ensures d == DetailsAfter(lines[from..])
  {
    var complexity := "medium";
    var dependencies: seq<string> := [];
    var files: seq<string> := [];
    var j := from;
    assert lines[from..j] == [];
    while j < |lines|
      invariant from <= j <= |lines|
      invariant forall k :: from <= k < j ==> IsDetailLine(lines[k])
      invariant Details(complexity, dependencies, files) == FoldDetails(lines[from..j])
    {
      var detailLine := lines[j];
      if !IsDetailLine(detailLine) {
        DetailsOfRun(lines, from, j);
        return Details(complexity, dependencies, files);
      }
      FoldStep(lines, from, j);
      complexity, dependencies, files := ReadDetailLine(complexity, dependencies, files, detailLine);
      j := j + 1;
    }
    DetailsOfRun(lines, from, j);
    d := Details(complexity, dependencies, files);
  }

  /** `parseTaskInfo`. */
  method ParseTaskInfo(tasksContent: string, taskId: string) returns (info: Option<TaskInfo>)
    ensures info == TaskInfoOf(Split(tasksContent, '\n'), taskId)
  {
    var lines := Split(tasksContent, '\n');
    var i := 0;
    while i < |lines|
      invariant 0 <= i <= |lines|
      invariant TaskInfoOf(lines[i..], taskId) == TaskInfoOf(lines, taskId)
    {
      var line := lines[i];
      assert lines[i..][0] == line && lines[i..][1..] == lines[i + 1..];
      var taskMatch := MatchTaskLine(line);
      if taskMatch.Some? && taskMatch.value.id == taskId {
        var description := taskMatch.value.description;
        var d := ReadTaskDetails(lines, i + 1);
        info := Some(TaskInfo(taskId, description, d.complexity, d.dependencies, d.files));
        return;
      }
      i := i + 1;
    }
    info := None;
  }

  /** No record is found exactly when no checklist line carries the identifier. */
  lemma {:induction false} TaskInfoNone(lines: seq<string>, taskId: string)
    ensures TaskInfoOf(lines, taskId).None? <==> forall i :: 0 <= i < |lines| ==> !IsTaskLineFor(lines[i], taskId)
    decreases |lines|
  {
    if lines != [] {
      TaskInfoNone(lines[1..], taskId);
      assert forall i :: 1 <= i < |lines| ==> lines[i] == lines[1..][i - 1];
      if IsTaskLineFor(lines[0], taskId) {
        assert TaskInfoOf(lines, taskId).Some?;
      } else {
        assert TaskInfoOf(lines, taskId) == TaskInfoOf(lines[1..], taskId);
      }
    }
  }

  /** The record comes from the first checklist line that carries the identifier: its description,
      and the details read from the lines after it. */
  lemma TaskInfoFirstMatch(lines: seq<string>, taskId: string, i: nat)
    requires i < |lines| && IsTaskLineFor(lines[i], taskId)
    requires forall k :: 0 <= k < i ==> !IsTaskLineFor(lines[k], taskId)
    ensures TaskInfoOf(lines, taskId) ==
              Some(TaskRecord(taskId, MatchTaskLine(lines[i]).value.description, lines[i + 1..]))
  {
    TaskInfoSkip(lines, taskId, i);
    var tail := lines[i..];
    assert tail[0] == lines[i] && tail[1..] == lines[i + 1..];
  }

  /** Lines before the first match do not affect the record. */
  lemma {:induction false} TaskInfoSkip(lines: seq<string>, taskId: string, i: nat)
    requires i <= |lines|
    requires forall k :: 0 <= k < i ==> !IsTaskLineFor(lines[k], taskId)
    ensures TaskInfoOf(lines, taskId) == TaskInfoOf(lines[i..], taskId)
    decreases i
  {
    if i > 0 {
      assert TaskInfoOf(lines, taskId) == TaskInfoOf(lines[1..], taskId) by {
        assert !IsTaskLineFor(lines[0], taskId);
      }
      assert forall k :: 0 <= k < i - 1 ==> lines[1..][k] == lines[k + 1];
      TaskInfoSkip(lines[1..], taskId, i - 1);
      assert lines[1..][i - 1..] == lines[i..];
    }
  }

  /** With no detail lines the defaults stand: complexity `medium`, no dependencies, no files. */
  lemma DetailsDefault(after: seq<string>)
    requires after == [] || !IsDetailLine(after[0])
    ensures DetailsAfter(after) == Details("medium", [], [])
  {
    DetailRunIs(after, 0);
  }

  /** Only the opening run of detail lines counts: what follows the first other line is ignored. */
  lemma DetailsStopAtFirstOtherLine(run: seq<string>, stop: string, rest: seq<string>)
    requires forall i :: 0 <= i < |run| ==> IsDetailLine(run[i])
    requires !IsDetailLine(stop)
    ensures DetailsAfter(run + [stop] + rest) == FoldDetails(run)
  {
    var all := run + [stop] + rest;
    assert all[|run|] == stop;
    assert forall i :: 0 <= i < |run| ==> all[i] == run[i];
    DetailRunIs(all, |run|);
    assert all[..|run|] == run;
  }

  /** Lines that do not mention a field leave it as it was. */
  lemma {:induction false} DetailsUnmentioned(ds: seq<string>, rest: seq<string>)
    ensures (forall i :: 0 <= i < |rest| ==> ComplexityIn(rest[i]).None?) ==>
              FoldDetails(ds + rest).complexity == FoldDetails(ds).complexity
    ensures (forall i :: 0 <= i < |rest| ==> DependsIn(rest[i]).None?) ==>
              FoldDetails(ds + rest).dependencies == FoldDetails(ds).dependencies
    ensures (forall i :: 0 <= i < |rest| ==> FilesIn(rest[i]).None?) ==>
              FoldDetails(ds + rest).files == FoldDetails(ds).files
    decreases |rest|
  {
    if rest == [] {
      assert ds + rest == ds;
    } else {
      var rest' := rest[..|rest| - 1];
      var line := rest[|rest| - 1];
      assert ds + rest == (ds + rest') + [line];
      FoldSnoc(ds + rest', line);
      DetailsUnmentioned(ds, rest');
    }
  }

  /** A line that mentions a field sets it: complexity lower-cased, lists split at commas and trimmed.
      Together with the previous lemma, the last line mentioning a field decides it. */
  lemma DetailsLastWins(ds: seq<string>, line: string)
    ensures ComplexityIn(line).Some? ==> FoldDetails(ds + [line]).complexity == Lower(ComplexityIn(line).value)
    ensures DependsIn(line).Some? ==> FoldDetails(ds + [line]).dependencies == CommaList(DependsIn(line).value)
    ensures FilesIn(line).Some? ==> FoldDetails(ds + [line]).files == CommaList(FilesIn(line).value)
  {
    FoldSnoc(ds, line);
  }

  // =======================================================================================
  // Acceptance criteria

  /** `isAcceptanceCriteriaRelevantToTask`: false when the identifier has no trailing number; with a
      number it answers true whether or not the description mentions it. */
  function IsAcceptanceCriteriaRelevantToTask(acDescription: string, taskId: string): bool
  {
    var n := TrailingDigits(taskId);
    if n == 0 then false
    else if Contains(acDescription, taskId[|taskId| - n..]) then true
    else true
  }

  lemma RelevanceIsTrailingNumber(acDescription: string, taskId: string)
    ensures IsAcceptanceCriteriaRelevantToTask(acDescription, taskId) <==> (taskId != [] && IsDigit(taskId[|taskId| - 1]))
  {
  }

  predicate CriterionRelevant(description: string, taskId: string)
  {
    Contains(Lower(description), Lower(taskId)) || IsAcceptanceCriteriaRelevantToTask(description, taskId)
  }

  /** The criterion a line states, tagged with `taskId`: none, or one. */
  function CriterionFrom(line: string, taskId: string): seq<AcceptanceCriterion>
  {
    match MatchCriterionLine(line)
    case Some(item) => [AcceptanceCriterion(item.id, item.description, taskId)]
    case None => []
  }

  /** Every criterion line of the document, tagged with `taskId`, before the relevance filter. */
  function AllCriteria(lines: seq<string>, taskId: string): seq<AcceptanceCriterion>
    decreases |lines|
  {
    if lines == [] then []
    else AllCriteria(lines[..|lines| - 1], taskId) + CriterionFrom(lines[|lines| - 1], taskId)
  }

  lemma AllCriteriaSnoc(lines: seq<string>, line: string, taskId: string)
    ensures AllCriteria(lines + [line], taskId) == AllCriteria(lines, taskId) + CriterionFrom(line, taskId)
  {
    assert (lines + [line])[..|lines|] == lines;
  }

  function RelevantTo(taskId: string): AcceptanceCriterion -> bool
  {
    (c: AcceptanceCriterion) => CriterionRelevant(c.description, taskId)
  }

  function CriteriaOf(lines: seq<string>, taskId: string): seq<AcceptanceCriterion>
  {
    Filter(AllCriteria(lines, taskId), RelevantTo(taskId))
  }

  /** `parseAcceptanceCriteria`. */
  method ParseAcceptanceCriteria(acceptanceContent: string, taskId: string)
    returns (criteria: seq<AcceptanceCriterion>)
    ensures criteria == CriteriaOf(Split(acceptanceContent, '\n'), taskId)
  {
    var lines := Split(acceptanceContent, '\n');
    criteria := [];
    var i := 0;
    while i < |lines|
      invariant 0 <= i <= |lines|
      invariant criteria == CriteriaOf(lines[..i], taskId)
    {
      var line := lines[i];
      CriteriaStep(lines, i, taskId);
      var acMatch := MatchCriterionLine(line);
      if acMatch.Some? {
        var id := acMatch.value.id;
        var description := acMatch.value.description;
        var isRelevant := Contains(Lower(description), Lower(taskId))
                          || IsAcceptanceCriteriaRelevantToTask(description, taskId);
        if isRelevant {
          criteria := criteria + [AcceptanceCriterion(id, description, taskId)];
        }
      }
      i := i + 1;
    }
    assert lines[..|lines|] == lines;
  }

  /** One more line: a criterion line adds its criterion when it is relevant, other lines add
      nothing. */
  lemma CriteriaStep(lines: seq<string>, i: nat, taskId: string)
    requires i < |lines|
    ensures CriteriaOf(lines[..i + 1], taskId) ==
              CriteriaOf(lines[..i], taskId)
              + match MatchCriterionLine(lines[i])
                case Some(item) =>
                  if CriterionRelevant(item.description, taskId)
                  then [AcceptanceCriterion(item.id, item.description, taskId)] else []
                case None => []
  {
    var line := lines[i];
    assert lines[..i + 1] == lines[..i] + [line];
    AllCriteriaSnoc(lines[..i], line, taskId);
    match MatchCriterionLine(line)
    case Some(item) =>
      FilterAppend(AllCriteria(lines[..i], taskId), AcceptanceCriterion(item.id, item.description, taskId), RelevantTo(taskId));
    case None =>
      assert AllCriteria(lines[..i] + [line], taskId) == AllCriteria(lines[..i], taskId) + [];
      assert AllCriteria(lines[..i], taskId) + [] == AllCriteria(lines[..i], taskId);
      assert CriteriaOf(lines[..i], taskId) + [] == CriteriaOf(lines[..i], taskId);
  }

  /** A criterion is dropped only when its description does not mention the task identifier and
      the identifier has no trailing number; with a trailing number every criterion is kept. */
  lemma CriteriaKept(lines: seq<string>, taskId: string)
    ensures forall c :: c in AllCriteria(lines, taskId) ==>
              (c in CriteriaOf(lines, taskId) <==>
                 Contains(Lower(c.description), Lower(taskId)) || (taskId != [] && IsDigit(taskId[|taskId| - 1])))
    ensures taskId != [] && IsDigit(taskId[|taskId| - 1]) ==> CriteriaOf(lines, taskId) == AllCriteria(lines, taskId)
  {
    if taskId != [] && IsDigit(taskId[|taskId| - 1]) {
      FilterAll(AllCriteria(lines, taskId), RelevantTo(taskId));
    }
  }

  lemma {:induction false} FilterAll<T>(s: seq<T>, p: T -> bool)
    requires forall x :: x in s ==> p(x)
    ensures Filter(s, p) == s
    decreases |s|
  {
    if s != [] {
      FilterAll(s[1..], p);
      assert [s[0]] + s[1..] == s;
    }
  }

  // =======================================================================================
  // Keywords and relevant sections

  const StopWords: seq<string> := ["with", "from", "that", "this", "will", "have", "been", "were", "they", "them"]

  /** The lower-cased description with every character that is neither a word character nor a
      space replaced by a space (`replace(/[^\w\s]/g, ' ')`). */
  function KeywordText(description: string): (r: string)
    ensures |r| == |description|
  {
    var lower := Lower(description);
    seq(|lower|, i requires 0 <= i < |lower| => if IsWordChar(lower[i]) || IsJsSpace(lower[i]) then lower[i] else ' ')
  }

  predicate IsLongWord(w: string) { |w| > 3 }

  predicate IsNotStopWord(w: string) { w !in StopWords }

  /** `extractKeywords`. Splitting at single spaces and dropping words of three characters or fewer
      removes the same empty pieces that `split(/\s+/)` would never have produced. */
  function ExtractKeywords(description: string): (r: seq<string>)
    ensures forall w :: w in r <==>
              w in SplitWhere(KeywordText(description), IsJsSpace) && |w| > 3 && w !in StopWords
  {
    Filter(Filter(SplitWhere(KeywordText(description), IsJsSpace), IsLongWord), IsNotStopWord)
  }

  /** Every keyword is a lower-case run of word characters that occurs in the lower-cased
      description. */
  lemma KeywordsOccur(description: string)
    ensures forall w :: w in ExtractKeywords(description) ==>
              (forall j :: 0 <= j < |w| ==> IsWordChar(w[j]) && !IsUpper(w[j])) && Contains(Lower(description), w)
  {
    forall w | w in ExtractKeywords(description)
      ensures forall j :: 0 <= j < |w| ==> IsWordChar(w[j]) && !IsUpper(w[j])
      ensures Contains(Lower(description), w)
    {
      PieceOccurs(description, w);
    }
  }

  lemma PieceOccurs(description: string, w: string)
    requires w in SplitWhere(KeywordText(description), IsJsSpace)
    ensures forall j :: 0 <= j < |w| ==> IsWordChar(w[j]) && !IsUpper(w[j])
    ensures Contains(Lower(description), w)
  {
    var text := KeywordText(description);
    var lower := Lower(description);
    var words := SplitWhere(text, IsJsSpace);
    var k :| 0 <= k < |words| && words[k] == w;
    var i := PieceAt(text, IsJsSpace, w);
    forall j | 0 <= j < |w|
      ensures IsWordChar(w[j]) && !IsUpper(w[j]) && lower[i + j] == w[j]
    {
      assert w[j] == text[i + j];
      assert !IsJsSpace(words[k][j]);
    }
    assert lower[i..i + |w|] == w;
    ContainsAt(lower, i, w);
  }

  /** Where a piece of a split lies in the text. */
  lemma {:induction false} PieceAt(s: string, isSep: char -> bool, w: string) returns (i: nat)
    requires w in SplitWhere(s, isSep)
    ensures i + |w| <= |s| && s[i..i + |w|] == w
    decreases |s|
  {
    if w == "" {
      i := 0;
    } else if !isSep(s[0]) && w == [s[0]] + SplitWhere(s[1..], isSep)[0] {
      PieceFirst(s, isSep);
      i := 0;
    } else {
      PieceInRest(s, isSep, w);
      var i' := PieceAt(s[1..], isSep, w);
      i := i' + 1;
      assert s[i..i + |w|] == s[1..][i'..i' + |w|];
    }
  }

  /** The first piece of a text that starts with a non-separator lies at its start. */
  lemma PieceFirst(s: string, isSep: char -> bool)
    requires s != [] && !isSep(s[0])
    ensures var w := [s[0]] + SplitWhere(s[1..], isSep)[0];
            |w| <= |s| && s[..|w|] == w
  {
    var first := SplitWhere(s[1..], isSep)[0];
    PieceAtStart(s[1..], isSep);
    assert s[..1 + |first|] == [s[0]] + s[1..][..|first|];
  }

  /** A non-empty piece that is not the one made at the first character is a piece of the rest. */
  lemma PieceInRest(s: string, isSep: char -> bool, w: string)
    requires w in SplitWhere(s, isSep) && w != ""
    requires isSep(s[0]) || w != [s[0]] + SplitWhere(s[1..], isSep)[0]
    ensures w in SplitWhere(s[1..], isSep)
  {
    var rest := SplitWhere(s[1..], isSep);
    if !isSep(s[0]) {
      assert w in rest[1..];
    }
  }

  lemma {:induction false} PieceAtStart(s: string, isSep: char -> bool)
    ensures |SplitWhere(s, isSep)[0]| <= |s| && s[..|SplitWhere(s, isSep)[0]|] == SplitWhere(s, isSep)[0]
    decreases |s|
  {
    if s != [] {
      PieceAtStart(s[1..], isSep);
    }
  }

  /** `findRelevantSpecSections`' test: the section's title and content, lower-cased, contain a
      keyword; or the section is at level 1 or 2; or it mentions one of the task's files. */
  predicate SectionRelevant(section: SpecSection, keywords: seq<string>, files: seq<string>)
  {
    var text := Lower(section.title + " " + section.content);
    (exists k :: 0 <= k < |keywords| && Contains(text, keywords[k]))
    || section.level <= 2
    || (exists f :: 0 <= f < |files| && Contains(text, Lower(files[f])))
  }

  function RelevantFor(keywords: seq<string>, files: seq<string>): SpecSection -> bool
  {
    (s: SpecSection) => SectionRelevant(s, keywords, files)
  }

  function RelevantSections(sections: seq<SpecSection>, taskInfo: TaskInfo): seq<SpecSection>
  {
    Filter(sections, RelevantFor(ExtractKeywords(taskInfo.description), taskInfo.files))
  }

  lemma RelevantStep(done: seq<SpecSection>, section: SpecSection, keywords: seq<string>, files: seq<string>)
    ensures Filter(done + [section], RelevantFor(keywords, files)) ==
              Filter(done, RelevantFor(keywords, files)) + (if SectionRelevant(section, keywords, files) then [section] else [])
  {
    FilterAppend(done, section, RelevantFor(keywords, files));
  }

  /** `findRelevantSpecSections`. */
  method FindRelevantSpecSections(sections: seq<SpecSection>, taskInfo: TaskInfo)
    returns (relevant: seq<SpecSection>)
    ensures relevant == RelevantSections(sections, taskInfo)
  {
    var taskKeywords := ExtractKeywords(taskInfo.description);
    relevant := SelectSections(sections, taskKeywords, taskInfo.files);
  }

  /** The loop of `findRelevantSpecSections`, once the keywords are known. */
  method SelectSections(sections: seq<SpecSection>, taskKeywords: seq<string>, files: seq<string>)
    returns (relevant: seq<SpecSection>)
    ensures relevant == Filter(sections, RelevantFor(taskKeywords, files))
  {
    relevant := [];
    var i := 0;
    while i < |sections|
      invariant 0 <= i <= |sections|
      invariant relevant == Filter(sections[..i], RelevantFor(taskKeywords, files))
    {
      var section := sections[i];
      RelevantStep(sections[..i], section, taskKeywords, files);
      assert sections[..i + 1] == sections[..i] + [section];
      var sectionText := Lower(section.title + " " + section.content);
      var hasRelevantKeywords := exists k :: 0 <= k < |taskKeywords| && Contains(sectionText, taskKeywords[k]);
      var isHighLevel := section.level <= 2;
      var mentionsTaskFiles := exists f :: 0 <= f < |files| && Contains(sectionText, Lower(files[f]));
      if hasRelevantKeywords || isHighLevel || mentionsTaskFiles {
        relevant := relevant + [section];
      }
      i := i + 1;
    }
    assert sections[..|sections|] == sections;
  }

  /** The relevant sections are an order-preserving subsequence of the input holding exactly the
      sections that pass the test. */
  lemma RelevantSectionsSpec(sections: seq<SpecSection>, taskInfo: TaskInfo)
    ensures IsSubsequence(RelevantSections(sections, taskInfo), sections)
    ensures forall s :: s in sections ==>
              (s in RelevantSections(sections, taskInfo) <==>
                 SectionRelevant(s, ExtractKeywords(taskInfo.description), taskInfo.files))
  {
    FilterIsSubsequence(sections, RelevantFor(ExtractKeywords(taskInfo.description), taskInfo.files));
  }

  // =======================================================================================
  // Selection for one task

  function CriterionText(c: AcceptanceCriterion): string
  {
    c.id + ": " + c.description
  }

  function CriteriaTexts(cs: seq<AcceptanceCriterion>): (r: seq<string>)
    ensures |r| == |cs| && forall i :: 0 <= i < |cs| ==> r[i] == CriterionText(cs[i])
  {
    seq(|cs|, i requires 0 <= i < |cs| => CriterionText(cs[i]))
  }

  function Contents(ss: seq<SpecSection>): (r: seq<string>)
    ensures |r| == |ss| && forall i :: 0 <= i < |ss| ==> r[i] == ss[i].content
  {
    seq(|ss|, i requires 0 <= i < |ss| => ss[i].content)
  }

  /** What `extractForTask` returns. */
  datatype Extraction = Extraction(specSections: seq<string>, acceptanceCriteria: seq<string>,
                                   taskInfo: Option<TaskInfo>)

  /** `extractForTask`, with the three documents given as their text (`None` when the file is
      missing or cannot be read). Spec sections are selected only when a task record was found. */
  method ExtractForTask(tasksDoc: Option<string>, specDoc: Option<string>, acceptanceDoc: Option<string>,
                        taskId: string)
    returns (e: Extraction)
    ensures e == ExtractionOf(tasksDoc, specDoc, acceptanceDoc, taskId)
    ensures e.taskInfo == (if tasksDoc.Some? then TaskInfoOf(Split(tasksDoc.value, '\n'), taskId) else None)
    ensures e.specSections ==
              if specDoc.Some? && e.taskInfo.Some?
              then Contents(RelevantSections(SectionsOf(Split(specDoc.value, '\n')), e.taskInfo.value))
              else []
    ensures e.acceptanceCriteria ==
              if acceptanceDoc.Some? then CriteriaTexts(CriteriaOf(Split(acceptanceDoc.value, '\n'), taskId))
              else []
  {
    var specSections: seq<string> := [];
    var acceptanceCriteria: seq<string> := [];
    var taskInfo: Option<TaskInfo> := None;
    if tasksDoc.Some? {
      taskInfo := ParseTaskInfo(tasksDoc.value, taskId);
    }
    if specDoc.Some? && taskInfo.Some? {
      var allSections := ParseMarkdownSections(specDoc.value);
      var relevantSections := FindRelevantSpecSections(allSections, taskInfo.value);
      specSections := Contents(relevantSections);
    }
    if acceptanceDoc.Some? {
      var criteria := ParseAcceptanceCriteria(acceptanceDoc.value, taskId);
      acceptanceCriteria := CriteriaTexts(criteria);
    }
    e := Extraction(specSections, acceptanceCriteria, taskInfo);
  }

  /** What `extractForTask` returns for the three documents. */
  function ExtractionOf(tasksDoc: Option<string>, specDoc: Option<string>, acceptanceDoc: Option<string>,
                        taskId: string): Extraction
  {
    var taskInfo := if tasksDoc.Some? then TaskInfoOf(Split(tasksDoc.value, '\n'), taskId) else None;
    Extraction(
      if specDoc.Some? && taskInfo.Some?
      then Contents(RelevantSections(SectionsOf(Split(specDoc.value, '\n')), taskInfo.value))
      else [],
      if acceptanceDoc.Some? then CriteriaTexts(CriteriaOf(Split(acceptanceDoc.value, '\n'), taskId)) else [],
      taskInfo)
  }
}
