/** The YouTube query saver: a short snake-case subject is drawn from the question, the next free
    version number is found among the files already saved, and the answer is written as markdown
    with a YAML front matter to `{subject}_v{version}.md`. */
module SaveYtQuery {
  import opened Common
  import opened Text
  import opened PyNames

  // =======================================================================================
  // File names

  /** The default `max_length`. */
  const MaxNameLength: nat := 50

  /** `sanitize_filename`: the snake-case form of the text, cut to `maxLength` characters with the
      underscores the cut leaves at the end stripped. */
  function SanitizeFilename(text: string, maxLength: nat): (r: string)
    ensures |r| <= maxLength
    ensures IsSnakeName(r)
    ensures StartsWith(SnakeCase(text), r)
    ensures |SnakeCase(text)| <= maxLength ==> r == SnakeCase(text)
    ensures forall i :: |r| <= i < maxLength && i < |SnakeCase(text)| ==> SnakeCase(text)[i] == '_'
    ensures maxLength > 0 && SnakeCase(text) != [] ==> r != []
  {
    var s := SnakeCase(text);
    SnakeCaseShape(text);
    if |s| > maxLength then
      CutSnakeName(s, maxLength);
      TrimRight(s[..maxLength], IsUnderscore)
    else s
  }

  /** Cutting a snake-case name and stripping the underscores left at the end gives a prefix that
      is itself a snake-case name, non-empty when the cut keeps a character, and drops only
      underscores before the cut. */
  lemma CutSnakeName(s: string, maxLength: nat)
    requires IsSnakeName(s) && maxLength < |s|
    ensures var r := TrimRight(s[..maxLength], IsUnderscore);
      IsSnakeName(r) && StartsWith(s, r)
      && (forall i :: |r| <= i < maxLength ==> s[i] == '_')
      && (maxLength > 0 ==> r != [])
  {
    var cut := s[..maxLength];
    var r := TrimRight(cut, IsUnderscore);
    TrimRightDropped(cut, IsUnderscore);
    assert forall i :: 0 <= i < |cut| ==> cut[i] == s[i];
    assert forall i :: 0 <= i < |r| ==> r[i] == s[i];
  }

  /** The words `extract_query_subject` drops. */
  const RemoveWords: seq<string> :=
    ["what", "which", "who", "where", "when", "why", "how", "are", "is", "the", "a", "an", "in",
     "this", "video", "about", "does", "do", "can", "could", "would", "should", "most",
     "important", "main", "key", "top", "best"]

  predicate Kept(w: string) { w !in RemoveWords }

  /** The first six whitespace-separated words of the lower-cased question that are not among the
      removed words: the kept words, in order, cut after the sixth. */
  function SubjectWords(query: string): (ws: seq<string>)
    ensures |ws| <= 6
    ensures forall k :: 0 <= k < |ws| ==> ws[k] in PyWords(Lower(query)) && ws[k] !in RemoveWords
    ensures |ws| == if |Filter(PyWords(Lower(query)), Kept)| < 6 then |Filter(PyWords(Lower(query)), Kept)| else 6
    ensures ws == Filter(PyWords(Lower(query)), Kept)[..|ws|]
  {
    var filtered := Filter(PyWords(Lower(query)), Kept);
    var ws := if |filtered| <= 6 then filtered else filtered[..6];
    assert forall k :: 0 <= k < |ws| ==> ws[k] in filtered;
    ws
  }

  /** A kept word of the question with fewer than six kept words before it is a subject word, at
      the rank it has among the kept words. */
  lemma KeptWordRank(query: string, j: nat)
    requires j < |PyWords(Lower(query))| && Kept(PyWords(Lower(query))[j])
    requires |Filter(PyWords(Lower(query))[..j], Kept)| < 6
    ensures |Filter(PyWords(Lower(query))[..j], Kept)| < |SubjectWords(query)|
    ensures SubjectWords(query)[|Filter(PyWords(Lower(query))[..j], Kept)|] == PyWords(Lower(query))[j]
  {
    FilterRank(PyWords(Lower(query)), j, Kept);
  }

  /** `extract_query_subject`: the subject words joined with `_` and sanitised, or `query` when
      that leaves nothing. */
  function ExtractQuerySubject(query: string): (r: string)
    ensures r != [] && |r| <= MaxNameLength && IsSnakeName(r)
    ensures SnakeCase(Join(SubjectWords(query), "_")) == [] ==> r == "query"
    ensures SnakeCase(Join(SubjectWords(query), "_")) != [] ==> r == SanitizeFilename(Join(SubjectWords(query), "_"), MaxNameLength)
  {
    var s := SanitizeFilename(Join(SubjectWords(query), "_"), MaxNameLength);
    QueryIsSnakeName();
    if s == [] then "query" else s
  }

  /** When the subject words are snake-case names that join to at most fifty characters, the
      subject is exactly their join. */
  lemma SnakeWordsSubject(query: string)
    requires SubjectWords(query) != []
    requires forall k :: 0 <= k < |SubjectWords(query)| ==> IsSnakeName(SubjectWords(query)[k])
    requires |Join(SubjectWords(query), "_")| <= MaxNameLength
    ensures ExtractQuerySubject(query) == Join(SubjectWords(query), "_")
  {
    var ws := SubjectWords(query);
    assert forall k :: 0 <= k < |ws| ==> ws[k] != [] by {
      assert forall k :: 0 <= k < |ws| ==> ws[k] in PyWords(Lower(query));
    }
    JoinSnakeNames(ws);
    SnakeNameFixed(Join(ws, "_"));
  }

  lemma QueryIsSnakeName()
    ensures IsSnakeName("query")
  {
    var q := "query";
    assert q[0] == 'q' && q[1] == 'u' && q[2] == 'e' && q[3] == 'r' && q[4] == 'y';
  }

  /** A question made only of removed words is saved under `query`. */
  lemma OnlyRemovedWords(query: string)
    requires forall k :: 0 <= k < |PyWords(Lower(query))| ==> PyWords(Lower(query))[k] in RemoveWords
    ensures ExtractQuerySubject(query) == "query"
  {
    var words := PyWords(Lower(query));
    NoneKept(words);
    assert SubjectWords(query) == [];
    assert Join([], "_") == "";
    assert SnakeCase("") == "";
    assert SanitizeFilename("", MaxNameLength) == "";
  }

  lemma {:induction false} NoneKept(words: seq<string>)
    requires forall k :: 0 <= k < |words| ==> words[k] in RemoveWords
    ensures Filter(words, Kept) == []
    decreases |words|
  {
    if words != [] {
      assert !Kept(words[0]);
      assert forall k :: 0 <= k < |words[1..]| ==> words[1..][k] == words[k + 1];
      NoneKept(words[1..]);
    }
  }

  /** The file a query is saved to. */
  function OutputName(subject: string, version: nat): string
  {
    subject + "_v" + NatToString(version) + ".md"
  }

  // =======================================================================================
  // Versions

  /** `re.search(r"_v(\d+)\.md$", name)`: `$` also matches before a final newline; the digits are
      the whole run between `_v` and `.md`. */
  function VersionSuffix(name: string): Option<nat>
  {
    var t := if name != [] && name[|name| - 1] == '\n' then name[..|name| - 1] else name;
    if !EndsWith(t, ".md") then None
    else
      var body := t[..|t| - 3];
      var k := TrailingDigits(body);
      if k == 0 || !EndsWith(body[..|body| - k], "_v") then None
      else Some(DigitsValue(body[|body| - k..]))
  }

  /** The version a listed name contributes: one when it starts with the subject and matches. */
  function VersionOf(name: string, baseName: string): seq<nat>
  {
    if StartsWith(name, baseName) && VersionSuffix(name).Some? then [VersionSuffix(name).value] else []
  }

  function Versions(names: seq<string>, baseName: string): seq<nat>
  {
    if names == [] then []
    else Versions(names[..|names| - 1], baseName) + VersionOf(names[|names| - 1], baseName)
  }

  /** `get_next_version` on a directory listing. */
  function NextVersion(dirExists: bool, names: seq<string>, baseName: string): nat
  {
    if !dirExists then 1 else MaxOr0(Versions(names, baseName)) + 1
  }

  /** Every collected version number comes from a listed name. */
  lemma {:induction false} VersionSource(names: seq<string>, baseName: string, n: nat) returns (k: nat)
    requires n in Versions(names, baseName)
    ensures k < |names| && VersionOf(names[k], baseName) == [n]
    decreases |names|
  {
    var init := names[..|names| - 1];
    var last := VersionOf(names[|names| - 1], baseName);
    assert Versions(names, baseName) == Versions(init, baseName) + last;
    if n in Versions(init, baseName) {
      k := VersionSource(init, baseName, n);
      assert init[k] == names[k];
    } else {
      assert n in last;
      k := |names| - 1;
    }
  }

  /** Every version a listed name contributes is collected. */
  lemma {:induction false} VersionCollected(names: seq<string>, baseName: string, n: nat, k: nat)
    requires k < |names| && VersionOf(names[k], baseName) == [n]
    ensures n in Versions(names, baseName)
    decreases |names|
  {
    var init := names[..|names| - 1];
    var last := VersionOf(names[|names| - 1], baseName);
    assert Versions(names, baseName) == Versions(init, baseName) + last;
    if k < |init| {
      assert init[k] == names[k];
      VersionCollected(init, baseName, n, k);
    } else {
      assert n in last;
    }
  }

  /** A version number is collected iff some listed name contributes it. */
  lemma VersionsSpec(names: seq<string>, baseName: string, n: nat)
    ensures n in Versions(names, baseName) <==> exists k :: 0 <= k < |names| && VersionOf(names[k], baseName) == [n]
  {
    if n in Versions(names, baseName) {
      var k := VersionSource(names, baseName, n);
    }
    if exists k :: 0 <= k < |names| && VersionOf(names[k], baseName) == [n] {
      var k :| 0 <= k < |names| && VersionOf(names[k], baseName) == [n];
      VersionCollected(names, baseName, n, k);
    }
  }

  /** The next version is above every version already saved under a name with the subject's prefix. */
  lemma NextVersionAbove(names: seq<string>, baseName: string, k: nat)
    requires k < |names| && StartsWith(names[k], baseName) && VersionSuffix(names[k]).Some?
    ensures NextVersion(true, names, baseName) > VersionSuffix(names[k]).value
  {
    var n := VersionSuffix(names[k]).value;
    VersionsSpec(names, baseName, n);
    var vs := Versions(names, baseName);
    var j :| 0 <= j < |vs| && vs[j] == n;
  }

  /** It is the least such number: 1, or one more than a version already saved. */
  lemma NextVersionLeast(names: seq<string>, baseName: string)
    ensures var v := NextVersion(true, names, baseName);
            v == 1 || exists k :: 0 <= k < |names| && VersionOf(names[k], baseName) == [v - 1]
  {
    var m := MaxOr0(Versions(names, baseName));
    if m != 0 {
      assert m in Versions(names, baseName);
      VersionsSpec(names, baseName, m);
    }
  }

  /** `OutputName` is read back by the version scan. */
  lemma OutputNameVersion(subject: string, version: nat)
    ensures VersionSuffix(OutputName(subject, version)) == Some(version)
    ensures StartsWith(OutputName(subject, version), subject)
  {
    var digits := NatToString(version);
    var name := OutputName(subject, version);
    var body := subject + "_v" + digits;
    assert name == body + ".md";
    assert name[|name| - 1] == 'd';
    assert name[..|name| - 3] == body;
    DigitSuffixIs(body, |digits|);
    assert body[..|body| - |digits|] == subject + "_v";
    assert body[|body| - |digits|..] == digits;
    DigitsValueOfNat(version);
    assert name[..|subject|] == subject;
  }

  lemma DigitSuffixIs(s: string, k: nat)
    requires k < |s| && !IsDigit(s[|s| - k - 1]) && forall i :: |s| - k <= i < |s| ==> IsDigit(s[i])
    ensures TrailingDigits(s) == k
  {
  }

  /** Saving under the version the scan gives makes the next scan give the following number. */
  lemma SaveThenScan(names: seq<string>, subject: string)
    ensures var v := NextVersion(true, names, subject);
            NextVersion(true, names + [OutputName(subject, v)], subject) == v + 1
  {
    var v := NextVersion(true, names, subject);
    var names' := names + [OutputName(subject, v)];
    OutputNameVersion(subject, v);
    assert names'[..|names'| - 1] == names;
    var vs := Versions(names, subject);
    assert Versions(names', subject) == vs + [v];
    assert forall k :: 0 <= k < |vs| ==> (vs + [v])[k] == vs[k];
  }

  /** A subject that is a prefix of another shares its versions: `ai` counts `ai_tools_v3.md`. */
  lemma PrefixSubjectsShareVersions()
    ensures NextVersion(true, ["ai_tools_v3.md"], "ai") == 4
  {
    var name := "ai_tools_v3.md";
    assert name == "ai_tools" + "_v" + NatToString(3) + ".md";
    OutputNameVersion("ai_tools", 3);
    assert StartsWith(name, "ai");
    assert ["ai_tools_v3.md"][..0] == [];
  }

  /** `get_next_version`: the matching names' versions are collected in listing order. */
  method GetNextVersion(dirExists: bool, names: seq<string>, baseName: string) returns (v: nat)
    ensures v == NextVersion(dirExists, names, baseName)
  {
    if !dirExists {
      return 1;
    }
    var versions: seq<nat> := [];
    var i := 0;
    while i < |names|
      invariant 0 <= i <= |names|
      invariant versions == Versions(names[..i], baseName)
    {
      var name := names[i];
      assert names[..i + 1][..i] == names[..i];
      if StartsWith(name, baseName) {
        var m := VersionSuffix(name);
        if m.Some? {
          versions := versions + [m.value];
        }
      }
      i := i + 1;
    }
    assert names[..|names|] == names;
    v := MaxOr0(versions) + 1;
  }

  // =======================================================================================
  // The markdown

  predicate IsLetter(c: char) { IsUpper(c) || IsLowerLetter(c) }

  /** `str.title()`: a letter is upper-cased after a non-letter and lower-cased after a letter. */
  function TitleFrom(s: string, afterLetter: bool): (r: string)
    ensures |r| == |s|
    ensures forall i :: 0 <= i < |s| && !IsLetter(s[i]) ==> r[i] == s[i]
    ensures forall i :: 0 <= i < |s| && IsLetter(s[i]) ==>
      IsLetter(r[i]) && LowerChar(r[i]) == LowerChar(s[i]) && (IsUpper(r[i]) <==> !AfterLetter(s, i, afterLetter))
    decreases |s|
  {
    if s == [] then []
    else
      var c := s[0];
      var rest := TitleFrom(s[1..], IsLetter(c));
      assert forall i :: 1 <= i < |s| ==> AfterLetter(s, i, afterLetter) == AfterLetter(s[1..], i - 1, IsLetter(c));
      [if !IsLetter(c) then c else if afterLetter then LowerChar(c) else UpperChar(c)] + rest
  }

  /** Whether the character before position `i` is a letter; before the first one, `afterLetter`. */
  predicate AfterLetter(s: string, i: nat, afterLetter: bool)
    requires i < |s|
  {
    if i == 0 then afterLetter else IsLetter(s[i - 1])
  }

  function Title(s: string): string { TitleFrom(s, false) }

  /** `subject.replace('_', ' ')`. */
  function Spaced(s: string): (r: string)
    ensures |r| == |s| && forall i :: 0 <= i < |s| ==> r[i] == if s[i] == '_' then ' ' else s[i]
  {
    seq(|s|, i requires 0 <= i < |s| => if s[i] == '_' then ' ' else s[i])
  }

  /** Title-casing changes only the case of letters. */
  lemma {:induction false} TitleOnlyChangesCase(s: string, afterLetter: bool)
    ensures Lower(TitleFrom(s, afterLetter)) == Lower(s)
    decreases |s|
  {
    if s != [] {
      TitleOnlyChangesCase(s[1..], IsLetter(s[0]));
      var r := TitleFrom(s, afterLetter);
      assert LowerChar(r[0]) == LowerChar(s[0]);
      assert r[1..] == TitleFrom(s[1..], IsLetter(s[0]));
      assert Lower(r) == [LowerChar(r[0])] + Lower(r[1..]);
      assert Lower(s) == [LowerChar(s[0])] + Lower(s[1..]);
    }
  }

  /** A Python value is truthy: `video_id` is given and not empty. */
  predicate Truthy(videoId: Option<string>) { videoId.Some? && videoId.value != [] }

  /** The YAML front matter: between two `---` lines, the URL, the video identifier when it is
      truthy, the question, the date and the creation time. */
  function Frontmatter(videoUrl: string, videoId: Option<string>, query: string, date: string, created: string)
    : (fm: seq<string>)
    ensures |fm| == if Truthy(videoId) then 7 else 6
    ensures fm[0] == "---" && fm[|fm| - 1] == "---"
    ensures Truthy(videoId) <==> exists i :: 0 < i < |fm| - 1 && StartsWith(fm[i], "video_id: ")
  {
    var idLine := if Truthy(videoId) then [Quoted("video_id", videoId.value)] else [];
    var fm := ["---", Quoted("video_url", videoUrl)] + idLine
              + [Quoted("query", query), Quoted("date", date), Quoted("created", created), "---"];
    KeyLinePrefixes(videoUrl, if Truthy(videoId) then videoId.value else "", query, date, created);
    assert Truthy(videoId) ==> StartsWith(fm[2], "video_id: ");
    fm
  }

  /** Only the `video_id` line of the front matter starts with `video_id: `. */
  lemma KeyLinePrefixes(videoUrl: string, videoId: string, query: string, date: string, created: string)
    ensures StartsWith(Quoted("video_id", videoId), "video_id: ")
    ensures !StartsWith(Quoted("video_url", videoUrl), "video_id: ")
    ensures !StartsWith(Quoted("query", query), "video_id: ")
    ensures !StartsWith(Quoted("date", date), "video_id: ")
    ensures !StartsWith(Quoted("created", created), "video_id: ")
  {
    var p := "video_id: ";
    assert Quoted("video_id", videoId)[..10] == p;
    assert Quoted("video_url", videoUrl)[6] == 'u' != p[6];
    assert Quoted("query", query)[0] == 'q' != p[0];
    assert Quoted("date", date)[0] == 'd' != p[0];
    assert Quoted("created", created)[0] == 'c' != p[0];
  }

  /** The lines `save_yt_query` writes. */
  function QueryMarkdown(videoUrl: string, videoId: Option<string>, query: string, answer: string,
                         subject: string, date: string, created: string): seq<string>
  {
    Frontmatter(videoUrl, videoId, query, date, created)
    + ["", "# YouTube Query: " + Title(Spaced(subject)), ""]
    + ["## Query", "", query, ""]
    + ["## Source", "", "[Watch Video](" + videoUrl + ")", ""]
    + ["## Answer", "", answer, ""]
  }

  /** The answer is the last thing written, after the question and the video link, in that order. */
  lemma QueryMarkdownLayout(videoUrl: string, videoId: Option<string>, query: string, answer: string,
                            subject: string, date: string, created: string)
    ensures var lines := QueryMarkdown(videoUrl, videoId, query, answer, subject, date, created);
            var f := |Frontmatter(videoUrl, videoId, query, date, created)|;
            && |lines| == f + 15
            && lines[f + 1] == "# YouTube Query: " + Title(Spaced(subject))
            && lines[f + 3] == "## Query" && lines[f + 5] == query
            && lines[f + 7] == "## Source" && lines[f + 9] == "[Watch Video](" + videoUrl + ")"
            && lines[f + 11] == "## Answer" && lines[f + 13] == answer && lines[f + 14] == ""
  {
  }

  /** What `save_yt_query` reports and writes: the file name, the version and the lines. */
  datatype QuerySaved = QuerySaved(fileName: string, version: nat, lines: seq<string>)

  /** `save_yt_query` on the listing of the output directory, which it has just created. */
  method Save(videoUrl: string, query: string, answer: string, videoId: Option<string>,
              listing: seq<string>, date: string, created: string) returns (r: QuerySaved)
    ensures var subject := ExtractQuerySubject(query);
            && r.version == NextVersion(true, listing, subject)
            && r.fileName == OutputName(subject, r.version)
            && r.lines == QueryMarkdown(videoUrl, videoId, query, answer, subject, date, created)
  {
    var subject := ExtractQuerySubject(query);
    var version := GetNextVersion(true, listing, subject);
    var fileName := subject + "_v" + NatToString(version) + ".md";
    // The front matter
    var lines: seq<string> := ["---", Quoted("video_url", videoUrl)];
    if Truthy(videoId) {
      lines := lines + [Quoted("video_id", videoId.value)];
    }
    lines := lines + [Quoted("query", query), Quoted("date", date), Quoted("created", created), "---"];
    // The title, then the question, the video link and the answer, each under its heading
    assert lines == Frontmatter(videoUrl, videoId, query, date, created);
    lines := lines + ["", "# YouTube Query: " + Title(Spaced(subject)), ""];
    lines := lines + ["## Query", "", query, ""];
    lines := lines + ["## Source", "", "[Watch Video](" + videoUrl + ")", ""];
    lines := lines + ["## Answer", "", answer, ""];
    r := QuerySaved(fileName, version, lines);
  }
}
