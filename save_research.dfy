/** The research saver: the topic becomes a snake-case folder name, the next free version number is
    found among the `output_v{n}.md` files already in that folder, and the research is written as
    markdown with a YAML front matter to `output_v{version}.md`. */
module SaveResearch {
  import opened Common
  import opened Text
  import opened PyNames

  // =======================================================================================
  // The folder

  /** `sanitize_topic`: the snake-case form of the topic, with no length cap. */
  function SanitizeTopic(topic: string): (r: string)
    ensures IsSnakeName(r)
  {
    SnakeCaseShape(topic);
    SnakeCase(topic)
  }

  /** The topic keeps its letters and digits, lower-cased, in order. */
  lemma SanitizeTopicKeepsAlnum(topic: string)
    ensures Alnums(SanitizeTopic(topic)) == Alnums(Lower(topic))
  {
    SnakeCaseKeepsAlnum(topic);
  }

  /** A folder name is its own folder name. */
  lemma SanitizeTopicIdempotent(topic: string)
    ensures SanitizeTopic(SanitizeTopic(topic)) == SanitizeTopic(topic)
  {
    SnakeCaseIdempotent(topic);
  }

  // =======================================================================================
  // Versions

  const Stem: string := "output_v"

  /** The file a version is written to. */
  function OutputFile(version: nat): string
  {
    Stem + NatToString(version) + ".md"
  }

  /** What `output_v(\d+)\.md` matches when tried at position `p` of `name`: the digit run after
      `output_v` is taken whole, since giving a digit back leaves a digit where `.` is needed. */
  function VersionAt(name: string, p: nat): Option<nat>
    requires p <= |name|
  {
    var rest := name[p..];
    if !StartsWith(rest, Stem) then None
    else
      var k := Span(rest[8..], IsDigit);
      if k > 0 && StartsWith(rest[8 + k..], ".md") then Some(DigitsValue(rest[8..8 + k])) else None
  }

  /** `re.search`: the match at the leftmost position from `p` on where there is one. */
  function Search(name: string, p: nat): Option<nat>
    requires p <= |name|
    decreases |name| - p
  {
    if VersionAt(name, p).Some? then VersionAt(name, p)
    else if p == |name| then None
    else Search(name, p + 1)
  }

  /** The version a listed file contributes: its name starts with `output_v` and the pattern occurs
      somewhere in it. */
  function FileVersion(name: string): Option<nat>
  {
    if StartsWith(name, Stem) then Search(name, 0) else None
  }

  /** The search finds the match at the leftmost position where there is one. */
  lemma {:induction false} SearchLeftmost(name: string, i: nat, p: nat)
    requires i <= p <= |name| && VersionAt(name, p).Some?
    requires forall q :: i <= q < p ==> VersionAt(name, q).None?
    ensures Search(name, i) == VersionAt(name, p)
    decreases p - i
  {
    if i < p {
      SearchLeftmost(name, i + 1, p);
    }
  }

  /** What the search returns is found at some position, and it finds nothing only when there is
      no match at any position. */
  lemma {:induction false} SearchFound(name: string, i: nat)
    requires i <= |name|
    ensures Search(name, i).Some? ==> exists q :: i <= q <= |name| && VersionAt(name, q) == Search(name, i)
    ensures Search(name, i).None? ==> forall q :: i <= q <= |name| ==> VersionAt(name, q).None?
    decreases |name| - i
  {
    if VersionAt(name, i).None? && i < |name| {
      SearchFound(name, i + 1);
    }
  }

  /** The search is not anchored: what follows `.md` is not looked at. */
  lemma TrailingTextIgnored(v: nat, tail: string)
    ensures FileVersion(OutputFile(v) + tail) == Some(v)
  {
    var digits := NatToString(v);
    var name := OutputFile(v) + tail;
    assert name == Stem + digits + ".md" + tail;
    assert name[0..][8..] == digits + ".md" + tail;
    SpanDigitsIs(digits + ".md" + tail, |digits|);
    assert name[0..][8 + |digits|..] == ".md" + tail;
    assert name[0..][8..8 + |digits|] == digits;
    DigitsValueOfNat(v);
  }

  lemma SpanDigitsIs(s: string, k: nat)
    requires k < |s| && !IsDigit(s[k]) && forall i :: 0 <= i < k ==> IsDigit(s[i])
    ensures Span(s, IsDigit) == k
  {
  }

  /** The name a version is saved under is read back as that version. */
  lemma OutputFileVersion(v: nat)
    ensures FileVersion(OutputFile(v)) == Some(v)
  {
    TrailingTextIgnored(v, "");
    assert OutputFile(v) + "" == OutputFile(v);
  }

  function VersionOfFile(name: string): seq<nat>
  {
    if FileVersion(name).Some? then [FileVersion(name).value] else []
  }

  function Versions(names: seq<string>): seq<nat>
  {
    if names == [] then [] else Versions(names[..|names| - 1]) + VersionOfFile(names[|names| - 1])
  }

  /** `get_next_version` on a listing of the topic folder. */
  function NextVersion(dirExists: bool, names: seq<string>): nat
  {
    if !dirExists then 1 else MaxOr0(Versions(names)) + 1
  }

  /** Every collected version comes from a listed file. */
  lemma {:induction false} VersionSource(names: seq<string>, n: nat) returns (k: nat)
    requires n in Versions(names)
    ensures k < |names| && FileVersion(names[k]) == Some(n)
    decreases |names|
  {
    var init := names[..|names| - 1];
    var last := VersionOfFile(names[|names| - 1]);
    assert Versions(names) == Versions(init) + last;
    if n in Versions(init) {
      k := VersionSource(init, n);
      assert init[k] == names[k];
    } else {
      assert n in last;
      k := |names| - 1;
    }
  }

  /** Every version of a listed file is collected. */
  lemma {:induction false} VersionCollected(names: seq<string>, k: nat)
    requires k < |names| && FileVersion(names[k]).Some?
    ensures FileVersion(names[k]).value in Versions(names)
    decreases |names|
  {
    var init := names[..|names| - 1];
    var last := VersionOfFile(names[|names| - 1]);
    assert Versions(names) == Versions(init) + last;
    if k < |init| {
      assert init[k] == names[k];
      VersionCollected(init, k);
    } else {
      assert FileVersion(names[k]).value in last;
    }
  }

  /** The next version is above the version of every listed file. */
  lemma NextVersionAbove(names: seq<string>, k: nat)
    requires k < |names| && FileVersion(names[k]).Some?
    ensures NextVersion(true, names) > FileVersion(names[k]).value
  {
    VersionCollected(names, k);
    var vs := Versions(names);
    var j :| 0 <= j < |vs| && vs[j] == FileVersion(names[k]).value;
  }

  /** It is the least such number: 1, or one more than the version of a listed file. */
  lemma NextVersionLeast(names: seq<string>)
    ensures var v := NextVersion(true, names);
            v == 1 || exists k :: 0 <= k < |names| && FileVersion(names[k]) == Some(v - 1)
  {
    var m := MaxOr0(Versions(names));
    if m != 0 {
      assert m in Versions(names);
      var k := VersionSource(names, m);
    }
  }

  /** Saving under the version the scan gives makes the next scan give the following number. */
  lemma SaveThenScan(names: seq<string>)
    ensures var v := NextVersion(true, names);
            NextVersion(true, names + [OutputFile(v)]) == v + 1
  {
    var v := NextVersion(true, names);
    var names' := names + [OutputFile(v)];
    OutputFileVersion(v);
    assert names'[..|names'| - 1] == names;
    var vs := Versions(names);
    assert Versions(names') == vs + [v];
    assert forall k :: 0 <= k < |vs| ==> (vs + [v])[k] == vs[k];
  }

  /** `get_next_version`: the versions of the matching files are collected in listing order. */
  method GetNextVersion(dirExists: bool, names: seq<string>) returns (v: nat)
    ensures v == NextVersion(dirExists, names)
  {
    if !dirExists {
      return 1;
    }
    var versions: seq<nat> := [];
    var i := 0;
    while i < |names|
      invariant 0 <= i <= |names|
      invariant versions == Versions(names[..i])
    {
      var name := names[i];
      assert names[..i + 1][..i] == names[..i];
      if StartsWith(name, Stem) {
        var m := Search(name, 0);
        if m.Some? {
          versions := versions + [m.value];
        }
      }
      i := i + 1;
    }
    assert names[..|names|] == names;
    v := MaxOr0(versions) + 1;
  }

  // =======================================================================================
  // The markdown

  /** A metadata value: a string, printed quoted, or anything else, printed as its JSON text. */
  datatype MetaValue = Text(s: string) | Json(rendered: string)

  function MetaLine(key: string, value: MetaValue): string
  {
    match value
    case Text(s) => Quoted(key, s)
    case Json(j) => key + ": " + j
  }

  /** The metadata lines, in the order of the entries. */
  function MetaLines(metadata: seq<(string, MetaValue)>): seq<string>
  {
    if metadata == [] then []
    else
      var (key, value) := metadata[|metadata| - 1];
      MetaLines(metadata[..|metadata| - 1]) + [MetaLine(key, value)]
  }

  /** One `- ` bullet per finding. */
  function Bullets(findings: seq<string>): seq<string>
  {
    if findings == [] then [] else Bullets(findings[..|findings| - 1]) + ["- " + findings[|findings| - 1]]
  }

  /** The sources numbered from 1. */
  function Numbered(sources: seq<string>): seq<string>
  {
    if sources == [] then []
    else Numbered(sources[..|sources| - 1]) + [NatToString(|sources|) + ". " + sources[|sources| - 1]]
  }

  /** Numbering the first `i` sources appends the `i`-th to the numbering of those before it. */
  lemma NumberedPrefix(sources: seq<string>, i: nat)
    requires 1 <= i <= |sources|
    ensures Numbered(sources[..i]) == Numbered(sources[..i - 1]) + [NatToString(i) + ". " + sources[i - 1]]
  {
    assert sources[..i][..i - 1] == sources[..i - 1];
  }

  lemma {:induction false} MetaLinesAt(metadata: seq<(string, MetaValue)>)
    ensures |MetaLines(metadata)| == |metadata|
    ensures forall k :: 0 <= k < |metadata| ==> MetaLines(metadata)[k] == MetaLine(metadata[k].0, metadata[k].1)
    decreases |metadata|
  {
    if metadata != [] {
      var init := metadata[..|metadata| - 1];
      MetaLinesAt(init);
      assert forall k :: 0 <= k < |init| ==> init[k] == metadata[k];
    }
  }

  lemma {:induction false} BulletsAt(findings: seq<string>)
    ensures |Bullets(findings)| == |findings|
    ensures forall k :: 0 <= k < |findings| ==> Bullets(findings)[k] == "- " + findings[k]
    decreases |findings|
  {
    if findings != [] {
      var init := findings[..|findings| - 1];
      BulletsAt(init);
      assert forall k :: 0 <= k < |init| ==> init[k] == findings[k];
    }
  }

  lemma {:induction false} NumberedAt(sources: seq<string>)
    ensures |Numbered(sources)| == |sources|
    ensures forall k :: 0 <= k < |sources| ==> Numbered(sources)[k] == NatToString(k + 1) + ". " + sources[k]
    decreases |sources|
  {
    if sources != [] {
      var init := sources[..|sources| - 1];
      NumberedAt(init);
      assert forall k :: 0 <= k < |init| ==> init[k] == sources[k];
    }
  }

  /** The front matter: topic, version, creation time, then the metadata, between `---` lines,
      followed by a blank line. */
  function Frontmatter(topic: string, version: nat, created: string, metadata: seq<(string, MetaValue)>)
    : seq<string>
  {
    ["---", Quoted("topic", topic), "version: " + NatToString(version), Quoted("created", created)]
    + MetaLines(metadata) + ["---", ""]
  }

  /** The Key Findings section, present only when there are findings. */
  function FindingsSection(findings: seq<string>): seq<string>
  {
    if findings == [] then [] else ["## Key Findings", ""] + Bullets(findings) + [""]
  }

  /** The Sources section, present only when there are sources. */
  function SourcesSection(sources: seq<string>): seq<string>
  {
    if sources == [] then [] else ["## Sources", ""] + Numbered(sources) + [""]
  }

  /** The lines `save_research` writes. */
  function ResearchMarkdown(topic: string, version: nat, created: string, metadata: seq<(string, MetaValue)>,
                            findings: seq<string>, content: string, sources: seq<string>): seq<string>
  {
    Frontmatter(topic, version, created, metadata) + ["# " + topic, ""] + FindingsSection(findings)
    + ["## Research", "", content, ""] + SourcesSection(sources)
  }

  /** The front matter records the version of the file: its third line reads back as `version`.
      The metadata follow the fixed lines in entry order. */
  lemma FrontmatterShape(topic: string, version: nat, created: string, metadata: seq<(string, MetaValue)>)
    ensures var fm := Frontmatter(topic, version, created, metadata);
            && |fm| == |metadata| + 6 && fm[0] == "---" && fm[|fm| - 2] == "---"
            && StartsWith(fm[2], "version: ") && DigitsValue(fm[2][9..]) == version
            && forall k :: 0 <= k < |metadata| ==> fm[4 + k] == MetaLine(metadata[k].0, metadata[k].1)
  {
    var fm := Frontmatter(topic, version, created, metadata);
    MetaLinesAt(metadata);
    assert fm[2][9..] == NatToString(version);
    DigitsValueOfNat(version);
  }

  /** The Key Findings section is there iff there are findings, and then lists them as bullets in
      order. */
  lemma FindingsSectionShape(findings: seq<string>)
    ensures var sec := FindingsSection(findings);
            && (sec == [] <==> findings == [])
            && (findings != [] ==>
                  && |sec| == |findings| + 3 && sec[0] == "## Key Findings" && sec[|sec| - 1] == ""
                  && forall k :: 0 <= k < |findings| ==> sec[2 + k] == "- " + findings[k])
  {
    BulletsAt(findings);
  }

  /** The Sources section is there iff there are sources, and then numbers them from 1 in order. */
  lemma SourcesSectionShape(sources: seq<string>)
    ensures var sec := SourcesSection(sources);
            && (sec == [] <==> sources == [])
            && (sources != [] ==>
                  && |sec| == |sources| + 3 && sec[0] == "## Sources" && sec[|sec| - 1] == ""
                  && forall k :: 0 <= k < |sources| ==> sec[2 + k] == NatToString(k + 1) + ". " + sources[k])
  {
    NumberedAt(sources);
  }

  /** What `save_research` reports and writes. */
  datatype ResearchSaved = ResearchSaved(folder: string, fileName: string, version: nat, lines: seq<string>)

  /** `save_research` on the listing of the topic folder, which it has just created. */
  method Save(topic: string, content: string, sources: seq<string>, findings: seq<string>,
              metadata: seq<(string, MetaValue)>, listing: seq<string>, created: string)
    returns (r: ResearchSaved)
    ensures r.folder == SanitizeTopic(topic)
    ensures r.version == NextVersion(true, listing) && r.fileName == OutputFile(r.version)
    ensures r.lines == ResearchMarkdown(topic, r.version, created, metadata, findings, content, sources)
  {
    var folder := SanitizeTopic(topic);
    var version := GetNextVersion(true, listing);
    var fileName := Stem + NatToString(version) + ".md";
    var lines := FrontmatterLines(topic, version, created, metadata);
    lines := lines + ["# " + topic, ""];
    var findingLines := FindingsLines(findings);
    lines := lines + findingLines;
    lines := lines + ["## Research", "", content, ""];
    var sourceLines := SourcesLines(sources);
    lines := lines + sourceLines;
    r := ResearchSaved(folder, fileName, version, lines);
  }

  /** The front-matter lines, the metadata entries appended in order. */
  method FrontmatterLines(topic: string, version: nat, created: string, metadata: seq<(string, MetaValue)>)
    returns (lines: seq<string>)
    ensures lines == Frontmatter(topic, version, created, metadata)
  {
    lines := ["---", Quoted("topic", topic), "version: " + NatToString(version), Quoted("created", created)];
    ghost var head := lines;
    for i := 0 to |metadata|
      invariant lines == head + MetaLines(metadata[..i])
    {
      assert metadata[..i + 1][..i] == metadata[..i];
      var (key, value) := metadata[i];
      match value {
        case Text(s) => lines := lines + [Quoted(key, s)];
        case Json(j) => lines := lines + [key + ": " + j];
      }
    }
    assert metadata[..|metadata|] == metadata;
    lines := lines + ["---", ""];
  }

  /** The Key Findings section: a heading, one bullet per finding, a blank line; nothing without
      findings. */
  method FindingsLines(findings: seq<string>) returns (lines: seq<string>)
    ensures lines == FindingsSection(findings)
  {
    lines := [];
    if findings != [] {
      lines := lines + ["## Key Findings", ""];
      ghost var before := lines;
      for i := 0 to |findings|
        invariant lines == before + Bullets(findings[..i])
      {
        assert findings[..i + 1][..i] == findings[..i];
        lines := lines + ["- " + findings[i]];
      }
      assert findings[..|findings|] == findings;
      lines := lines + [""];
    }
  }

  /** The Sources section: a heading, the sources numbered from 1, a blank line; nothing without
      sources. */
  method SourcesLines(sources: seq<string>) returns (lines: seq<string>)
    ensures lines == SourcesSection(sources)
  {
    lines := [];
    if sources != [] {
      lines := lines + ["## Sources", ""];
      ghost var before := lines;
      for i := 1 to |sources| + 1
        invariant lines == before + Numbered(sources[..i - 1])
      {
        NumberedPrefix(sources, i);
        lines := lines + [NatToString(i) + ". " + sources[i - 1]];
      }
      assert sources[..|sources|] == sources;
      lines := lines + [""];
    }
  }
}
