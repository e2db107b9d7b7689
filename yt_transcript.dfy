/** The video identifier rule of the YouTube transcript tool: an 11-character identifier is taken
    from a watch, short, embed or `/v/` URL, or the argument is taken as a bare identifier; without
    one the transcript request stops with an error before any call to the transcript service. */
module YtTranscript {
  import opened Common
  import opened Text

  /** `[a-zA-Z0-9_-]`. */
  predicate IsIdChar(c: char) { IsUpper(c) || IsLowerLetter(c) || IsDigit(c) || c == '_' || c == '-' }

  const IdLength: nat := 11

  predicate IsVideoId(s: string)
  {
    |s| == IdLength && forall i :: 0 <= i < |s| ==> IsIdChar(s[i])
  }

  const Host: string := "youtube.com/"

  /** The URL forms of the first pattern, in the order of its alternation. */
  const Prefixes: seq<string> := [Host + "watch?v=", "youtu.be/", Host + "embed/", Host + "v/"]

  /** The 11 identifier characters at position `p`, if there are that many there. */
  function IdRun(url: string, p: nat): Option<string>
    requires p <= |url|
  {
    if p + IdLength <= |url| && IsVideoId(url[p..p + IdLength]) then Some(url[p..p + IdLength]) else None
  }

  /** The first alternative among `alts` that matches at `p` followed by an identifier. */
  function IdAfter(url: string, p: nat, alts: seq<string>): (r: Option<string>)
    requires p <= |url|
    ensures r.Some? ==> IsVideoId(r.value)
    decreases |alts|
  {
    if alts == [] then None
    else if StartsWith(url[p..], alts[0]) && IdRun(url, p + |alts[0]|).Some? then IdRun(url, p + |alts[0]|)
    else IdAfter(url, p, alts[1..])
  }

  /** What the first pattern matches when tried at position `p`. */
  function IdAt(url: string, p: nat): (r: Option<string>)
    requires p <= |url|
  {
    IdAfter(url, p, Prefixes)
  }

  /** `re.search` with the first pattern: the match at the leftmost position from `p` on. */
  function SearchId(url: string, p: nat): (r: Option<string>)
    requires p <= |url|
    ensures r.Some? ==> IsVideoId(r.value)
    decreases |url| - p
  {
    if IdAt(url, p).Some? then IdAt(url, p)
    else if p == |url| then None
    else SearchId(url, p + 1)
  }

  /** `re.search(r"^([a-zA-Z0-9_-]{11})$", url)`: the whole argument is an identifier; `$` also
      matches before a final newline. */
  function BareId(url: string): (r: Option<string>)
    ensures r.Some? ==> IsVideoId(r.value)
  {
    if IsVideoId(url) then Some(url)
    else if |url| == IdLength + 1 && url[IdLength] == '\n' && IsVideoId(url[..IdLength]) then Some(url[..IdLength])
    else None
  }

  /** `extract_video_id`: the first pattern anywhere in the URL, else the bare identifier. */
  function ExtractVideoId(url: string): (r: Option<string>)
    ensures r.Some? ==> IsVideoId(r.value)
  {
    if SearchId(url, 0).Some? then SearchId(url, 0) else BareId(url)
  }

  /** The search finds the match at the leftmost position where there is one. */
  lemma {:induction false} SearchIdLeftmost(url: string, i: nat, p: nat)
    requires i <= p <= |url| && IdAt(url, p).Some?
    requires forall q :: i <= q < p ==> IdAt(url, q).None?
    ensures SearchId(url, i) == IdAt(url, p)
    decreases p - i
  {
    if i < p {
      SearchIdLeftmost(url, i + 1, p);
    }
  }

  /** The search finds nothing only when the pattern matches at no position. */
  lemma {:induction false} SearchIdNone(url: string, i: nat)
    requires i <= |url|
    ensures SearchId(url, i).None? <==> forall q :: i <= q <= |url| ==> IdAt(url, q).None?
    decreases |url| - i
  {
    if IdAt(url, i).None? && i < |url| {
      SearchIdNone(url, i + 1);
    }
  }

  /** No identifier is extracted iff neither pattern matches. */
  lemma NoIdIff(url: string)
    ensures ExtractVideoId(url).None? <==> (forall q :: 0 <= q <= |url| ==> IdAt(url, q).None?) && BareId(url).None?
  {
    SearchIdNone(url, 0);
  }

  /** One of the URL forms followed by an identifier, with anything after it: the identifier is
      what is extracted. */
  lemma {:induction false} PrefixedId(url: string, p: nat, i: nat, id: string)
    requires i < |Prefixes| && IsVideoId(id)
    requires p + |Prefixes[i]| + IdLength <= |url|
    requires url[p..p + |Prefixes[i]|] == Prefixes[i] && url[p + |Prefixes[i]|..p + |Prefixes[i]| + IdLength] == id
    requires forall q :: 0 <= q < p ==> IdAt(url, q).None?
    ensures ExtractVideoId(url) == Some(id)
  {
    var pre := Prefixes[i];
    assert StartsWith(url[p..], pre) by {
      assert url[p..][..|pre|] == url[p..p + |pre|];
    }
    assert IdRun(url, p + |pre|) == Some(id);
    PrefixesExclusive(url[p..], i);
    IdAfterFinds(url, p, Prefixes, i);
    SearchIdLeftmost(url, 0, p);
  }

  /** The alternation takes the first alternative that matches followed by an identifier. */
  lemma {:induction false} IdAfterFinds(url: string, p: nat, alts: seq<string>, i: nat)
    requires p <= |url| && i < |alts|
    requires StartsWith(url[p..], alts[i]) && IdRun(url, p + |alts[i]|).Some?
    requires forall j :: 0 <= j < i ==> !StartsWith(url[p..], alts[j])
    ensures IdAfter(url, p, alts) == IdRun(url, p + |alts[i]|)
    decreases i
  {
    if i > 0 {
      assert forall j :: 0 <= j < i - 1 ==> alts[1..][j] == alts[j + 1];
      IdAfterFinds(url, p, alts[1..], i - 1);
    }
  }

  /** At most one URL form matches at a position: no form is a prefix of another. */
  lemma PrefixesExclusive(s: string, i: nat)
    requires i < |Prefixes| && StartsWith(s, Prefixes[i])
    ensures forall j :: 0 <= j < |Prefixes| && j != i ==> !StartsWith(s, Prefixes[j])
  {
    var ps := Prefixes;
    assert ps[0][5] == 'b' && ps[1][5] == '.' && ps[2][5] == 'b' && ps[3][5] == 'b';
    assert ps[0][12] == 'w' && ps[2][12] == 'e' && ps[3][12] == 'v';
    assert s[5] == ps[i][5];
    if i != 1 {
      assert s[12] == ps[i][12];
    }
  }

  /** The identifier of a link that begins with the URL form: trailing parameters are ignored. */
  lemma LinkId(i: nat, id: string, tail: string)
    requires i < |Prefixes| && IsVideoId(id)
    ensures ExtractVideoId(Prefixes[i] + id + tail) == Some(id)
  {
    var url := Prefixes[i] + id + tail;
    var n := |Prefixes[i]|;
    assert url[0..n] == Prefixes[i];
    assert url[n..n + IdLength] == id;
    PrefixedId(url, 0, i, id);
  }

  /** Every URL form starts with `y`, so whatever precedes the form in a link, such as
      `https://www.`, is passed over when it holds no `y`. */
  lemma SchemeIgnored(scheme: string, i: nat, id: string, tail: string)
    requires i < |Prefixes| && IsVideoId(id)
    requires forall k :: 0 <= k < |scheme| ==> scheme[k] != 'y'
    ensures ExtractVideoId(scheme + Prefixes[i] + id + tail) == Some(id)
  {
    var url := scheme + Prefixes[i] + id + tail;
    var p := |scheme|;
    var n := |Prefixes[i]|;
    assert url[p..p + n] == Prefixes[i];
    assert url[p + n..p + n + IdLength] == id;
    forall q | 0 <= q < p
      ensures IdAt(url, q).None?
    {
      assert url[q] == scheme[q];
      NoAltAt(url, q, Prefixes);
    }
    PrefixedId(url, p, i, id);
  }

  lemma {:induction false} NoAltAt(url: string, p: nat, alts: seq<string>)
    requires p < |url| && url[p] != 'y'
    requires forall k :: 0 <= k < |alts| ==> |alts[k]| > 0 && alts[k][0] == 'y'
    ensures IdAfter(url, p, alts).None?
    decreases |alts|
  {
    if alts != [] {
      assert url[p..][0] != alts[0][0];
      NoAltAt(url, p, alts[1..]);
    }
  }

  /** A bare identifier is returned unchanged: there is no room in it for a URL form. */
  lemma BareIdUnchanged(id: string)
    requires IsVideoId(id)
    ensures ExtractVideoId(id) == Some(id)
  {
    forall q | 0 <= q <= |id|
      ensures IdAt(id, q).None?
    {
      NoRoom(id, q, Prefixes);
    }
    SearchIdNone(id, 0);
  }

  /** No alternative of two characters or more fits before 11 identifier characters in a text of
      at most 12 characters. */
  lemma {:induction false} NoRoom(url: string, p: nat, alts: seq<string>)
    requires p <= |url| <= IdLength + 1
    requires forall k :: 0 <= k < |alts| ==> |alts[k]| >= 2
    ensures IdAfter(url, p, alts).None?
    decreases |alts|
  {
    if alts != [] {
      NoRoom(url, p, alts[1..]);
    }
  }

  /** What `get_transcript` does first: stop with an error when no identifier can be extracted,
      otherwise go on to fetch the transcript of that identifier. */
  datatype TranscriptStart = Fetch(videoId: string) | Failure(error: string)

  function ErrorPrefix(): string
  {
    // Split into short pieces on purpose: long string literals are costly to the solver.
    "Could not extract " + "video ID from URL: "
  }

  function StartTranscript(url: string): (r: TranscriptStart)
  {
    match ExtractVideoId(url)
    case None => Failure(ErrorPrefix() + url)
    case Some(id) => Fetch(id)
  }

  /** The request stops with the error, which names the URL, iff no identifier can be extracted;
      otherwise the fetch is for a well-formed identifier. */
  lemma StartTranscriptSpec(url: string)
    ensures StartTranscript(url).Failure? <==> ExtractVideoId(url).None?
    ensures StartTranscript(url).Failure? ==> EndsWith(StartTranscript(url).error, url)
    ensures StartTranscript(url).Fetch? ==> IsVideoId(StartTranscript(url).videoId)
  {
    if ExtractVideoId(url).None? {
      var e := ErrorPrefix() + url;
      assert e[|e| - |url|..] == url;
    }
  }
}
