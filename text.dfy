/** Character classes and string operations that the TypeScript and Python sources get from
    their standard libraries and regular-expression engines, written out by hand. */
module Text {
  import opened Common

  // ---------------------------------------------------------------------------------------
  // Character classes

  /** ECMAScript `\s`: the WhiteSpace and LineTerminator code points. */
  predicate IsJsSpace(c: char)
  {
    c == ' ' || c == '\t' || c == '\n' || c == '\r' || c == '\U{000B}' || c == '\U{000C}'
    || c == '\U{00A0}' || c == '\U{1680}' || ('\U{2000}' <= c <= '\U{200A}')
    || c == '\U{2028}' || c == '\U{2029}' || c == '\U{202F}' || c == '\U{205F}'
    || c == '\U{3000}' || c == '\U{FEFF}'
  }

  /** ECMAScript line terminators: the characters `.` does not match. */
  predicate IsLineTerminator(c: char)
  {
    c == '\n' || c == '\r' || c == '\U{2028}' || c == '\U{2029}'
  }

  /** Python's `str.isspace`, which is also what `\s` and `str.split()` use on `str`. */
  predicate IsPySpace(c: char)
  {
    ('\t' <= c <= '\r') || ('\U{001C}' <= c <= '\U{001F}') || c == ' ' || c == '\U{0085}'
    || c == '\U{00A0}' || c == '\U{1680}' || ('\U{2000}' <= c <= '\U{200A}')
    || c == '\U{2028}' || c == '\U{2029}' || c == '\U{202F}' || c == '\U{205F}' || c == '\U{3000}'
  }

  predicate IsDigit(c: char) { '0' <= c <= '9' }

  predicate IsUpper(c: char) { 'A' <= c <= 'Z' }

  predicate IsLowerLetter(c: char) { 'a' <= c <= 'z' }

  /** `\w`: `[A-Za-z0-9_]`. */
  predicate IsWordChar(c: char) { IsUpper(c) || IsLowerLetter(c) || IsDigit(c) || c == '_' }

  function LowerChar(c: char): (r: char)
    ensures !IsUpper(r)
    ensures IsWordChar(r) <==> IsWordChar(c)
  {
    if IsUpper(c) then (c as int + 32) as char else c
  }

  function UpperChar(c: char): (r: char)
  {
    if IsLowerLetter(c) then (c as int - 32) as char else c
  }

  /** `toLowerCase()` / `lower()` on the ASCII letters. */
  function Lower(s: string): (r: string)
    ensures |r| == |s|
    ensures forall i :: 0 <= i < |s| ==> r[i] == LowerChar(s[i])
  {
    seq(|s|, i requires 0 <= i < |s| => LowerChar(s[i]))
  }

  lemma LowerAppend(a: string, b: string)
    ensures Lower(a + b) == Lower(a) + Lower(b)
  {
  }

  // ---------------------------------------------------------------------------------------
  // Prefixes, suffixes, substrings

  predicate StartsWith(s: string, prefix: string)
  {
    |prefix| <= |s| && s[..|prefix|] == prefix
  }

  predicate EndsWith(s: string, suffix: string)
  {
    |suffix| <= |s| && s[|s| - |suffix|..] == suffix
  }

  /** `s.includes(sub)` / `sub in s`. */
  predicate Contains(s: string, sub: string)
    decreases |s|
  {
    StartsWith(s, sub) || (|s| > 0 && Contains(s[1..], sub))
  }

  lemma {:induction false} ContainsAt(s: string, i: nat, sub: string)
    requires i + |sub| <= |s| && s[i..i + |sub|] == sub
    ensures Contains(s, sub)
    decreases i
  {
    if i > 0 {
      assert s[1..][i - 1..i - 1 + |sub|] == s[i..i + |sub|];
      ContainsAt(s[1..], i - 1, sub);
    }
  }

  lemma ContainsInfix(a: string, b: string, c: string)
    ensures Contains(a + b + c, b)
  {
    assert (a + b + c)[|a|..|a| + |b|] == b;
    ContainsAt(a + b + c, |a|, b);
  }

  // ---------------------------------------------------------------------------------------
  // Splitting and joining

  /** `s.split(sep)` for a one-character separator: every occurrence separates two pieces. */
  function Split(s: string, sep: char): (r: seq<string>)
    ensures |r| >= 1
    ensures forall i :: 0 <= i < |r| ==> sep !in r[i]
    decreases |s|
  {
    if s == [] then [""]
    else
      var rest := Split(s[1..], sep);
      if s[0] == sep then [""] + rest else [[s[0]] + rest[0]] + rest[1..]
  }

  /** Splits at every character satisfying `isSep`, keeping empty pieces. */
  function SplitWhere(s: string, isSep: char -> bool): (r: seq<string>)
    ensures |r| >= 1
    ensures forall i, j :: 0 <= i < |r| && 0 <= j < |r[i]| ==> !isSep(r[i][j])
    decreases |s|
  {
    if s == [] then [""]
    else
      var rest := SplitWhere(s[1..], isSep);
      if isSep(s[0]) then [""] + rest else [[s[0]] + rest[0]] + rest[1..]
  }

  /** `parts.join(sep)`. */
  function Join(parts: seq<string>, sep: string): string
    decreases |parts|
  {
    if |parts| == 0 then ""
    else if |parts| == 1 then parts[0]
    else parts[0] + sep + Join(parts[1..], sep)
  }

  /** Splitting on a character and joining with it again gives back the text. */
  lemma {:induction false} JoinSplit(s: string, sep: char)
    ensures Join(Split(s, sep), [sep]) == s
    decreases |s|
  {
    if s != [] {
      var rest := Split(s[1..], sep);
      JoinSplit(s[1..], sep);
      if s[0] == sep {
        assert Split(s, sep) == [""] + rest;
        assert ([""] + rest)[1..] == rest;
      } else {
        var r := Split(s, sep);
        assert r == [[s[0]] + rest[0]] + rest[1..];
        if |rest| == 1 {
          assert [s[0]] + s[1..] == s;
        } else {
          assert r[1..] == rest[1..];
          assert Join(rest, [sep]) == rest[0] + [sep] + Join(rest[1..], [sep]);
          assert [s[0]] + s[1..] == s;
        }
      }
    }
  }

  /** Python's `str.split()` with no argument: the maximal runs of non-space characters. */
  function PyWords(s: string): (r: seq<string>)
    ensures forall i :: 0 <= i < |r| ==> r[i] != []
    ensures forall i, j :: 0 <= i < |r| && 0 <= j < |r[i]| ==> !IsPySpace(r[i][j])
  {
    var pieces := SplitWhere(s, IsPySpace);
    var r := Filter(pieces, (w: string) => w != []);
    assert forall i :: 0 <= i < |r| ==> r[i] in r;
    r
  }

  // ---------------------------------------------------------------------------------------
  // Trimming and spans

  function TrimLeft(s: string, strip: char -> bool): (r: string)
    ensures |r| <= |s| && r == s[|s| - |r|..]
    ensures r == [] || !strip(r[0])
    decreases |s|
  {
    if s != [] && strip(s[0]) then TrimLeft(s[1..], strip) else s
  }

  /** A run of stripped characters in front of a text that does not start with one is removed. */
  lemma {:induction false} TrimLeftPad(pad: string, x: string, strip: char -> bool)
    requires forall i :: 0 <= i < |pad| ==> strip(pad[i])
    requires x == [] || !strip(x[0])
    ensures TrimLeft(pad + x, strip) == x
    decreases |pad|
  {
    if pad == [] {
      assert pad + x == x;
    } else {
      assert (pad + x)[1..] == pad[1..] + x;
      TrimLeftPad(pad[1..], x, strip);
    }
  }

  function TrimRight(s: string, strip: char -> bool): (r: string)
    ensures |r| <= |s| && r == s[..|r|]
    ensures r == [] || !strip(r[|r| - 1])
    decreases |s|
  {
    if s != [] && strip(s[|s| - 1]) then TrimRight(s[..|s| - 1], strip) else s
  }

  /** Everything trimmed off the right end is a stripped character. */
  lemma {:induction false} TrimRightDropped(s: string, strip: char -> bool)
    ensures forall i :: |TrimRight(s, strip)| <= i < |s| ==> strip(s[i])
    decreases |s|
  {
    if s != [] && strip(s[|s| - 1]) {
      var t := s[..|s| - 1];
      TrimRightDropped(t, strip);
      assert forall i :: 0 <= i < |t| ==> t[i] == s[i];
    }
  }

  /** JavaScript `trim()`. */
  function Trim(s: string): string
  {
    TrimRight(TrimLeft(s, IsJsSpace), IsJsSpace)
  }

  /** Length of the longest prefix of `s` whose characters all satisfy `p`. */
  function Span(s: string, p: char -> bool): (n: nat)
    ensures n <= |s|
    ensures forall i :: 0 <= i < n ==> p(s[i])
    ensures n < |s| ==> !p(s[n])
    decreases |s|
  {
    if s != [] && p(s[0]) then 1 + Span(s[1..], p) else 0
  }

  predicate NoLineTerminator(s: string)
  {
    forall i :: 0 <= i < |s| ==> !IsLineTerminator(s[i])
  }

  /** What `\s*(.+)$` (minSpace 0) or `\s+(.+)$` (minSpace 1) captures when tried at the start of
      `r`, with the backtracking of the engine: the greedy spaces give back their last character
      when nothing else is left for `(.+)`. */
  function SpaceThenLine(r: string, minSpace: nat): (m: Option<string>)
    ensures m.Some? ==> |m.value| >= 1 && NoLineTerminator(m.value) && EndsWith(r, m.value)
  {
    var k := Span(r, IsJsSpace);
    if k < |r| then
      if k >= minSpace && NoLineTerminator(r[k..]) then Some(r[k..]) else None
    else if |r| >= minSpace + 1 && !IsLineTerminator(r[|r| - 1]) then Some(r[|r| - 1..])
    else None
  }

  /** Greatest index `j <= k` that holds a character other than a line terminator. */
  function BackOff(r: string, k: nat): (j: Option<nat>)
    requires k <= |r|
    ensures j.Some? ==> j.value <= k && j.value < |r| && !IsLineTerminator(r[j.value])
  {
    if k < |r| && !IsLineTerminator(r[k]) then Some(k)
    else if k == 0 then None
    else BackOff(r, k - 1)
  }

  /** What the unanchored `\s*(.+)` captures when tried at the start of `r`: `(.+)` starts where
      the greedy spaces leave off (or as little before as needed) and runs to the first line
      terminator. */
  function SpaceThenRun(r: string): (m: Option<string>)
    ensures m.Some? ==> |m.value| >= 1 && NoLineTerminator(m.value)
  {
    match BackOff(r, Span(r, IsJsSpace))
    case None => None
    case Some(j) => Some(r[j..j + Span(r[j..], c => !IsLineTerminator(c))])
  }

  /** `key: "value"`: a quoted scalar line of a YAML front matter, as the tools print it. */
  function Quoted(key: string, value: string): string
  {
    key + ": \"" + value + "\""
  }

  // ---------------------------------------------------------------------------------------
  // Numbers

  /** The value of a string of decimal digits (`parseInt` / `int()` on such a string). */
  function DigitsValue(s: string): nat
    decreases |s|
  {
    if s == [] then 0 else 10 * DigitsValue(s[..|s| - 1]) + ((s[|s| - 1] as int - '0' as int) % 10)
  }

  function DigitChar(d: nat): char
    requires d < 10
  {
    ('0' as int + d) as char
  }

  /** Length of the run of digits at the end of `s` (`\d+$`). */
  function TrailingDigits(s: string): (n: nat)
    ensures n <= |s|
    ensures forall i :: |s| - n <= i < |s| ==> IsDigit(s[i])
    ensures n < |s| ==> !IsDigit(s[|s| - n - 1])
    decreases |s|
  {
    if s != [] && IsDigit(s[|s| - 1]) then 1 + TrailingDigits(s[..|s| - 1]) else 0
  }

  /** Decimal rendering of a natural number, as a template literal or f-string prints it. */
  function NatToString(n: nat): (r: string)
    ensures |r| >= 1
    ensures forall i :: 0 <= i < |r| ==> IsDigit(r[i])
    decreases n
  {
    if n < 10 then [DigitChar(n)] else NatToString(n / 10) + [DigitChar(n % 10)]
  }

  /** Reading back a printed natural gives the number. */
  lemma {:induction false} DigitsValueOfNat(n: nat)
    ensures DigitsValue(NatToString(n)) == n
    decreases n
  {
    var s := NatToString(n);
    if n < 10 {
      assert s[..|s| - 1] == [];
    } else {
      DigitsValueOfNat(n / 10);
      assert s[..|s| - 1] == NatToString(n / 10);
    }
  }

  function IntToString(n: int): string
  {
    if n < 0 then "-" + NatToString(-n) else NatToString(n)
  }
}
