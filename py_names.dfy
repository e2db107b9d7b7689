/** The snake-case rule both Python tools use to turn free text into a file or folder name
    (`sanitize_filename` without its length cap, and `sanitize_topic`): lower-case the text, drop
    every character other than a word character, a space or a hyphen, turn each run of spaces and
    hyphens into one underscore, and strip underscores from both ends. */
module PyNames {
  import opened Common
  import opened Text

  /** The characters `[\w\s-]` matches. */
  predicate IsNameChar(c: char) { IsWordChar(c) || IsPySpace(c) || c == '-' }

  /** The characters `[-\s]` matches. */
  predicate IsSeparator(c: char) { c == '-' || IsPySpace(c) }

  /** A letter or a digit: the word characters other than the underscore. */
  predicate IsAlnum(c: char) { IsWordChar(c) && c != '_' }

  predicate IsUnderscore(c: char) { c == '_' }

  /** `re.sub(r"[^\w\s-]", "", s)`. */
  function DropSpecials(s: string): (r: string)
    ensures forall i :: 0 <= i < |r| ==> IsNameChar(r[i])
    ensures (forall i :: 0 <= i < |s| ==> !IsUpper(s[i])) ==> forall i :: 0 <= i < |r| ==> !IsUpper(r[i])
    decreases |s|
  {
    if s == [] then [] else (if IsNameChar(s[0]) then [s[0]] else []) + DropSpecials(s[1..])
  }

  /** The letters and digits of `s`, in order. */
  function Alnums(s: string): string
    decreases |s|
  {
    if s == [] then [] else (if IsAlnum(s[0]) then [s[0]] else []) + Alnums(s[1..])
  }

  /** `re.sub(r"[-\s]+", "_", s)`: each maximal run of separators becomes one underscore. */
  function Collapse(s: string): (r: string)
    decreases |s|
  {
    if s == [] then []
    else if IsSeparator(s[0]) then "_" + Collapse(s[Span(s, IsSeparator)..])
    else [s[0]] + Collapse(s[1..])
  }

  /** `s.strip("_")`. */
  function StripUnderscores(s: string): (r: string)
    ensures r == [] || (r[0] != '_' && r[|r| - 1] != '_')
  {
    TrimRight(TrimLeft(s, IsUnderscore), IsUnderscore)
  }

  function SnakeCase(text: string): string
  {
    StripUnderscores(Collapse(DropSpecials(Lower(text))))
  }

  /** A snake-case name: lower-case word characters with no underscore at either end. */
  predicate IsSnakeName(s: string)
  {
    (forall i :: 0 <= i < |s| ==> IsWordChar(s[i]) && !IsUpper(s[i]))
    && (s == [] || (s[0] != '_' && s[|s| - 1] != '_'))
  }

  // ---------------------------------------------------------------------------------------
  // What the rule produces

  lemma TrimKeeps(s: string, p: char -> bool, q: char -> bool)
    requires forall i :: 0 <= i < |s| ==> q(s[i])
    ensures forall i :: 0 <= i < |TrimRight(TrimLeft(s, p), p)| ==> q(TrimRight(TrimLeft(s, p), p)[i])
  {
    var l := TrimLeft(s, p);
    assert forall i :: 0 <= i < |l| ==> q(l[i]) by {
      assert forall i :: 0 <= i < |l| ==> l[i] == s[|s| - |l| + i];
    }
    TrimRightKeeps(l, p, q);
  }

  lemma TrimRightKeeps(s: string, p: char -> bool, q: char -> bool)
    requires forall i :: 0 <= i < |s| ==> q(s[i])
    ensures forall i :: 0 <= i < |TrimRight(s, p)| ==> q(TrimRight(s, p)[i])
  {
    var r := TrimRight(s, p);
    assert forall i :: 0 <= i < |r| ==> r[i] == s[i];
  }

  /** The result is lower-case word characters with no underscore at either end. */
  lemma SnakeCaseShape(text: string)
    ensures IsSnakeName(SnakeCase(text))
  {
    var d := DropSpecials(Lower(text));
    var c := Collapse(d);
    CollapseKeeps(d, c => IsWordChar(c) && !IsUpper(c));
    TrimKeeps(c, IsUnderscore, c => IsWordChar(c) && !IsUpper(c));
  }

  /** A character property that holds of `_` and of every character of the input other than a
      space or hyphen holds of every collapsed character. */
  lemma {:induction false} CollapseKeeps(s: string, q: char -> bool)
    requires q('_') && forall i :: 0 <= i < |s| ==> IsSeparator(s[i]) || q(s[i])
    ensures forall i :: 0 <= i < |Collapse(s)| ==> q(Collapse(s)[i])
    decreases |s|
  {
    if s != [] {
      if IsSeparator(s[0]) {
        var n := Span(s, IsSeparator);
        CollapseKeeps(s[n..], q);
      } else {
        CollapseKeeps(s[1..], q);
      }
    }
  }

  // ---------------------------------------------------------------------------------------
  // Letters and digits survive, in order

  lemma {:induction false} AlnumsConcat(a: string, b: string)
    ensures Alnums(a + b) == Alnums(a) + Alnums(b)
    decreases |a|
  {
    if a == [] {
      assert a + b == b;
    } else {
      var x := if IsAlnum(a[0]) then [a[0]] else [];
      calc {
        Alnums(a + b);
        { assert (a + b)[0] == a[0] && (a + b)[1..] == a[1..] + b; }
        x + Alnums(a[1..] + b);
        { AlnumsConcat(a[1..], b); }
        x + (Alnums(a[1..]) + Alnums(b));
        { AppendAssoc(x, Alnums(a[1..]), Alnums(b)); }
        (x + Alnums(a[1..])) + Alnums(b);
        Alnums(a) + Alnums(b);
      }
    }
  }

  /** Dropping the specials keeps every letter and digit. */
  lemma {:induction false} DropSpecialsAlnum(s: string)
    ensures Alnums(DropSpecials(s)) == Alnums(s)
    decreases |s|
  {
    if s != [] {
      DropSpecialsAlnum(s[1..]);
      if IsNameChar(s[0]) {
        AlnumsConcat([s[0]], DropSpecials(s[1..]));
        assert Alnums([s[0]]) == if IsAlnum(s[0]) then [s[0]] else [];
      } else {
        assert DropSpecials(s) == DropSpecials(s[1..]);
        assert Alnums(s) == Alnums(s[1..]);
      }
    }
  }

  /** A run of separators holds no letter or digit. */
  lemma {:induction false} NoAlnumInRun(s: string)
    requires forall i :: 0 <= i < |s| ==> IsSeparator(s[i])
    ensures Alnums(s) == []
    decreases |s|
  {
    if s != [] {
      NoAlnumInRun(s[1..]);
    }
  }

  lemma {:induction false} CollapseAlnum(s: string)
    ensures Alnums(Collapse(s)) == Alnums(s)
    decreases |s|
  {
    if s != [] {
      if IsSeparator(s[0]) {
        var n := Span(s, IsSeparator);
        CollapseAlnum(s[n..]);
        AlnumsConcat("_", Collapse(s[n..]));
        assert s == s[..n] + s[n..];
        AlnumsConcat(s[..n], s[n..]);
        NoAlnumInRun(s[..n]);
      } else {
        CollapseAlnum(s[1..]);
        AlnumsConcat([s[0]], Collapse(s[1..]));
      }
    }
  }

  lemma {:induction false} TrimLeftAlnum(s: string)
    ensures Alnums(TrimLeft(s, IsUnderscore)) == Alnums(s)
    decreases |s|
  {
    if s != [] && IsUnderscore(s[0]) {
      TrimLeftAlnum(s[1..]);
    }
  }

  lemma {:induction false} TrimRightAlnum(s: string)
    ensures Alnums(TrimRight(s, IsUnderscore)) == Alnums(s)
    decreases |s|
  {
    if s != [] && IsUnderscore(s[|s| - 1]) {
      var s' := s[..|s| - 1];
      TrimRightAlnum(s');
      assert s == s' + [s[|s| - 1]];
      AlnumsConcat(s', [s[|s| - 1]]);
    }
  }

  /** Every letter and digit of the lower-cased text survives, in order, and nothing else but
      underscores is added: the name's letters and digits are exactly the text's. */
  lemma SnakeCaseKeepsAlnum(text: string)
    ensures Alnums(SnakeCase(text)) == Alnums(Lower(text))
  {
    var l := Lower(text);
    var d := DropSpecials(l);
    var c := Collapse(d);
    DropSpecialsAlnum(l);
    CollapseAlnum(d);
    TrimLeftAlnum(c);
    TrimRightAlnum(TrimLeft(c, IsUnderscore));
  }

  // ---------------------------------------------------------------------------------------
  // Runs of separators

  /** Collapsing works piecewise across a boundary that does not split a run. */
  lemma {:induction false} CollapseConcat(a: string, b: string)
    requires a == [] || !IsSeparator(a[|a| - 1])
    ensures Collapse(a + b) == Collapse(a) + Collapse(b)
    decreases |a|, 1
  {
    if a == [] {
      assert a + b == b;
    } else if IsSeparator(a[0]) {
      CollapseConcatRun(a, b);
    } else {
      CollapseConcatChar(a, b);
    }
  }

  lemma {:induction false} CollapseConcatRun(a: string, b: string)
    requires a != [] && IsSeparator(a[0]) && !IsSeparator(a[|a| - 1])
    ensures Collapse(a + b) == Collapse(a) + Collapse(b)
    decreases |a|, 0
  {
    var n := Span(a, IsSeparator);
    assert n < |a|;
    assert Collapse(a + b) == "_" + Collapse(a[n..] + b) by {
      assert (a + b)[0] == a[0];
      SpanConcat(a, b, n);
      assert (a + b)[n..] == a[n..] + b;
    }
    assert Collapse(a[n..] + b) == Collapse(a[n..]) + Collapse(b) by {
      CollapseConcat(a[n..], b);
    }
    assert "_" + (Collapse(a[n..]) + Collapse(b)) == ("_" + Collapse(a[n..])) + Collapse(b);
  }

  lemma {:induction false} CollapseConcatChar(a: string, b: string)
    requires a != [] && !IsSeparator(a[0]) && !IsSeparator(a[|a| - 1])
    ensures Collapse(a + b) == Collapse(a) + Collapse(b)
    decreases |a|, 0
  {
    assert Collapse(a + b) == [a[0]] + Collapse(a[1..] + b) by {
      assert (a + b)[0] == a[0];
      assert (a + b)[1..] == a[1..] + b;
    }
    assert Collapse(a[1..] + b) == Collapse(a[1..]) + Collapse(b) by {
      if |a| > 1 {
        CollapseConcat(a[1..], b);
      } else {
        assert a[1..] == [];
        assert a[1..] + b == b;
      }
    }
    assert [a[0]] + (Collapse(a[1..]) + Collapse(b)) == ([a[0]] + Collapse(a[1..])) + Collapse(b);
  }

  lemma SpanConcat(a: string, b: string, n: nat)
    requires n < |a| && n == Span(a, IsSeparator)
    ensures Span(a + b, IsSeparator) == n
  {
    SpanIs(a + b, n);
  }

  /** `Span` is the index of the first character that fails the test. */
  lemma {:induction false} SpanIs(s: string, n: nat)
    requires n <= |s| && (forall i :: 0 <= i < n ==> IsSeparator(s[i])) && (n < |s| ==> !IsSeparator(s[n]))
    ensures Span(s, IsSeparator) == n
    decreases n
  {
    if n > 0 {
      SpanIs(s[1..], n - 1);
    }
  }

  /** A non-empty run of spaces and hyphens becomes exactly one underscore. */
  lemma CollapseRun(run: string, b: string)
    requires run != [] && forall i :: 0 <= i < |run| ==> IsSeparator(run[i])
    requires b == [] || !IsSeparator(b[0])
    ensures Collapse(run + b) == "_" + Collapse(b)
  {
    SpanIs(run + b, |run|);
    assert (run + b)[|run|..] == b;
  }

  // ---------------------------------------------------------------------------------------
  // Idempotence

  lemma {:induction false} DropSpecialsNone(s: string)
    requires forall i :: 0 <= i < |s| ==> IsNameChar(s[i])
    ensures DropSpecials(s) == s
    decreases |s|
  {
    if s != [] {
      DropSpecialsNone(s[1..]);
    }
  }

  lemma LowerNoUpper(s: string)
    requires forall i :: 0 <= i < |s| ==> !IsUpper(s[i])
    ensures Lower(s) == s
  {
    assert forall i :: 0 <= i < |s| ==> Lower(s)[i] == s[i];
  }

  lemma {:induction false} CollapseNoSeparator(s: string)
    requires forall i :: 0 <= i < |s| ==> !IsSeparator(s[i])
    ensures Collapse(s) == s
    decreases |s|
  {
    if s != [] {
      CollapseNoSeparator(s[1..]);
    }
  }

  /** A snake-case name is its own snake-case form. */
  lemma SnakeNameFixed(s: string)
    requires IsSnakeName(s)
    ensures SnakeCase(s) == s
  {
    calc {
      SnakeCase(s);
      StripUnderscores(Collapse(DropSpecials(Lower(s))));
      { LowerNoUpper(s); }
      StripUnderscores(Collapse(DropSpecials(s)));
      { DropSpecialsNone(s); }
      StripUnderscores(Collapse(s));
      { CollapseNoSeparator(s); }
      StripUnderscores(s);
      { StripNone(s); }
      s;
    }
  }

  lemma StripNone(s: string)
    requires s == [] || (s[0] != '_' && s[|s| - 1] != '_')
    ensures StripUnderscores(s) == s
  {
    assert TrimLeft(s, IsUnderscore) == s;
  }

  /** Non-empty snake-case names joined with `_` make a non-empty snake-case name. */
  lemma {:induction false} JoinSnakeNames(parts: seq<string>)
    requires parts != []
    requires forall k :: 0 <= k < |parts| ==> parts[k] != [] && IsSnakeName(parts[k])
    ensures Join(parts, "_") != [] && IsSnakeName(Join(parts, "_"))
    decreases |parts|
  {
    if |parts| > 1 {
      var rest := Join(parts[1..], "_");
      JoinSnakeNames(parts[1..]);
      var j := parts[0] + "_" + rest;
      assert Join(parts, "_") == j;
      assert forall i :: 0 <= i < |j| ==> j[i] == if i < |parts[0]| then parts[0][i]
        else if i == |parts[0]| then '_' else rest[i - |parts[0]| - 1];
    }
  }

  /** Applying the rule twice is the same as applying it once. */
  lemma SnakeCaseIdempotent(text: string)
    ensures SnakeCase(SnakeCase(text)) == SnakeCase(text)
  {
    SnakeCaseShape(text);
    SnakeNameFixed(SnakeCase(text));
  }

  // ---------------------------------------------------------------------------------------
  // Version numbers

  /** `max(versions, default=0)`. */
  function MaxOr0(versions: seq<nat>): (m: nat)
    ensures forall k :: 0 <= k < |versions| ==> versions[k] <= m
    ensures m == 0 || m in versions
  {
    if versions == [] then 0
    else
      var rest := MaxOr0(versions[..|versions| - 1]);
      var last := versions[|versions| - 1];
      assert forall k :: 0 <= k < |versions| - 1 ==> versions[k] == versions[..|versions| - 1][k];
      if last > rest then last else rest
  }
}
