/** The size estimator: a text costs one token per four characters, rounded up, and a text can
    be cut down to a token ceiling at a line or word boundary. */
module TokenCounter {
  import opened Common
  import opened Text

  const CharsPerToken: nat := 4

  /** `estimateTokens`: the number of tokens is the character count divided by four, rounded up. */
  function EstimateTokens(text: string): (r: nat)
    ensures CharsPerToken * r >= |text| && CharsPerToken * r < |text| + CharsPerToken
  {
    (|text| + CharsPerToken - 1) / CharsPerToken
  }

  lemma EstimateEmpty()
    ensures EstimateTokens("") == 0
  {
  }

  /** The estimate never decreases when the text gets longer. */
  lemma EstimateMonotone(a: string, b: string)
    requires |a| <= |b|
    ensures EstimateTokens(a) <= EstimateTokens(b)
  {
  }

  /** Estimating two texts apart never gives less than estimating them joined. */
  lemma EstimateConcat(a: string, b: string)
    ensures EstimateTokens(a + b) <= EstimateTokens(a) + EstimateTokens(b)
  {
    assert |a + b| == |a| + |b|;
  }

  /** `estimateTokensForArray`: the sum of the estimates, folded from the left as `reduce` does. */
  function EstimateTokensForArray(texts: seq<string>): (r: nat)
    ensures texts == [] ==> r == 0
    decreases |texts|
  {
    if texts == [] then 0
    else EstimateTokensForArray(texts[..|texts| - 1]) + EstimateTokens(texts[|texts| - 1])
  }

  /** The estimate of a concatenation of lists is the sum of their estimates. */
  lemma {:induction false} EstimateArrayAppend(xs: seq<string>, ys: seq<string>)
    ensures EstimateTokensForArray(xs + ys) == EstimateTokensForArray(xs) + EstimateTokensForArray(ys)
    decreases |ys|
  {
    if ys == [] {
      assert xs + ys == xs;
    } else {
      var ys' := ys[..|ys| - 1];
      assert (xs + ys)[..|xs + ys| - 1] == xs + ys';
      assert (xs + ys)[|xs + ys| - 1] == ys[|ys| - 1];
      EstimateArrayAppend(xs, ys');
    }
  }

  /** Every element's estimate is part of the list's estimate. */
  lemma {:induction false} EstimateArrayBoundsElement(texts: seq<string>, i: nat)
    requires i < |texts|
    ensures EstimateTokens(texts[i]) <= EstimateTokensForArray(texts)
    decreases |texts|
  {
    if i < |texts| - 1 {
      EstimateArrayBoundsElement(texts[..|texts| - 1], i);
    }
  }

  /** `wouldExceedBudget`: adding the text to what is already used goes past the budget. */
  predicate WouldExceedBudget(currentTokens: int, additionalText: string, maxTokens: int)
  {
    currentTokens + EstimateTokens(additionalText) > maxTokens
  }

  /** With a budget of `current + reserved`, the running total cancels out: only the text's own
      estimate is compared with the reserved share. */
  lemma ExceedRelativeBudget(current: int, text: string, reserved: int)
    ensures WouldExceedBudget(current, text, current + reserved) <==> EstimateTokens(text) > reserved
  {
  }

  /** `text.substring(0, end)`: the end index is clamped into `0..|text|`. */
  function Prefix(text: string, end: int): (r: string)
    ensures StartsWith(text, r)
    ensures |r| == if end < 0 then 0 else if end > |text| then |text| else end
  {
    if end < 0 then [] else if end > |text| then text else text[..end]
  }

  /** `text.lastIndexOf(c)`: the index of the last occurrence, or -1. */
  function LastIndexOf(text: string, c: char): (i: int)
    ensures -1 <= i < |text|
    ensures i >= 0 ==> text[i] == c
    ensures forall j :: i < j < |text| ==> text[j] != c
    decreases |text|
  {
    if text == [] then -1
    else if text[|text| - 1] == c then |text| - 1
    else LastIndexOf(text[..|text| - 1], c)
  }

  /** `truncateToTokenBudget`. The cut-off test `index > maxChars * 0.8` is `5 * index > 4 * maxChars`. */
  function TruncateToTokenBudget(text: string, maxTokens: int): (r: string)
    ensures EstimateTokens(text) <= maxTokens ==> r == text
    ensures StartsWith(text, r)
    ensures maxTokens >= 0 ==> EstimateTokens(r) <= maxTokens
  {
    if EstimateTokens(text) <= maxTokens then text
    else
      var maxChars := maxTokens * CharsPerToken;
      var truncated := Prefix(text, maxChars);
      var lastNewline := LastIndexOf(truncated, '\n');
      var lastSpace := LastIndexOf(truncated, ' ');
      var r :=
        if 5 * lastNewline > 4 * maxChars then Prefix(truncated, lastNewline)
        else if 5 * lastSpace > 4 * maxChars then Prefix(truncated, lastSpace)
        else truncated;
      PrefixOfPrefix(text, truncated, r);
      r
  }

  lemma PrefixOfPrefix(a: string, b: string, c: string)
    requires StartsWith(a, b) && StartsWith(b, c)
    ensures StartsWith(a, c)
  {
    assert a[..|c|] == b[..|c|];
  }

  /** Where an over-budget text is cut, with `maxChars = 4 * maxTokens`: at the last newline among
      the first `maxChars` characters when it lies beyond 80% of `maxChars`; failing that, at the
      last space under the same condition; failing that, at `maxChars` itself. The character at a
      line or word cut is not kept. */
  lemma TruncateCutPoint(text: string, maxTokens: nat)
    requires EstimateTokens(text) > maxTokens
    ensures var r := TruncateToTokenBudget(text, maxTokens);
            var maxChars := CharsPerToken * maxTokens;
            && |r| <= maxChars < |text|
            && (|r| == maxChars || 5 * |r| > 4 * maxChars)
            && ((exists j :: 5 * j > 4 * maxChars && j < maxChars && text[j] == '\n') ==>
                  text[|r|] == '\n' && forall j :: |r| < j < maxChars ==> text[j] != '\n')
            && ((forall j :: 5 * j > 4 * maxChars && j < maxChars ==> text[j] != '\n') &&
                (exists j :: 5 * j > 4 * maxChars && j < maxChars && text[j] == ' ') ==>
                  text[|r|] == ' ' && forall j :: |r| < j < maxChars ==> text[j] != ' ')
            && ((forall j :: 5 * j > 4 * maxChars && j < maxChars ==> text[j] != '\n' && text[j] != ' ') ==>
                  |r| == maxChars)
  {
    var maxChars := CharsPerToken * maxTokens;
    assert maxChars < |text|;
    var truncated := text[..maxChars];
    assert Prefix(text, maxChars) == truncated;
    var lastNewline := LastIndexOf(truncated, '\n');
    var lastSpace := LastIndexOf(truncated, ' ');
    var r := TruncateToTokenBudget(text, maxTokens);
    assert |r| == if 5 * lastNewline > 4 * maxChars then lastNewline
                  else if 5 * lastSpace > 4 * maxChars then lastSpace
                  else maxChars;
    LastBeyond(text, maxChars, '\n');
    LastBeyond(text, maxChars, ' ');
  }

  /** The last occurrence of `c` among the first `maxChars` characters lies beyond 80% of
      `maxChars` iff some occurrence does. */
  lemma LastBeyond(text: string, maxChars: nat, c: char)
    requires maxChars < |text|
    ensures var i := LastIndexOf(text[..maxChars], c);
            && (i >= 0 ==> text[i] == c)
            && (forall j :: i < j < maxChars ==> text[j] != c)
            && ((exists j :: 5 * j > 4 * maxChars && j < maxChars && text[j] == c) <==> 5 * i > 4 * maxChars)
  {
    var t := text[..maxChars];
    var i := LastIndexOf(t, c);
    assert forall j :: 0 <= j < maxChars ==> t[j] == text[j];
    if 5 * i > 4 * maxChars {
      assert t[i] == c;
    }
  }
}
