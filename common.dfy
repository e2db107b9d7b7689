/** Small value types shared by every module of the model. */
module Common {

  /** A value that may be missing: `null`/`undefined` in TypeScript, `None` in Python,
      or a document that does not exist. */
  datatype Option<+T> = None | Some(value: T)

  /** Concatenation is associative; stated as a lemma so that a proof can name the step. */
  lemma AppendAssoc<T>(a: seq<T>, b: seq<T>, c: seq<T>)
    ensures a + (b + c) == (a + b) + c
  {
  }

  /** A slice is the slice one shorter followed by its last element. */
  lemma SliceSnoc<T>(s: seq<T>, p: nat, n: nat)
    requires p < n <= |s|
    ensures s[p..n] == s[p..n - 1] + [s[n - 1]]
  {
  }

  /** Sum of a sequence of naturals, left to right. */
  function Sum(xs: seq<nat>): nat
  {
    if xs == [] then 0 else Sum(xs[..|xs| - 1]) + xs[|xs| - 1]
  }

  lemma {:induction false} SumAppend(xs: seq<nat>, ys: seq<nat>)
    ensures Sum(xs + ys) == Sum(xs) + Sum(ys)
    decreases |ys|
  {
    if ys == [] {
      assert xs + ys == xs;
    } else {
      var ys' := ys[..|ys| - 1];
      assert (xs + ys)[..|xs + ys| - 1] == xs + ys';
      SumAppend(xs, ys');
    }
  }

  /** `sub` is an order-preserving subsequence of `s`. */
  predicate IsSubsequence<T(==)>(sub: seq<T>, s: seq<T>)
    decreases |s|
  {
    if sub == [] then true
    else if s == [] then false
    else if sub[0] == s[0] then IsSubsequence(sub[1..], s[1..])
    else IsSubsequence(sub, s[1..])
  }

  /** Keeps the elements of `s` that satisfy `p`, in order. */
  function Filter<T>(s: seq<T>, p: T -> bool): (r: seq<T>)
    ensures |r| <= |s|
    ensures forall x :: x in r ==> x in s && p(x)
    ensures forall x :: x in s && p(x) ==> x in r
  {
    if s == [] then [] else (if p(s[0]) then [s[0]] else []) + Filter(s[1..], p)
  }

  lemma {:induction false} FilterAppend<T>(s: seq<T>, x: T, p: T -> bool)
    ensures Filter(s + [x], p) == Filter(s, p) + (if p(x) then [x] else [])
    decreases |s|
  {
    if s == [] {
      assert [x][1..] == [];
    } else {
      assert (s + [x])[1..] == s[1..] + [x];
      FilterAppend(s[1..], x, p);
    }
  }

  lemma {:induction false} FilterConcat<T>(a: seq<T>, b: seq<T>, p: T -> bool)
    ensures Filter(a + b, p) == Filter(a, p) + Filter(b, p)
    decreases |a|
  {
    if a == [] {
      assert a + b == b;
    } else {
      assert (a + b)[1..] == a[1..] + b;
      FilterConcat(a[1..], b, p);
    }
  }

  /** An element the filter keeps stands in the result at the count of kept elements before it. */
  lemma FilterRank<T>(s: seq<T>, j: nat, p: T -> bool)
    requires j < |s| && p(s[j])
    ensures |Filter(s[..j], p)| < |Filter(s, p)|
    ensures Filter(s, p)[|Filter(s[..j], p)|] == s[j]
  {
    assert s[..j + 1] == s[..j] + [s[j]];
    FilterAppend(s[..j], s[j], p);
    assert s == s[..j + 1] + s[j + 1..];
    FilterConcat(s[..j + 1], s[j + 1..], p);
  }

  lemma {:induction false} FilterIsSubsequence<T>(s: seq<T>, p: T -> bool)
    ensures IsSubsequence(Filter(s, p), s)
    decreases |s|
  {
    if s != [] {
      FilterIsSubsequence(s[1..], p);
      assert [s[0]] + s[1..] == s;
      if !p(s[0]) {
        assert Filter(s, p) == Filter(s[1..], p);
        SubsequenceSkip(Filter(s[1..], p), s[0], s[1..]);
      } else {
        assert Filter(s, p) == [s[0]] + Filter(s[1..], p);
      }
    }
  }

  /** A subsequence of `s` stays one when an element is put in front of `s`. */
  lemma {:induction false} SubsequenceSkip<T>(sub: seq<T>, x: T, s: seq<T>)
    requires IsSubsequence(sub, s)
    ensures IsSubsequence(sub, [x] + s)
    decreases |s|, 1
  {
    assert ([x] + s)[1..] == s;
    if sub != [] && sub[0] == x {
      assert [sub[0]] + sub[1..] == sub;
      SubsequenceWeaken(sub[1..], sub[0], s);
    }
  }

  /** Dropping the head of a subsequence keeps it a subsequence. */
  lemma {:induction false} SubsequenceWeaken<T>(tail: seq<T>, x: T, s: seq<T>)
    requires IsSubsequence([x] + tail, s)
    ensures IsSubsequence(tail, s)
    decreases |s|, 0
  {
    assert ([x] + tail)[1..] == tail;
    assert s != [];
    assert ([x] + tail)[0] == x;
    if x != s[0] {
      SubsequenceWeaken(tail, x, s[1..]);
    }
    SubsequenceSkip(tail, s[0], s[1..]);
    assert [s[0]] + s[1..] == s;
  }
}
