/**
 Finite sums over the reals: the accumulations the network's loops perform
 (the softmax denominator, the cross-entropy sum, the epoch's total loss).
 Real addition is associative, so summing from the front agrees with the
 left-to-right accumulation of the loops being modelled.
 */
module Sums {

  /** The sum of the entries of `s`. */
  function Sum(s: seq<real>): real
  {
    if |s| == 0 then 0.0 else s[0] + Sum(s[1..])
  }

  /** The sum of `f` over the elements of `xs`, in order. */
  function SumOf<T>(xs: seq<T>, f: T -> real): real
  {
    if |xs| == 0 then 0.0 else f(xs[0]) + SumOf(xs[1..], f)
  }

  /** A non-empty sum is its first term plus the sum of the rest. */
  lemma SumOfFirst<T>(xs: seq<T>, f: T -> real)
    requires |xs| > 0
    ensures SumOf(xs, f) == f(xs[0]) + SumOf(xs[1..], f)
  {
  }

  /** Dividing every entry by the same non-zero `d` divides the sum by `d`. */
  lemma {:induction false} SumScaled(s: seq<real>, t: seq<real>, d: real)
    requires d != 0.0
    requires |t| == |s|
    requires forall i :: 0 <= i < |s| ==> t[i] == s[i] / d
    ensures Sum(t) == Sum(s) / d
  {
    if |s| > 0 {
      SumScaled(s[1..], t[1..], d);
      assert t[0] == s[0] / d;
      assert s[0] / d + Sum(s[1..]) / d == (s[0] + Sum(s[1..])) / d;
    }
  }

  /** Dividing positive entries by their sum gives entries in (0, 1] that sum to 1. */
  lemma Normalized(raw: seq<real>, t: seq<real>)
    requires |raw| > 0
    requires forall i :: 0 <= i < |raw| ==> raw[i] > 0.0
    requires Sum(raw) > 0.0
    requires |t| == |raw|
    requires forall i :: 0 <= i < |t| ==> t[i] == raw[i] / Sum(raw)
    ensures forall i :: 0 <= i < |t| ==> 0.0 < t[i] <= 1.0
    ensures Sum(t) == 1.0
  {
    var d := Sum(raw);
    SumScaled(raw, t, d);
    SelfQuotient(d);
    forall i | 0 <= i < |t|
      ensures 0.0 < t[i] <= 1.0
    {
      EntryAtMostSum(raw, i);
      QuotientBounds(raw[i], d);
    }
  }

  /** A non-negative total over a positive count has a non-negative mean. */
  lemma MeanNonNegative(total: real, n: nat)
    requires n > 0
    ensures total >= 0.0 ==> total / n as real >= 0.0
  {
  }

  lemma SelfQuotient(d: real)
    requires d != 0.0
    ensures d / d == 1.0
  {
  }

  lemma QuotientBounds(x: real, d: real)
    requires 0.0 < x <= d
    ensures 0.0 < x / d <= 1.0
  {
  }

  /** A non-empty sum of positive entries is positive. */
  lemma {:induction false} SumPositive(s: seq<real>)
    requires |s| > 0
    requires forall i :: 0 <= i < |s| ==> s[i] > 0.0
    ensures Sum(s) > 0.0
  {
    if |s| > 1 {
      SumPositive(s[1..]);
    }
  }

  /** In a sum of non-negative entries every entry is at most the sum. */
  lemma {:induction false} EntryAtMostSum(s: seq<real>, c: nat)
    requires c < |s|
    requires forall i :: 0 <= i < |s| ==> s[i] >= 0.0
    ensures s[c] <= Sum(s)
  {
    if c == 0 {
      SumNonNegative(s[1..]);
    } else {
      EntryAtMostSum(s[1..], c - 1);
    }
  }

  /** A sum of non-negative entries is non-negative. */
  lemma {:induction false} SumNonNegative(s: seq<real>)
    requires forall i :: 0 <= i < |s| ==> s[i] >= 0.0
    ensures Sum(s) >= 0.0
  {
    if |s| > 0 {
      SumNonNegative(s[1..]);
    }
  }

  /** A sum whose entries are all zero except the one at `c` equals that entry. */
  lemma {:induction false} SumSingle(s: seq<real>, c: nat)
    requires c < |s|
    requires forall i :: 0 <= i < |s| && i != c ==> s[i] == 0.0
    ensures Sum(s) == s[c]
  {
    if c == 0 {
      SumZero(s[1..]);
    } else {
      SumSingle(s[1..], c - 1);
    }
  }

  /** A sum of zeros is zero. */
  lemma {:induction false} SumZero(s: seq<real>)
    requires forall i :: 0 <= i < |s| ==> s[i] == 0.0
    ensures Sum(s) == 0.0
  {
    if |s| > 0 {
      SumZero(s[1..]);
    }
  }

  /** Taking the element at `i` out of `xs` takes `f(xs[i])` out of the sum. */
  lemma {:induction false} SumOfRemove<T>(xs: seq<T>, i: nat, f: T -> real)
    requires i < |xs|
    ensures SumOf(xs, f) == f(xs[i]) + SumOf(xs[..i] + xs[i + 1..], f)
  {
    if i == 0 {
      assert xs[..0] + xs[1..] == xs[1..];
    } else {
      SumOfRemove(xs[1..], i - 1, f);
      var rest := xs[..i] + xs[i + 1..];
      assert rest[0] == xs[0];
      assert rest[1..] == xs[1..][..i - 1] + xs[1..][i..];
    }
  }

  /** Summing over a permutation gives the same total. */
  lemma {:induction false} SumOfPermutation<T>(a: seq<T>, b: seq<T>, f: T -> real)
    requires multiset(a) == multiset(b)
    ensures SumOf(a, f) == SumOf(b, f)
  {
    if |a| == 0 {
      assert |multiset(b)| == 0;
    } else {
      assert a[0] in multiset(b);
      var i :| 0 <= i < |b| && b[i] == a[0];
      SumOfRemove(b, i, f);
      var rest := b[..i] + b[i + 1..];
      assert b == b[..i] + [b[i]] + b[i + 1..];
      assert multiset(b) == multiset(b[..i]) + multiset{b[i]} + multiset(b[i + 1..]);
      assert multiset(rest) == multiset(b) - multiset{a[0]};
      assert a == [a[0]] + a[1..];
      assert multiset(a) == multiset{a[0]} + multiset(a[1..]);
      SumOfPermutation(a[1..], rest, f);
    }
  }
}
