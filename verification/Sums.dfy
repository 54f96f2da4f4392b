/** Sums over sequences, for integer base units and for exact rationals. */
module Sums {

  function Sum(s: seq<int>): int {
    if s == [] then 0 else Sum(s[..|s| - 1]) + s[|s| - 1]
  }

  lemma {:induction false} SumUpdate(s: seq<int>, i: nat, v: int)
    requires i < |s|
    ensures Sum(s[i := v]) == Sum(s) - s[i] + v
  {
    var n := |s| - 1;
    if i == n {
      assert s[i := v][..n] == s[..n];
    } else {
      assert s[i := v][..n] == s[..n][i := v];
      SumUpdate(s[..n], i, v);
    }
  }

  /** Adding d times one vector to another adds d times its sum. */
  lemma {:induction false} SumAffine(a: seq<int>, b: seq<int>, d: int, c: seq<int>)
    requires |a| == |b| == |c|
    requires forall i :: 0 <= i < |a| ==> c[i] == a[i] + b[i] * d
    ensures Sum(c) == Sum(a) + Sum(b) * d
  {
    if a != [] {
      var n := |a| - 1;
      SumAffine(a[..n], b[..n], d, c[..n]);
      assert Sum(b) * d == Sum(b[..n]) * d + b[n] * d;
    }
  }

  lemma {:induction false} SumNonNegative(s: seq<int>)
    requires forall i :: 0 <= i < |s| ==> 0 <= s[i]
    ensures 0 <= Sum(s)
    ensures forall i :: 0 <= i < |s| ==> s[i] <= Sum(s)
  {
    if s != [] {
      var n := |s| - 1;
      SumNonNegative(s[..n]);
      assert forall i :: 0 <= i < n ==> s[i] == s[..n][i];
    }
  }

  lemma {:induction false} SumZero(s: seq<int>)
    requires forall i :: 0 <= i < |s| ==> s[i] == 0
    ensures Sum(s) == 0
  {
    if s != [] {
      SumZero(s[..|s| - 1]);
    }
  }

  lemma SumPrefix(s: seq<int>, k: nat)
    requires k < |s|
    ensures Sum(s[..k + 1]) == Sum(s[..k]) + s[k]
  {
    assert s[..k + 1][..k] == s[..k];
  }

  function SumReal(s: seq<real>): real {
    if s == [] then 0.0 else SumReal(s[..|s| - 1]) + s[|s| - 1]
  }

  /** The rational counterpart of SumAffine, with an integer weight vector. */
  lemma {:induction false} SumRealAffine(a: seq<real>, b: seq<int>, d: real, c: seq<real>)
    requires |a| == |b| == |c|
    requires forall i :: 0 <= i < |a| ==> c[i] == a[i] + b[i] as real * d
    ensures SumReal(c) == SumReal(a) + Sum(b) as real * d
  {
    if a != [] {
      var n := |a| - 1;
      SumRealAffine(a[..n], b[..n], d, c[..n]);
      assert Sum(b) as real * d == Sum(b[..n]) as real * d + b[n] as real * d;
    } else {
      assert Sum(b) as real * d == 0.0;
    }
  }

  /** A sum of differences, where the subtracted vector is an integer one. */
  lemma {:induction false} SumRealMinus(a: seq<real>, b: seq<int>, c: seq<real>, k: real)
    requires |a| == |b| == |c|
    requires forall i :: 0 <= i < |a| ==> c[i] == k * a[i] - b[i] as real
    ensures SumReal(c) == k * SumReal(a) - Sum(b) as real
  {
    if a != [] {
      var n := |a| - 1;
      SumRealMinus(a[..n], b[..n], c[..n], k);
      assert k * SumReal(a) == k * SumReal(a[..n]) + k * a[n];
    }
  }
}
