/**
  Sums of monetary series. Python's `sum(...)` and the prefix sums of
  `np.cumsum(...)` both become `Sum` over a sequence (or a prefix of it).
  The sum peels off the LAST element, so that extending a prefix by one
  month is one unfolding.
 */
module Series {

  function Sum(s: seq<real>): real
  {
    if |s| == 0 then 0.0 else Sum(s[..|s| - 1]) + s[|s| - 1]
  }

  /** Elementwise sum of two series of the same length. */
  function Plus(a: seq<real>, b: seq<real>): (r: seq<real>)
    requires |a| == |b|
    ensures |r| == |a|
  {
    seq(|a|, i requires 0 <= i < |a| => a[i] + b[i])
  }

  /** Every element multiplied by `k`. */
  function Scale(s: seq<real>, k: real): (r: seq<real>)
    ensures |r| == |s|
  {
    seq(|s|, i requires 0 <= i < |s| => k * s[i])
  }

  /** Extending a prefix by one element adds that element. */
  lemma SumPrefixStep(s: seq<real>, k: nat)
    requires k < |s|
    ensures Sum(s[..k + 1]) == Sum(s[..k]) + s[k]
  {
    assert s[..k + 1][..k] == s[..k];
  }

  lemma {:induction false} SumPlus(a: seq<real>, b: seq<real>)
    requires |a| == |b|
    ensures Sum(Plus(a, b)) == Sum(a) + Sum(b)
  {
    if |a| > 0 {
      var n := |a| - 1;
      assert Plus(a, b)[..n] == Plus(a[..n], b[..n]);
      SumPlus(a[..n], b[..n]);
    }
  }

  lemma {:induction false} SumScale(s: seq<real>, k: real)
    ensures Sum(Scale(s, k)) == k * Sum(s)
  {
    if |s| > 0 {
      var n := |s| - 1;
      forall i | 0 <= i < n ensures Scale(s, k)[..n][i] == Scale(s[..n], k)[i] {
      }
      assert Scale(s, k)[..n] == Scale(s[..n], k);
      SumScale(s[..n], k);
    }
  }

  /** Over a stretch of non-negative elements the running sum never decreases. */
  lemma {:induction false} SumPrefixMonotone(s: seq<real>, q: nat, m: nat)
    requires q <= m <= |s|
    requires forall t :: q <= t < m ==> s[t] >= 0.0
    ensures Sum(s[..q]) <= Sum(s[..m])
  {
    if q < m {
      SumPrefixMonotone(s, q, m - 1);
      SumPrefixStep(s, m - 1);
    }
  }
}
