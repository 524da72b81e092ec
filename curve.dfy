/**
  The fixed sales curve of `simular_investidor`
  (simulador_imobiliario.py:41-45): half of the units sell in month 0 and
  5% in each of months 1 to 10, as far as the horizon reaches.
 */
module Curve {
  import opened Series

  /** The share sold in month 0. */
  const LaunchShare: real := 0.5
  /** The share sold in each of the following months. */
  const MonthlyShare: real := 0.05
  /** The last month of the curve that receives `MonthlyShare`. */
  const LastSalesMonth: nat := 10

  /** The curve over a horizon of `n` months. */
  function SalesCurve(n: nat): (c: seq<real>)
    ensures |c| == n
  {
    seq(n, i requires 0 <= i < n => if i == 0 then LaunchShare else if i <= LastSalesMonth then MonthlyShare else 0.0)
  }

  /**
    The source's construction: a zero-filled list of length `meses_total`,
    0.5 written at index 0, then 0.05 at each index 1..10 that lies inside
    the horizon.
   */
  method BuildSalesCurve(mesesTotal: nat) returns (curva: seq<real>)
    requires mesesTotal >= 1
    ensures |curva| == mesesTotal && curva[0] == 0.5
    ensures forall i :: 1 <= i < mesesTotal ==> curva[i] == if i <= 10 then 0.05 else 0.0
    ensures curva == SalesCurve(mesesTotal)
  {
    var a := new real[mesesTotal](_ => 0.0);
    a[0] := 0.5;
    for i := 1 to 11
      invariant a[0] == 0.5
      invariant forall t :: 1 <= t < mesesTotal ==> a[t] == if t < i then 0.05 else 0.0
    {
      if i < mesesTotal {
        a[i] := 0.05;
      }
    }
    curva := a[..];
  }

  /** The curve's total over `n >= 1` months: 0.5 plus 0.05 for each of months 1..min(10, n - 1). */
  lemma {:induction false} SalesCurveSum(n: nat)
    requires n >= 1
    ensures Sum(SalesCurve(n)) == 0.5 + 0.05 * (if n <= 11 then (n - 1) as real else 10.0)
  {
    if n > 1 {
      assert SalesCurve(n)[..n - 1] == SalesCurve(n - 1);
      SalesCurveSum(n - 1);
    }
  }

  /**
    Every share lies in [0, 1], nothing is sold after month 10, the shares
    never add up to more than the whole deal, and they add up to exactly
    the whole deal if and only if the horizon covers months 0..10.
   */
  lemma SalesCurveBounded(n: nat)
    requires n >= 1
    ensures forall i :: 0 <= i < n ==> 0.0 <= SalesCurve(n)[i] <= 1.0
    ensures forall i :: LastSalesMonth < i < n ==> SalesCurve(n)[i] == 0.0
    ensures Sum(SalesCurve(n)) <= 1.0
    ensures Sum(SalesCurve(n)) == 1.0 <==> n >= 11
  {
    SalesCurveSum(n);
  }
}
