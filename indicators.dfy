/**
  The indicators derived from the investor's cash-flow vector
  (simulador_imobiliario.py:78-79): the multiple on invested capital and
  the payback month. The internal rate of return (`calcular_tir`) is not
  part of this model.
 */
module Indicators {
  import opened Series
  import opened Wrappers

  /** MoIC: the sum of all flows divided by the deal value, not time-weighted. */
  function Moic(fluxos: seq<real>, base: real): (r: real)
    requires base != 0.0
    ensures r * base == Sum(fluxos)
  {
    Sum(fluxos) / base
  }

  /** Scaling the numerator scales a quotient; scaling both sides leaves it unchanged. */
  lemma QuotientScaling(scaled: real, total: real, base: real, k: real)
    requires base != 0.0 && scaled == k * total
    ensures scaled / base == k * (total / base)
    ensures k != 0.0 ==> scaled / (k * base) == total / base
  {
  }

  /**
    MoIC is linear in the flows when the basis is held fixed, and
    unchanged when flows and basis are scaled together.
   */
  lemma MoicScaling(fluxos: seq<real>, base: real, k: real)
    requires base != 0.0
    ensures Moic(Scale(fluxos, k), base) == k * Moic(fluxos, base)
    ensures k != 0.0 ==> Moic(Scale(fluxos, k), k * base) == Moic(fluxos, base)
  {
    SumScale(fluxos, k);
    QuotientScaling(Sum(Scale(fluxos, k)), Sum(fluxos), base, k);
  }

  /**
    The search of the generator at :79 from position `p` on: the first
    1-based month `q > p` whose running sum of flows is non-negative.
   */
  function PaybackFrom(fluxos: seq<real>, p: nat): (r: Option<nat>)
    requires p <= |fluxos|
    ensures r.Some? ==> p < r.value <= |fluxos| && Sum(fluxos[..r.value]) >= 0.0
    ensures r.Some? ==> forall q :: p < q < r.value ==> Sum(fluxos[..q]) < 0.0
    ensures r.None? <==> forall q :: p < q <= |fluxos| ==> Sum(fluxos[..q]) < 0.0
    decreases |fluxos| - p
  {
    if p == |fluxos| then None
    else if Sum(fluxos[..p + 1]) >= 0.0 then Some(p + 1)
    else PaybackFrom(fluxos, p + 1)
  }

  /**
    Payback: the least month `p` in `1..|fluxos|` whose running sum of the
    first `p` flows is non-negative, every shorter running sum being
    negative; `None` exactly when every running sum is negative.
   */
  function Payback(fluxos: seq<real>): (r: Option<nat>)
    ensures r.Some? ==> 1 <= r.value <= |fluxos| && Sum(fluxos[..r.value]) >= 0.0
    ensures r.Some? ==> forall q :: 1 <= q < r.value ==> Sum(fluxos[..q]) < 0.0
    ensures r.None? <==> forall q :: 1 <= q <= |fluxos| ==> Sum(fluxos[..q]) < 0.0
  {
    PaybackFrom(fluxos, 0)
  }
}
