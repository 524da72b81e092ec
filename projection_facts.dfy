/**
  Properties of the investor's cash-flow projection: where each
  receivable installment lands, how much of each column survives the
  horizon, and what the indicators come to on the fixed sales curve.
 */
module ProjectionFacts {
  import opened Series
  import opened Wrappers
  import Sac
  import Curve
  import Indicators
  import opened Projection

  // ---------------------------------------------------------------------
  // Superposition: where the installments land

  /** Sales in month `t` or later pay nothing in month `t`. */
  lemma {:induction false} LaterSalesPayNothing(v: real, curva: seq<real>, juros: real, sales: nat, t: nat)
    requires t <= sales <= |curva|
    ensures ReceivedUpTo(v, curva, juros, sales, t) == ReceivedUpTo(v, curva, juros, t, t)
  {
    if sales > t {
      LaterSalesPayNothing(v, curva, juros, sales - 1, t);
    }
  }

  /**
    Month `t` of the installment column holds only installments of sales
    made strictly before `t`, installment `t - mes - 1` of the sale of
    month `mes` and only while that is one of its 48; month 0 therefore
    holds nothing.
   */
  lemma ReceivablesFromEarlierSales(v: real, curva: seq<real>, juros: real, t: nat)
    requires t < |curva|
    ensures ReceivableSchedule(v, curva, juros)[t] == ReceivedUpTo(v, curva, juros, t, t)
    ensures ReceivableSchedule(v, curva, juros)[0] == 0.0
  {
    LaterSalesPayNothing(v, curva, juros, |curva|, t);
    LaterSalesPayNothing(v, curva, juros, |curva|, 0);
  }

  // ---------------------------------------------------------------------
  // Conservation: what of each schedule the horizon keeps

  /** How many installments of a sale in month `mes` land before month `horizon`. */
  function Kept(horizon: nat, mes: nat): (k: nat)
    ensures k <= SacMonths
    ensures mes + k < horizon || k == 0
    ensures k < SacMonths ==> mes + k + 1 >= horizon
  {
    if horizon <= mes + 1 then 0
    else if horizon - mes - 1 >= SacMonths then SacMonths
    else horizon - mes - 1
  }

  /** The part of the receivable of month `mes` that lands inside the horizon. */
  function Landed(v: real, curva: seq<real>, juros: real, mes: nat): real
    requires mes < |curva|
  {
    if IsSale(v, curva, mes) then
      Sum(Sac.Schedule(SaleValue(v, curva, mes) * ReceivableShare, SacMonths, juros)[..Kept(|curva|, mes)])
    else 0.0
  }

  /** What the sales before `sales` deliver inside the horizon. */
  function LandedUpTo(v: real, curva: seq<real>, juros: real, sales: nat): real
    requires sales <= |curva|
  {
    if sales == 0 then 0.0 else LandedUpTo(v, curva, juros, sales - 1) + Landed(v, curva, juros, sales - 1)
  }

  /** What the sale of month `mes` pays in the months before `t`. */
  function RowTotal(v: real, curva: seq<real>, juros: real, mes: nat, t: nat): real
    requires mes < |curva|
  {
    if t == 0 then 0.0 else RowTotal(v, curva, juros, mes, t - 1) + Contribution(v, curva, juros, mes, t - 1)
  }

  /** What the sales before `sales` pay, all together, in the months before `t`. */
  function SalesRowSum(v: real, curva: seq<real>, juros: real, sales: nat, t: nat): real
    requires sales <= |curva|
  {
    if sales == 0 then 0.0 else SalesRowSum(v, curva, juros, sales - 1, t) + RowTotal(v, curva, juros, sales - 1, t)
  }

  lemma {:induction false} SalesRowStep(v: real, curva: seq<real>, juros: real, sales: nat, t: nat)
    requires sales <= |curva|
    ensures SalesRowSum(v, curva, juros, sales, t + 1) == SalesRowSum(v, curva, juros, sales, t) + ReceivedUpTo(v, curva, juros, sales, t)
  {
    if sales > 0 {
      SalesRowStep(v, curva, juros, sales - 1, t);
    }
  }

  lemma {:induction false} NoMonthsNoPayments(v: real, curva: seq<real>, juros: real, sales: nat)
    requires sales <= |curva|
    ensures SalesRowSum(v, curva, juros, sales, 0) == 0.0
  {
    if sales > 0 {
      NoMonthsNoPayments(v, curva, juros, sales - 1);
    }
  }

  /** Summing the column month by month equals summing sale by sale. */
  lemma {:induction false} ColumnBySales(v: real, curva: seq<real>, juros: real, t: nat)
    requires t <= |curva|
    ensures Sum(ReceivableSchedule(v, curva, juros)[..t]) == SalesRowSum(v, curva, juros, |curva|, t)
  {
    if t == 0 {
      NoMonthsNoPayments(v, curva, juros, |curva|);
      assert ReceivableSchedule(v, curva, juros)[..0] == [];
    } else {
      ColumnBySales(v, curva, juros, t - 1);
      SumPrefixStep(ReceivableSchedule(v, curva, juros), t - 1);
      SalesRowStep(v, curva, juros, |curva|, t - 1);
    }
  }

  /** The months before `t` receive from a sale exactly the first installments that land before `t`. */
  lemma {:induction false} RowIsSchedulePrefix(v: real, curva: seq<real>, juros: real, mes: nat, t: nat)
    requires mes < |curva|
    ensures RowTotal(v, curva, juros, mes, t) ==
      if IsSale(v, curva, mes) then
        Sum(Sac.Schedule(SaleValue(v, curva, mes) * ReceivableShare, SacMonths, juros)[..Kept(t, mes)])
      else 0.0
  {
    if t > 0 {
      RowIsSchedulePrefix(v, curva, juros, mes, t - 1);
      var s := Sac.Schedule(SaleValue(v, curva, mes) * ReceivableShare, SacMonths, juros);
      if IsSale(v, curva, mes) && mes < t - 1 && t - 1 - mes - 1 < SacMonths {
        assert Kept(t, mes) == Kept(t - 1, mes) + 1;
        SumPrefixStep(s, Kept(t - 1, mes));
      } else {
        assert IsSale(v, curva, mes) ==> Kept(t, mes) == Kept(t - 1, mes);
      }
    }
  }

  lemma {:induction false} SalesRowsAreLanded(v: real, curva: seq<real>, juros: real, sales: nat)
    requires sales <= |curva|
    ensures SalesRowSum(v, curva, juros, sales, |curva|) == LandedUpTo(v, curva, juros, sales)
  {
    if sales > 0 {
      SalesRowsAreLanded(v, curva, juros, sales - 1);
      RowIsSchedulePrefix(v, curva, juros, sales - 1, |curva|);
    }
  }

  /**
    Conservation under superposition: the installment column adds up to
    exactly the installments of every sale's schedule that land inside
    the horizon; the rest of each schedule is dropped.
   */
  lemma ReceivablesConserved(v: real, curva: seq<real>, juros: real)
    ensures Sum(ReceivableSchedule(v, curva, juros)) == LandedUpTo(v, curva, juros, |curva|)
  {
    var p := ReceivableSchedule(v, curva, juros);
    ColumnBySales(v, curva, juros, |curva|);
    assert p[..|curva|] == p;
    SalesRowsAreLanded(v, curva, juros, |curva|);
  }

  /** The share of one sale's receivable that its full schedule repays, interest included. */
  function ReceivableYield(juros: real): real
  {
    ReceivableShare * (1.0 + juros * 49.0 / 2.0)
  }

  /** A sale's full 48-month schedule repays `ReceivableYield(juros)` per unit sold. */
  lemma FullScheduleYield(sale: real, juros: real)
    ensures Sum(Sac.Schedule(sale * ReceivableShare, SacMonths, juros)) == ReceivableYield(juros) * sale
  {
    var principal := sale * ReceivableShare;
    Sac.TotalPaid(principal, SacMonths, juros);
    assert principal + juros * principal * (SacMonths as real + 1.0) / 2.0 == ReceivableYield(juros) * sale;
  }

  lemma {:induction false} AllLanded(v: real, curva: seq<real>, juros: real, sales: nat)
    requires sales <= |curva|
    requires forall mes :: 0 <= mes < |curva| && IsSale(v, curva, mes) ==> mes + SacMonths < |curva|
    ensures LandedUpTo(v, curva, juros, sales) == ReceivableYield(juros) * SoldUpTo(v, curva, sales)
  {
    if sales > 0 {
      var mes, y := sales - 1, ReceivableYield(juros);
      AllLanded(v, curva, juros, mes);
      if IsSale(v, curva, mes) {
        var s := Sac.Schedule(SaleValue(v, curva, mes) * ReceivableShare, SacMonths, juros);
        assert s[..Kept(|curva|, mes)] == s;
        FullScheduleYield(SaleValue(v, curva, mes), juros);
      }
      assert Landed(v, curva, juros, mes) == y * Sold(v, curva, mes);
      assert y * SoldUpTo(v, curva, mes) + y * Sold(v, curva, mes) == y * SoldUpTo(v, curva, sales);
    }
  }

  /**
    When every sale is at least 48 months before the end of the horizon
    nothing is dropped: the installment column returns 20% of the value
    sold plus the SAC interest, `0.2 * (1 + 24.5 * juros)` per unit sold.
   */
  lemma ReceivablesWithinHorizon(v: real, curva: seq<real>, juros: real)
    requires forall mes :: 0 <= mes < |curva| && IsSale(v, curva, mes) ==> mes + SacMonths < |curva|
    ensures Sum(ReceivableSchedule(v, curva, juros)) == ReceivableYield(juros) * SoldUpTo(v, curva, |curva|)
  {
    ReceivablesConserved(v, curva, juros);
    AllLanded(v, curva, juros, |curva|);
  }

  // ---------------------------------------------------------------------
  // The other columns

  lemma {:induction false} EntryPrefix(v: real, curva: seq<real>, m: nat)
    requires m <= |curva|
    ensures Sum(EntrySchedule(v, curva)[..m]) == EntryShare * SoldUpTo(v, curva, m)
  {
    if m > 0 {
      EntryPrefix(v, curva, m - 1);
      SumPrefixStep(EntrySchedule(v, curva), m - 1);
    }
  }

  /** The entry column adds up to 10% of the value sold. */
  lemma EntryTotal(v: real, curva: seq<real>)
    ensures Sum(EntrySchedule(v, curva)) == EntryShare * SoldUpTo(v, curva, |curva|)
  {
    EntryPrefix(v, curva, |curva|);
    assert EntrySchedule(v, curva)[..|curva|] == EntrySchedule(v, curva);
  }

  lemma {:induction false} KeysPrefix(v: real, curva: seq<real>, m: nat)
    requires m <= |curva|
    ensures Sum(KeysSchedule(v, curva)[..m]) == if m > KeysMonth then KeysShare * SoldUpTo(v, curva, |curva|) else 0.0
  {
    if m > 0 {
      KeysPrefix(v, curva, m - 1);
      SumPrefixStep(KeysSchedule(v, curva), m - 1);
    }
  }

  /**
    The delivery column is zero outside month 59, holds 70% of the value
    sold there, and is zero altogether when the horizon ends before month
    59; its sum is accordingly 70% of the value sold or nothing.
   */
  lemma KeysTotal(v: real, curva: seq<real>)
    ensures forall t :: 0 <= t < |curva| && t != KeysMonth ==> KeysSchedule(v, curva)[t] == 0.0
    ensures |curva| > KeysMonth ==> KeysSchedule(v, curva)[KeysMonth] == KeysShare * SoldUpTo(v, curva, |curva|)
    ensures Sum(KeysSchedule(v, curva)) == if |curva| > KeysMonth then KeysShare * SoldUpTo(v, curva, |curva|) else 0.0
  {
    KeysPrefix(v, curva, |curva|);
    assert KeysSchedule(v, curva)[..|curva|] == KeysSchedule(v, curva);
  }

  lemma {:induction false} LandPrefix(v: real, parcelasTerreno: nat, n: nat, m: nat)
    requires 1 <= parcelasTerreno && m <= n
    ensures Sum(LandPayments(v, parcelasTerreno, n)[..m]) ==
      -((if m <= parcelasTerreno then m else parcelasTerreno) as real * (v / parcelasTerreno as real))
  {
    if m > 0 {
      LandPrefix(v, parcelasTerreno, n, m - 1);
      SumPrefixStep(LandPayments(v, parcelasTerreno, n), m - 1);
    }
  }

  /** With `1 <= parcelas_terreno <= meses_total` the investor's land payments add up to minus the deal value. */
  lemma LandPaymentsTotal(v: real, parcelasTerreno: nat, n: nat)
    requires 1 <= parcelasTerreno <= n
    ensures Sum(LandPayments(v, parcelasTerreno, n)) == -v
  {
    LandPrefix(v, parcelasTerreno, n, n);
    assert LandPayments(v, parcelasTerreno, n)[..n] == LandPayments(v, parcelasTerreno, n);
  }

  /** The investor's flows add up to the land payments plus the three inflow columns. */
  lemma FlowTotal(v: real, parcelasTerreno: nat, entrada: seq<real>, parcelas: seq<real>, chaves: seq<real>)
    requires 1 <= parcelasTerreno <= |entrada|
    requires |parcelas| == |entrada| && |chaves| == |entrada|
    ensures Sum(InvestorFlow(v, parcelasTerreno, entrada, parcelas, chaves)) == -v + Sum(entrada) + Sum(parcelas) + Sum(chaves)
  {
    SumPlus(parcelas, chaves);
    SumPlus(entrada, Plus(parcelas, chaves));
    SumPlus(LandPayments(v, parcelasTerreno, |entrada|), Plus(entrada, Plus(parcelas, chaves)));
    LandPaymentsTotal(v, parcelasTerreno, |entrada|);
  }

  // ---------------------------------------------------------------------
  // The fixed sales curve

  lemma {:induction false} SoldIsShareOfValue(v: real, curva: seq<real>, m: nat)
    requires m <= |curva|
    requires forall i :: 0 <= i < m ==> v * curva[i] >= 0.0
    ensures SoldUpTo(v, curva, m) == v * Sum(curva[..m])
  {
    if m > 0 {
      SoldIsShareOfValue(v, curva, m - 1);
      SumPrefixStep(curva, m - 1);
      assert v * Sum(curva[..m]) == v * Sum(curva[..m - 1]) + v * curva[m - 1];
    }
  }

  lemma {:induction false} NothingSold(v: real, curva: seq<real>, m: nat)
    requires m <= |curva|
    requires forall i :: 0 <= i < m ==> !IsSale(v, curva, i)
    ensures SoldUpTo(v, curva, m) == 0.0
  {
    if m > 0 {
      NothingSold(v, curva, m - 1);
    }
  }

  /**
    On the fixed curve a positive deal value is sold in months 0..10 only,
    for `v` times the curve's total, which is the whole deal value exactly
    when the horizon covers month 10; a deal value that is not positive
    never produces a sale.
   */
  lemma SoldOnSalesCurve(v: real, n: nat)
    requires n >= 1
    ensures forall mes :: 0 <= mes < n && IsSale(v, Curve.SalesCurve(n), mes) ==> mes <= Curve.LastSalesMonth
    ensures v > 0.0 ==> SoldUpTo(v, Curve.SalesCurve(n), n) == v * Sum(Curve.SalesCurve(n))
    ensures v > 0.0 && n >= 11 ==> SoldUpTo(v, Curve.SalesCurve(n), n) == v
    ensures v <= 0.0 ==> forall mes :: 0 <= mes < n ==> !IsSale(v, Curve.SalesCurve(n), mes)
    ensures v <= 0.0 ==> SoldUpTo(v, Curve.SalesCurve(n), n) == 0.0
  {
    var c := Curve.SalesCurve(n);
    Curve.SalesCurveBounded(n);
    if v > 0.0 {
      forall i | 0 <= i < n ensures v * c[i] >= 0.0 {
        assert c[i] >= 0.0;
      }
      SoldIsShareOfValue(v, c, n);
      assert c[..n] == c;
    } else {
      forall i | 0 <= i < n ensures !IsSale(v, c, i) {
        assert c[i] >= 0.0;
        assert v * c[i] <= 0.0;
      }
      NothingSold(v, c, n);
    }
  }

  // ---------------------------------------------------------------------
  // The indicators of the whole simulation

  /**
    The total of the investor's flows on the fixed curve, for a positive
    deal value and a horizon that reaches month 59: the land payments,
    the entries and the delivery payments come to -20% of the deal value,
    the receivables' principal makes that up, and what remains is their
    interest, `4.9 * juros` per unit of deal value.
   */
  lemma FlowTotalOnSalesCurve(v: real, parcelasTerreno: nat, juros: real, n: nat)
    requires 1 <= parcelasTerreno <= n
    requires v > 0.0 && n > KeysMonth
    ensures Sum(Simulation(v, parcelasTerreno, juros, n).fluxoInvestidor) == 4.9 * juros * v
  {
    var c := Curve.SalesCurve(n);
    var r := Simulation(v, parcelasTerreno, juros, n);
    SoldOnSalesCurve(v, n);
    FlowTotal(v, parcelasTerreno, r.entrada, r.parcelas, r.chaves);
    EntryTotal(v, c);
    KeysTotal(v, c);
    ReceivablesWithinHorizon(v, c, juros);
    assert SoldUpTo(v, c, n) == v;
  }

  /**
    With a negative deal value nothing is sold, so the investor's flows
    are the land payments alone and add up to minus the deal value.
   */
  lemma FlowTotalWithoutSales(v: real, parcelasTerreno: nat, juros: real, n: nat)
    requires 1 <= parcelasTerreno <= n
    requires v < 0.0
    ensures Sum(Simulation(v, parcelasTerreno, juros, n).fluxoInvestidor) == -v
  {
    var c := Curve.SalesCurve(n);
    var r := Simulation(v, parcelasTerreno, juros, n);
    SoldOnSalesCurve(v, n);
    FlowTotal(v, parcelasTerreno, r.entrada, r.parcelas, r.chaves);
    EntryTotal(v, c);
    KeysTotal(v, c);
    ReceivablesConserved(v, c, juros);
    NothingLanded(v, c, juros, n);
  }

  /** A quotient whose numerator is a known multiple of the divisor. */
  lemma QuotientOfMultiple(total: real, v: real, factor: real)
    requires v != 0.0 && total == factor * v
    ensures total / v == factor
  {
  }

  /** MoIC when the flows sum to a known multiple of the deal value. */
  lemma MoicOfMultiple(f: seq<real>, v: real, factor: real)
    requires v != 0.0 && Sum(f) == factor * v
    ensures Indicators.Moic(f, v) == factor
  {
    QuotientOfMultiple(Sum(f), v, factor);
  }

  lemma MoicWithSales(v: real, parcelasTerreno: nat, juros: real, n: nat)
    requires 1 <= parcelasTerreno <= n
    requires v > 0.0 && n > KeysMonth
    ensures Simulation(v, parcelasTerreno, juros, n).moic == 4.9 * juros
  {
    var f := Simulation(v, parcelasTerreno, juros, n).fluxoInvestidor;
    FlowTotalOnSalesCurve(v, parcelasTerreno, juros, n);
    MoicOfMultiple(f, v, 4.9 * juros);
  }

  lemma MoicWithoutSales(v: real, parcelasTerreno: nat, juros: real, n: nat)
    requires 1 <= parcelasTerreno <= n
    requires v < 0.0
    ensures Simulation(v, parcelasTerreno, juros, n).moic == -1.0
  {
    var f := Simulation(v, parcelasTerreno, juros, n).fluxoInvestidor;
    FlowTotalWithoutSales(v, parcelasTerreno, juros, n);
    MoicOfMultiple(f, v, -1.0);
  }

  /**
    MoIC on the fixed curve. With a positive deal value and a horizon that
    reaches month 59 (the default 120 months does), MoIC is `4.9 *
    juros_mensal`, whatever the number of land installments. With a
    negative deal value nothing is sold and MoIC is -1.
   */
  lemma MoicOnSalesCurve(v: real, parcelasTerreno: nat, juros: real, n: nat)
    requires 1 <= parcelasTerreno <= n
    requires v != 0.0
    ensures v > 0.0 && n > KeysMonth ==> Simulation(v, parcelasTerreno, juros, n).moic == 4.9 * juros
    ensures v < 0.0 ==> Simulation(v, parcelasTerreno, juros, n).moic == -1.0
  {
    if v > 0.0 && n > KeysMonth {
      MoicWithSales(v, parcelasTerreno, juros, n);
    }
    if v < 0.0 {
      MoicWithoutSales(v, parcelasTerreno, juros, n);
    }
  }

  lemma {:induction false} NothingLanded(v: real, curva: seq<real>, juros: real, sales: nat)
    requires sales <= |curva|
    requires forall i :: 0 <= i < |curva| ==> !IsSale(v, curva, i)
    ensures LandedUpTo(v, curva, juros, sales) == 0.0
  {
    if sales > 0 {
      NothingLanded(v, curva, juros, sales - 1);
    }
  }

  // ---------------------------------------------------------------------
  // Payback

  lemma {:induction false} NoLateInstallments(v: real, n: nat, juros: real, sales: nat, t: nat)
    requires n >= 1 && sales <= n && t >= Curve.LastSalesMonth + SacMonths + 1
    ensures ReceivedUpTo(v, Curve.SalesCurve(n), juros, sales, t) == 0.0
  {
    if sales > 0 {
      NoLateInstallments(v, n, juros, sales - 1, t);
      var mes := sales - 1;
      if IsSale(v, Curve.SalesCurve(n), mes) {
        SoldOnSalesCurve(v, n);
      }
    }
  }

  /**
    On the fixed curve, when the land is paid within the first 60 months,
    every flow from month 60 on is zero: the last sale is in month 10, its
    48th installment in month 58, and delivery in month 59.
   */
  lemma FlowsEndAtDelivery(v: real, parcelasTerreno: nat, juros: real, n: nat)
    requires 1 <= parcelasTerreno <= n && v != 0.0
    requires parcelasTerreno <= KeysMonth + 1
    ensures forall t :: KeysMonth < t < n ==> Simulation(v, parcelasTerreno, juros, n).fluxoInvestidor[t] == 0.0
  {
    var c := Curve.SalesCurve(n);
    var r := Simulation(v, parcelasTerreno, juros, n);
    forall t | KeysMonth < t < n
      ensures r.fluxoInvestidor[t] == 0.0
    {
      assert c[t] == 0.0;
      assert r.entrada[t] == 0.0;
      NoLateInstallments(v, n, juros, n, t);
      assert r.parcelas[t] == 0.0;
      assert r.chaves[t] == 0.0;
      assert LandPayments(v, parcelasTerreno, n)[t] == 0.0;
    }
  }

  lemma {:induction false} ZeroTail(s: seq<real>, m: nat)
    requires m <= |s|
    requires forall t :: m <= t < |s| ==> s[t] == 0.0
    ensures Sum(s[..m]) == Sum(s)
  {
    if m < |s| {
      var n := |s| - 1;
      assert s[..n][..m] == s[..m];
      ZeroTail(s[..n], m);
    } else {
      assert s[..m] == s;
    }
  }

  /** The interest left over is non-negative for a positive deal value and a non-negative rate. */
  lemma InterestNonNegative(v: real, juros: real)
    requires v > 0.0 && juros >= 0.0
    ensures 4.9 * juros * v >= 0.0
  {
    assert juros * v >= 0.0;
  }

  /**
    With a positive deal value, a non-negative monthly rate, a horizon
    that reaches month 59 and the land paid within the first 60 months,
    the investor's running sum is non-negative after month 60 at the
    latest, so a payback month exists and is at most 60.
   */
  lemma PaybackByDelivery(v: real, parcelasTerreno: nat, juros: real, n: nat)
    requires 1 <= parcelasTerreno <= KeysMonth + 1
    requires v > 0.0 && juros >= 0.0 && n > KeysMonth
    ensures Simulation(v, parcelasTerreno, juros, n).payback.Some?
    ensures Simulation(v, parcelasTerreno, juros, n).payback.value <= KeysMonth + 1
  {
    var r := Simulation(v, parcelasTerreno, juros, n);
    var f := r.fluxoInvestidor;
    FlowTotalOnSalesCurve(v, parcelasTerreno, juros, n);
    FlowsEndAtDelivery(v, parcelasTerreno, juros, n);
    ZeroTail(f, KeysMonth + 1);
    InterestNonNegative(v, juros);
  }

  /** Every installment of the column is non-negative when the rate is. */
  lemma {:induction false} ReceivedNonNegative(v: real, curva: seq<real>, juros: real, sales: nat, t: nat)
    requires sales <= |curva| && juros >= 0.0
    ensures ReceivedUpTo(v, curva, juros, sales, t) >= 0.0
  {
    if sales > 0 {
      ReceivedNonNegative(v, curva, juros, sales - 1, t);
      var mes := sales - 1;
      if IsSale(v, curva, mes) && mes < t && t - mes - 1 < SacMonths {
        Sac.InstallmentNonNegative(SaleValue(v, curva, mes) * ReceivableShare, SacMonths, juros, t - mes - 1);
      }
    }
  }

  /** The delivery payment outweighs the interest when the rate is below 1/7 a month. */
  lemma DeliveryOutweighsInterest(v: real, juros: real)
    requires v > 0.0 && 7.0 * juros < 1.0
    ensures 4.9 * juros * v - KeysShare * v < 0.0
  {
    assert (0.7 - 4.9 * juros) * v > 0.0;
  }

  /**
    Around delivery on the fixed curve: from the month after the last land
    installment up to month 58 no flow is negative, and month 59 holds
    exactly the delivery payment, 70% of the deal value.
   */
  lemma FlowsBeforeDelivery(v: real, parcelasTerreno: nat, juros: real, n: nat)
    requires 1 <= parcelasTerreno <= KeysMonth
    requires v > 0.0 && 0.0 <= juros && n > KeysMonth
    ensures var f := Simulation(v, parcelasTerreno, juros, n).fluxoInvestidor;
      forall t :: parcelasTerreno <= t < KeysMonth ==> f[t] >= 0.0
    ensures Simulation(v, parcelasTerreno, juros, n).fluxoInvestidor[KeysMonth] == KeysShare * v
  {
    var c := Curve.SalesCurve(n);
    var f := Simulation(v, parcelasTerreno, juros, n).fluxoInvestidor;
    SoldOnSalesCurve(v, n);
    NoLateInstallments(v, n, juros, n, KeysMonth);
    forall t | parcelasTerreno <= t < KeysMonth
      ensures f[t] >= 0.0
    {
      ReceivedNonNegative(v, c, juros, n, t);
    }
  }

  /**
    A series whose first 60 elements sum to `4.9 * juros * v`, whose
    element 59 is `0.7 * v` and which is non-negative from `from` to 58
    has a negative running sum at every month from `from` to 59.
   */
  lemma RunningSumsBeforeDelivery(f: seq<real>, from: nat, v: real, juros: real)
    requires from <= KeysMonth < |f|
    requires v > 0.0 && 7.0 * juros < 1.0
    requires Sum(f[..KeysMonth + 1]) == 4.9 * juros * v && f[KeysMonth] == KeysShare * v
    requires forall t :: from <= t < KeysMonth ==> f[t] >= 0.0
    ensures forall q :: from <= q <= KeysMonth ==> Sum(f[..q]) < 0.0
  {
    SumPrefixStep(f, KeysMonth);
    DeliveryOutweighsInterest(v, juros);
    forall q | from <= q <= KeysMonth
      ensures Sum(f[..q]) < 0.0
    {
      SumPrefixMonotone(f, q, KeysMonth);
    }
  }

  /**
    With a positive deal value, a rate in [0, 1/7) a month and the land
    paid before month 59, every running sum from the last land
    installment up to month 59 is negative: the flows there are
    non-negative and their total before delivery is `(4.9 * juros - 0.7)`
    times the deal value. So the investor breaks even either while still
    paying for the land or exactly with the delivery payment, in month 60.
   */
  lemma PaybackAtDelivery(v: real, parcelasTerreno: nat, juros: real, n: nat)
    requires 1 <= parcelasTerreno <= KeysMonth
    requires v > 0.0 && 0.0 <= juros && 7.0 * juros < 1.0 && n > KeysMonth
    ensures var f := Simulation(v, parcelasTerreno, juros, n).fluxoInvestidor;
      forall q :: parcelasTerreno <= q <= KeysMonth ==> Sum(f[..q]) < 0.0
    ensures var p := Simulation(v, parcelasTerreno, juros, n).payback;
      p.Some? && (p.value < parcelasTerreno || p.value == KeysMonth + 1)
  {
    var f := Simulation(v, parcelasTerreno, juros, n).fluxoInvestidor;
    FlowTotalOnSalesCurve(v, parcelasTerreno, juros, n);
    FlowsEndAtDelivery(v, parcelasTerreno, juros, n);
    ZeroTail(f, KeysMonth + 1);
    FlowsBeforeDelivery(v, parcelasTerreno, juros, n);
    RunningSumsBeforeDelivery(f, parcelasTerreno, v, juros);
    PaybackByDelivery(v, parcelasTerreno, juros, n);
  }

  // ---------------------------------------------------------------------
  // The application's default run

  /**
    The first two months of the form's default run (deal value 300000,
    3 land installments, 0.5% a month, 120 months): month 0 nets the first
    land installment against the entry of the launch sale, month 1 nets
    the second against that month's entry and the launch sale's first
    installment.
   */
  lemma DefaultFirstMonths()
    ensures var f := Simulation(300000.0, 3, 0.005, DefaultHorizon).fluxoInvestidor;
      f[0] == -100000.0 + 15000.0 && f[1] == -100000.0 + 1500.0 + 775.0
  {
    var r := Simulation(300000.0, 3, 0.005, DefaultHorizon);
    var c := Curve.SalesCurve(DefaultHorizon);
    ReceivablesFromEarlierSales(300000.0, c, 0.005, 0);
    ReceivablesFromEarlierSales(300000.0, c, 0.005, 1);
    assert r.parcelas[1] == 775.0;
  }

  /**
    The form's default run over the default horizon: MoIC is 2.45%, and
    the investor breaks even in month 60, with the delivery payment.
   */
  lemma DefaultRun()
    ensures var r := Simulation(300000.0, 3, 0.005, DefaultHorizon);
      r.fluxoInvestidor[0] == -100000.0 + 15000.0
      && r.fluxoInvestidor[1] == -100000.0 + 1500.0 + 775.0
      && r.moic == 0.0245
      && r.payback == Some(60)
  {
    var f := Simulation(300000.0, 3, 0.005, DefaultHorizon).fluxoInvestidor;
    DefaultFirstMonths();
    MoicOnSalesCurve(300000.0, 3, 0.005, DefaultHorizon);
    PaybackAtDelivery(300000.0, 3, 0.005, DefaultHorizon);
    SumPrefixStep(f, 0);
    SumPrefixStep(f, 1);
    assert Sum(f[..1]) < 0.0 && Sum(f[..2]) < 0.0;
  }
}
