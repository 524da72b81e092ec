/**
  The investor's cash-flow projection of `simular_investidor`
  (simulador_imobiliario.py:35-81).

  Every month with a positive sale splits the value sold into a 10% entry
  booked that month, a 20% receivable repaid by a 48-month SAC schedule
  starting the month after the sale, and a 70% delivery ("chaves")
  payment booked in month 59. The schedules of all sales are superimposed
  onto one installment column; installments that would land beyond the
  horizon are dropped. The investor pays the deal value in equal
  installments over the first `parcelas_terreno` months.

  The specification functions below take the sales curve as a parameter;
  the simulation uses `Curve.SalesCurve`.
 */
module Projection {
  import opened Series
  import opened Wrappers
  import Sac
  import Curve
  import Indicators

  /** The horizon the application uses (`meses_total=120`). */
  const DefaultHorizon: nat := 120
  /** Length of every receivable's SAC schedule. */
  const SacMonths: nat := 48
  /** The month (0-based index) where every delivery payment is booked. */
  const KeysMonth: nat := 59
  const EntryShare: real := 0.10
  const ReceivableShare: real := 0.20
  const KeysShare: real := 0.70

  /** The value sold in month `m`: the deal value times that month's share. */
  function SaleValue(v: real, curva: seq<real>, m: nat): real
    requires m < |curva|
  {
    v * curva[m]
  }

  /** A month produces cash only when the value sold in it is positive. */
  predicate IsSale(v: real, curva: seq<real>, m: nat)
    requires m < |curva|
  {
    SaleValue(v, curva, m) > 0.0
  }

  /** The value actually sold in month `m` (zero for a month that is not a sale). */
  function Sold(v: real, curva: seq<real>, m: nat): real
    requires m < |curva|
  {
    if IsSale(v, curva, m) then SaleValue(v, curva, m) else 0.0
  }

  /** Value sold in the months before `sales`. */
  function SoldUpTo(v: real, curva: seq<real>, sales: nat): real
    requires sales <= |curva|
  {
    if sales == 0 then 0.0 else SoldUpTo(v, curva, sales - 1) + Sold(v, curva, sales - 1)
  }

  /** The entry column: 10% of each sale, in the month of the sale. */
  function EntrySchedule(v: real, curva: seq<real>): (e: seq<real>)
    ensures |e| == |curva|
  {
    seq(|curva|, m requires 0 <= m < |curva| => if IsSale(v, curva, m) then SaleValue(v, curva, m) * EntryShare else 0.0)
  }

  /**
    What the sale of month `mes` pays in calendar month `t`: installment
    `t - mes - 1` of the SAC schedule of 20% of the sale, when that
    installment exists.
   */
  function Contribution(v: real, curva: seq<real>, juros: real, mes: nat, t: nat): real
    requires mes < |curva|
  {
    if IsSale(v, curva, mes) && mes < t && t - mes - 1 < SacMonths then
      Sac.Installment(SaleValue(v, curva, mes) * ReceivableShare, SacMonths, juros, t - mes - 1)
    else
      0.0
  }

  /** Superposition: what the sales of the months before `sales` pay in month `t`. */
  function ReceivedUpTo(v: real, curva: seq<real>, juros: real, sales: nat, t: nat): real
    requires sales <= |curva|
  {
    if sales == 0 then 0.0
    else ReceivedUpTo(v, curva, juros, sales - 1, t) + Contribution(v, curva, juros, sales - 1, t)
  }

  /** The installment column: every sale's schedule, summed month by month within the horizon. */
  function ReceivableSchedule(v: real, curva: seq<real>, juros: real): (p: seq<real>)
    ensures |p| == |curva|
  {
    seq(|curva|, t requires 0 <= t < |curva| => ReceivedUpTo(v, curva, juros, |curva|, t))
  }

  /** The delivery column: 70% of everything sold, in month 59 when the horizon reaches it. */
  function KeysSchedule(v: real, curva: seq<real>): (k: seq<real>)
    ensures |k| == |curva|
  {
    seq(|curva|, t requires 0 <= t < |curva| => if t == KeysMonth then KeysShare * SoldUpTo(v, curva, |curva|) else 0.0)
  }

  /** The investor's land payments: `parcelas_terreno` equal negative installments from month 0. */
  function LandPayments(v: real, parcelasTerreno: nat, n: nat): (o: seq<real>)
    requires parcelasTerreno >= 1
    ensures |o| == n
  {
    seq(n, m requires 0 <= m < n => if m < parcelasTerreno then -(v / parcelasTerreno as real) else 0.0)
  }

  /** The investor's flow: land payments plus the three inflow columns, month by month. */
  function InvestorFlow(v: real, parcelasTerreno: nat, entrada: seq<real>, parcelas: seq<real>, chaves: seq<real>): (f: seq<real>)
    requires parcelasTerreno >= 1
    requires |parcelas| == |entrada| && |chaves| == |entrada|
    ensures |f| == |entrada|
  {
    Plus(LandPayments(v, parcelasTerreno, |entrada|), Plus(entrada, Plus(parcelas, chaves)))
  }

  /** What `simular_investidor` returns, with the breakdown table given as its four columns. */
  datatype SimulationResult = SimulationResult(
    entrada: seq<real>,
    parcelas: seq<real>,
    chaves: seq<real>,
    fluxoInvestidor: seq<real>,
    moic: real,
    payback: Option<nat>)

  /** The whole projection over the fixed sales curve, as a function of the inputs. */
  function Simulation(v: real, parcelasTerreno: nat, juros: real, mesesTotal: nat): (r: SimulationResult)
    requires 1 <= parcelasTerreno && v != 0.0
  {
    var curva := Curve.SalesCurve(mesesTotal);
    var entrada := EntrySchedule(v, curva);
    var parcelas := ReceivableSchedule(v, curva, juros);
    var chaves := KeysSchedule(v, curva);
    var fluxo := InvestorFlow(v, parcelasTerreno, entrada, parcelas, chaves);
    SimulationResult(entrada, parcelas, chaves, fluxo, Indicators.Moic(fluxo, v), Indicators.Payback(fluxo))
  }

  /**
    Superposition of one schedule (:54-56): installment `i` of a sale in
    month `mes` is added to month `mes + i + 1` if that month lies inside
    the horizon, and dropped otherwise.
   */
  method AddSchedule(parcelas: array<real>, mes: nat, sac: seq<real>)
    modifies parcelas
    ensures forall t :: 0 <= t < parcelas.Length ==>
      parcelas[t] == old(parcelas[t]) + (if mes < t <= mes + |sac| then sac[t - mes - 1] else 0.0)
  {
    for i := 0 to |sac|
      invariant forall t :: 0 <= t < parcelas.Length ==>
        parcelas[t] == old(parcelas[t]) + (if mes < t <= mes + i then sac[t - mes - 1] else 0.0)
    {
      if mes + i + 1 < parcelas.Length {
        parcelas[mes + i + 1] := parcelas[mes + i + 1] + sac[i];
      }
    }
  }

  /**
    One month of the sales loop (:48-58): when the value sold in month
    `mes` is positive, its entry is written, its receivable's SAC schedule
    is superimposed from the next month on, and its delivery share is
    added at month 59 when the horizon reaches it.
   */
  method BookSale(valorPermuta: real, curva: seq<real>, jurosMensal: real, mes: nat,
                  entrada: array<real>, parcelas: array<real>, chaves: array<real>)
    requires mes < |curva|
    requires entrada.Length == |curva| && parcelas.Length == |curva| && chaves.Length == |curva|
    requires entrada != parcelas && parcelas != chaves && entrada != chaves
    modifies entrada, parcelas, chaves
    ensures forall t :: 0 <= t < |curva| ==>
      entrada[t] == if t == mes && IsSale(valorPermuta, curva, mes) then EntrySchedule(valorPermuta, curva)[mes] else old(entrada[t])
    ensures forall t :: 0 <= t < |curva| ==>
      parcelas[t] == old(parcelas[t]) + Contribution(valorPermuta, curva, jurosMensal, mes, t)
    ensures forall t :: 0 <= t < |curva| ==>
      chaves[t] == old(chaves[t]) + if t == KeysMonth then KeysShare * Sold(valorPermuta, curva, mes) else 0.0
  {
    var n := |curva|;
    var vendaPct := curva[mes];
    var vendaValor := valorPermuta * vendaPct;
    if vendaValor > 0.0 {
      entrada[mes] := vendaValor * 0.10;
      var sac := Sac.GerarSac(vendaValor * 0.20, 48, jurosMensal);
      AddSchedule(parcelas, mes, sac);
      if 59 < n {
        chaves[59] := chaves[59] + vendaValor * 0.70;
      }
    }
  }

  /**
    The sales loop (:47-58): zero-filled columns, then one `BookSale` per
    month of the horizon.
   */
  method SplitSales(valorPermuta: real, curva: seq<real>, jurosMensal: real)
    returns (entrada: seq<real>, parcelas: seq<real>, chaves: seq<real>)
    ensures |entrada| == |curva| && |parcelas| == |curva| && |chaves| == |curva|
    ensures forall m :: 0 <= m < |curva| ==>
      entrada[m] == if valorPermuta * curva[m] > 0.0 then 0.10 * valorPermuta * curva[m] else 0.0
    ensures forall m :: 0 <= m < |curva| ==>
      chaves[m] == if m == 59 then 0.70 * SoldUpTo(valorPermuta, curva, |curva|) else 0.0
    ensures entrada == EntrySchedule(valorPermuta, curva)
    ensures parcelas == ReceivableSchedule(valorPermuta, curva, jurosMensal)
    ensures chaves == KeysSchedule(valorPermuta, curva)
  {
    var n := |curva|;
    var e := new real[n](_ => 0.0);
    var p := new real[n](_ => 0.0);
    var k := new real[n](_ => 0.0);
    for mes := 0 to n
      invariant forall t :: 0 <= t < n ==> e[t] == if t < mes then EntrySchedule(valorPermuta, curva)[t] else 0.0
      invariant forall t :: 0 <= t < n ==> p[t] == ReceivedUpTo(valorPermuta, curva, jurosMensal, mes, t)
      invariant forall t :: 0 <= t < n ==> k[t] == if t == KeysMonth then KeysShare * SoldUpTo(valorPermuta, curva, mes) else 0.0
    {
      BookSale(valorPermuta, curva, jurosMensal, mes, e, p, k);
    }
    entrada, parcelas, chaves := e[..], p[..], k[..];
  }

  /**
    The investor's flow (:61-67): the land installment `valor_permuta /
    parcelas_terreno` written negated into the first `parcelas_terreno`
    months, then the three inflow columns added month by month.
   */
  method InvestorCashFlow(valorPermuta: real, parcelasTerreno: nat, entrada: seq<real>, parcelas: seq<real>, chaves: seq<real>)
    returns (fluxo: seq<real>)
    requires 1 <= parcelasTerreno <= |entrada|
    requires |parcelas| == |entrada| && |chaves| == |entrada|
    ensures |fluxo| == |entrada|
    ensures forall m :: 0 <= m < |fluxo| ==>
      fluxo[m] == (if m < parcelasTerreno then -(valorPermuta / parcelasTerreno as real) else 0.0) + entrada[m] + parcelas[m] + chaves[m]
    ensures fluxo == InvestorFlow(valorPermuta, parcelasTerreno, entrada, parcelas, chaves)
  {
    var n := |entrada|;
    var f := new real[n](_ => 0.0);
    var valorParcelaTerreno := valorPermuta / parcelasTerreno as real;
    for i := 0 to parcelasTerreno
      invariant forall t :: 0 <= t < n ==> f[t] == if t < i then -valorParcelaTerreno else 0.0
    {
      f[i] := -valorParcelaTerreno;
    }
    for mes := 0 to n
      invariant forall t :: 0 <= t < n ==>
        f[t] == (if t < parcelasTerreno then -valorParcelaTerreno else 0.0) + (if t < mes then entrada[t] + parcelas[t] + chaves[t] else 0.0)
    {
      f[mes] := f[mes] + (entrada[mes] + parcelas[mes] + chaves[mes]);
    }
    fluxo := f[..];
  }

  /**
    `simular_investidor`: builds the curve, splits the sales, lays out the
    investor's flow and derives MoIC and payback from it.
   */
  method SimularInvestidor(valorPermuta: real, parcelasTerreno: nat, jurosMensal: real, mesesTotal: nat)
    returns (r: SimulationResult)
    requires mesesTotal >= 1
    requires 1 <= parcelasTerreno <= mesesTotal
    requires valorPermuta != 0.0
    ensures |r.entrada| == mesesTotal && |r.parcelas| == mesesTotal
    ensures |r.chaves| == mesesTotal && |r.fluxoInvestidor| == mesesTotal
    ensures r == Simulation(valorPermuta, parcelasTerreno, jurosMensal, mesesTotal)
  {
    var curva := Curve.BuildSalesCurve(mesesTotal);
    var entrada, parcelas, chaves := SplitSales(valorPermuta, curva, jurosMensal);
    var fluxo := InvestorCashFlow(valorPermuta, parcelasTerreno, entrada, parcelas, chaves);
    var moic := Sum(fluxo) / valorPermuta;
    var payback := Indicators.Payback(fluxo);
    r := SimulationResult(entrada, parcelas, chaves, fluxo, moic, payback);
  }
}
