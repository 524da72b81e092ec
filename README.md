# Permuta investor simulator: a Dafny model of the cash-flow projection

This project models the numeric core of `simulador_imobiliario.py`, a
simulator for a real-estate "permuta" (land exchanged for a share of the
units built on it). An investor pays for the land position in equal
installments. The units are sold along a fixed sales curve: half in month 0
and 5% in each of months 1 to 10. Each sale splits into three parts:

- a 10% entry, paid in the month of the sale;
- a 20% receivable, repaid by a 48-month constant-amortization (SAC) schedule
  that starts the month after the sale;
- a 70% delivery payment ("chaves"), paid in month 59.

The schedules of all the sales are superimposed onto one installment column.
Installments that fall beyond the horizon (120 months by default) are
dropped. From the resulting investor flow the simulator derives the MoIC (sum
of flows over the deal value) and the payback month (first month whose
running sum is non-negative).

Amounts are Dafny `real`s. The project is organised as follows:

- `sac.dfy` (module `Sac`): `gerar_sac` as a loop with a running balance,
  proved against a closed-form schedule.
- `curve.dfy` (module `Curve`): the fixed sales curve.
- `projection.dfy` (module `Projection`): the column specifications.
  `simular_investidor` is split into its phases. Each phase is a method that
  fills zero-initialised arrays in place, as the source does, and returns
  their contents.
- `indicators.dfy` (module `Indicators`): MoIC and payback.
- `projection_facts.dfy` (module `ProjectionFacts`): what the projection
  guarantees. This covers where installments land, how much of each
  schedule survives the horizon, the column totals, and the closed forms of
  MoIC and payback on the fixed curve.
- `series.dfy`, `wrappers.dfy`: sums of series and an `Option` type.

Preconditions carry what the source needs in order not to fail:

- `meses_total >= 1`, because the curve writes index 0;
- `1 <= parcelas_terreno`, which is the form's `min_value` and keeps the
  division at line 62 defined;
- `parcelas_terreno <= meses_total`, because otherwise the write at line 64
  is out of range;
- a non-zero deal value, for the division at line 78.

The sale test is `venda_valor > 0`, as in the source. So a negative deal value
sells nothing, and the model proves what that case yields.

Two headline results:

- With a positive deal value and a horizon that reaches month 59, the
  investor's flows sum to `4.9 * juros_mensal * valor_permuta`. So the MoIC is
  `4.9 * juros_mensal`, whatever the number of land installments. The land
  payments (`-valor_permuta`), the entries (10%) and the delivery payments
  (70%) together come to `-0.2 * valor_permuta`. The principal of the 20%
  receivable closes that gap, and only the SAC interest on it is left,
  `0.2 * 24.5 * juros_mensal` per unit sold.
- With a positive deal value, a non-negative rate, a horizon of at least 60
  months and the land paid within 60 months, a payback month exists and is
  at most 60. If moreover the rate is below 1/7 a month and the land is paid
  before month 59, every running sum from the last land installment to
  month 59 is negative. So the investor breaks even either while still
  paying for the land or exactly in month 60, with the delivery payment.

The sales curve is fixed, every receivable is amortized over 48 months
from the month after its sale, and delivery is at index 59. So the default
run's first month nets `-100000 + 15000` (the launch sale is 50% of the
deal), and its payback month is 60.

## Model

| member | source | states |
|---|---|---|
| `Sac.GerarSac` | simulador_imobiliario.py:7-16 | Returns exactly `meses` installments. Installment `k` equals `valor_total/meses + (valor_total - k*valor_total/meses) * taxa_mensal`. The loop's running balance is the principal less `k` amortization parts. |
| `Sac.Schedule` | simulador_imobiliario.py:10-14 | The closed-form schedule has one installment per month. |
| `Sac.AmortizationParts` | simulador_imobiliario.py:9 | One amortization part per month. |
| `Sac.AmortizationRepaysPrincipal` | simulador_imobiliario.py:8-15 | The `meses` amortization parts sum to the principal. The balance starts at the principal, drops by one part each month and is exactly 0 after the last month. |
| `Sac.InstallmentsDecline` | simulador_imobiliario.py:11-15 | Consecutive installments differ by exactly `amortizacao * taxa_mensal`. With a non-negative principal and rate they never increase. With a zero rate all equal `valor_total/meses`. |
| `Sac.InstallmentNonNegative` | simulador_imobiliario.py:11-14 | With a non-negative principal and rate, the balance before each of the `meses` installments is non-negative, and so is the installment. |
| `Sac.TotalPaid` | simulador_imobiliario.py:11-15 | The installments sum to `valor_total * (1 + taxa_mensal * (meses + 1) / 2)`, i.e. the principal plus interest on every balance. |
| `Curve.SalesCurve` | simulador_imobiliario.py:41-45 | The curve has one share per month of the horizon. |
| `Curve.BuildSalesCurve` | simulador_imobiliario.py:41-45 | The list has length `meses_total`. Index 0 is 0.5, each index 1..min(10, meses_total-1) is 0.05 and every other index is 0. |
| `Curve.SalesCurveSum` | simulador_imobiliario.py:41-45 | The curve sums to `0.5 + 0.05 * min(10, meses_total - 1)`. |
| `Curve.SalesCurveBounded` | simulador_imobiliario.py:41-45 | Every share is in [0, 1] and nothing is sold after month 10. The total is at most 1, and is exactly 1 if and only if `meses_total >= 11`. |
| `Projection.EntrySchedule` | simulador_imobiliario.py:36 | The entry column has length `meses_total`. |
| `Projection.ReceivableSchedule` | simulador_imobiliario.py:37 | The installment column has length `meses_total`. |
| `Projection.KeysSchedule` | simulador_imobiliario.py:38 | The delivery column has length `meses_total`. |
| `Projection.LandPayments` | simulador_imobiliario.py:61-64 | The land-payment column has length `meses_total`. |
| `Projection.InvestorFlow` | simulador_imobiliario.py:61-67 | The investor's flow has length `meses_total`. |
| `Projection.AddSchedule` | simulador_imobiliario.py:54-56 | Installment `i` is added to month `mes+i+1` when that month is inside the array. Nothing else changes, and installments past the end are dropped. |
| `Projection.SplitSales` | simulador_imobiliario.py:47-58 | All three columns have the curve's length. `entrada[m]` is `0.10 * valor_permuta * curva[m]` when that sale value is positive, and 0 otherwise. `chaves` is 0 except at index 59, which holds 70% of the value sold. `parcelas` is the superposition of the SAC schedule of every positive sale. |
| `Projection.BookSale` | simulador_imobiliario.py:48-58 | One sale month: when the value sold is positive, its entry becomes 10% of it. Its 48-month schedule is added into the installment column from the next month on, clipped at the horizon. 70% of it is added at index 59. Nothing else changes. |
| `Projection.InvestorCashFlow` | simulador_imobiliario.py:61-67 | `fluxo[m] = (m < parcelas_terreno ? -valor_permuta/parcelas_terreno : 0) + entrada[m] + parcelas[m] + chaves[m]` for every month. |
| `Projection.SimularInvestidor` | simulador_imobiliario.py:35-81 | The four columns have length `meses_total`. The result equals the composition of the curve, the three columns, the investor flow, MoIC and payback. |
| `Indicators.Moic` | simulador_imobiliario.py:78 | MoIC times the deal value is the sum of the flows. |
| `Indicators.MoicScaling` | simulador_imobiliario.py:78 | Scaling the flows by `k` scales MoIC by `k`. Scaling flows and basis together leaves MoIC unchanged. |
| `Indicators.PaybackFrom` | simulador_imobiliario.py:79 | Searching from position `p`: the result is the first 1-based month after `p` whose running sum is non-negative. It is `None` exactly when every such running sum is negative. |
| `Indicators.Payback` | simulador_imobiliario.py:79 | Payback, when present, is the least `p` from 1 to the number of flows whose first-`p` running sum is non-negative, and every shorter running sum is negative. It is `None` if and only if every running sum is negative. |
| `ProjectionFacts.LaterSalesPayNothing` | simulador_imobiliario.py:55-56 | Sales in month `t` or later contribute nothing to month `t`. |
| `ProjectionFacts.ReceivablesFromEarlierSales` | simulador_imobiliario.py:53-56 | `parcelas[t]` is the sum over the earlier sales only, so `parcelas[0] = 0`. |
| `ProjectionFacts.Kept` | simulador_imobiliario.py:55 | The number of a sale's installments kept inside the horizon is at most 48, and they all land before the horizon ends. When fewer than 48 are kept, the next one would land at or past the end of the horizon. |
| `ProjectionFacts.ReceivablesConserved` | simulador_imobiliario.py:53-56 | The installment column sums to exactly the installments of every sale's schedule that land inside the horizon (the first `min(48, meses_total - mes - 1)` of them). The rest are dropped. |
| `ProjectionFacts.FullScheduleYield` | simulador_imobiliario.py:53 | A sale's full 48-month schedule on 20% of its value repays `0.2 * (1 + 24.5 * juros_mensal)` per unit sold. |
| `ProjectionFacts.ReceivablesWithinHorizon` | simulador_imobiliario.py:53-56 | When every sale is at least 48 months before the end of the horizon, nothing is dropped: the column sums to `0.2 * (1 + 24.5 * juros_mensal)` times the value sold. |
| `ProjectionFacts.EntryTotal` | simulador_imobiliario.py:51-52 | The entry column sums to 10% of the value sold. |
| `ProjectionFacts.KeysTotal` | simulador_imobiliario.py:57-58 | The delivery column is 0 outside index 59 and holds 70% of the value sold there. It sums to that amount, or to 0 when `meses_total <= 59`. |
| `ProjectionFacts.LandPaymentsTotal` | simulador_imobiliario.py:62-64 | With `1 <= parcelas_terreno <= meses_total`, the land payments sum to `-valor_permuta`. |
| `ProjectionFacts.FlowTotal` | simulador_imobiliario.py:61-67 | The investor's flows sum to `-valor_permuta` plus the sums of the three inflow columns. |
| `ProjectionFacts.SoldOnSalesCurve` | simulador_imobiliario.py:41-51 | On the fixed curve, sales happen only in months 0..10. A positive deal value sells `valor_permuta` times the curve total, which is the whole deal value when the horizon covers month 10. A non-positive deal value never produces a sale. |
| `ProjectionFacts.FlowTotalOnSalesCurve` | simulador_imobiliario.py:35-67 | With `valor_permuta > 0` and `meses_total >= 60`, the investor's flows sum to `4.9 * juros_mensal * valor_permuta`. |
| `ProjectionFacts.FlowTotalWithoutSales` | simulador_imobiliario.py:47-67 | With a negative deal value nothing is sold, and the investor's flows sum to `-valor_permuta`. |
| `ProjectionFacts.MoicOnSalesCurve` | simulador_imobiliario.py:78 | With `valor_permuta > 0` and `meses_total >= 60`, MoIC is `4.9 * juros_mensal`. With a negative deal value, MoIC is -1. |
| `ProjectionFacts.FlowsEndAtDelivery` | simulador_imobiliario.py:53-67 | With the land paid within 60 months, every flow after index 59 is 0. |
| `ProjectionFacts.PaybackByDelivery` | simulador_imobiliario.py:79 | With `valor_permuta > 0`, `juros_mensal >= 0`, `meses_total >= 60` and `parcelas_terreno <= 60`, a payback month exists and is at most 60. |
| `ProjectionFacts.ReceivedNonNegative` | simulador_imobiliario.py:53-56 | With a non-negative rate, every month of the installment column is non-negative. |
| `ProjectionFacts.FlowsBeforeDelivery` | simulador_imobiliario.py:53-67 | On the fixed curve, with a positive deal value and a non-negative rate, every flow from the month after the last land installment up to month 58 is non-negative. Month 59 holds exactly 70% of the deal value. |
| `ProjectionFacts.PaybackAtDelivery` | simulador_imobiliario.py:79 | With `valor_permuta > 0`, `0 <= juros_mensal < 1/7`, `meses_total >= 60` and `parcelas_terreno <= 59`, every running sum from month `parcelas_terreno` to 59 is negative. A payback month exists, and it is either before `parcelas_terreno` or exactly 60. |
| `ProjectionFacts.DefaultRun` | simulador_imobiliario.py:35-81 | Deal value 300000, 3 land installments, 0.5% a month and 120 months. Month 0 nets `-100000 + 15000`, month 1 nets `-100000 + 1500 + 775`, MoIC is 0.0245, and payback is exactly month 60. |

## Left out

- `calcular_tir` (simulador_imobiliario.py:19-32) is left out. It is a floating-point Newton-Raphson iteration. Its outcome depends on NaN and infinity checks, on `OverflowError` from float exponentiation, and on float tolerances, none of which has a meaning over reals.
- Projection.SimularInvestidor: returns no internal rate of return, because `calcular_tir` is not modelled. The result holds the four columns, MoIC and payback.
- Floating-point rounding is not modelled. Amounts are exact reals, so the model does not claim bit-exact agreement with Python floats, and the order of the additions at lines 56, 58 and 67 does not matter.
- The pandas DataFrame (simulador_imobiliario.py:69-75) is not built. Its columns are returned as sequences, and the `Mês` column is just `1..meses_total`. `np.cumsum` at line 79 is modelled as prefix sums.
- The Streamlit form, metrics, Plotly chart and Excel download (simulador_imobiliario.py:84-113) are user interface and I/O. They are out of the model. The only thing kept from them is the form's `min_value=1` on `parcelas_terreno`, carried as a precondition.
- The arrays are real-valued from the start. The source's zero-filled lists start as Python integers, which has no effect on the values.
