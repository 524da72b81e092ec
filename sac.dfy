/**
  The constant-amortization ("SAC") schedule of `gerar_sac`
  (simulador_imobiliario.py:7-16).

  The principal is repaid in `meses` equal amortization parts. Each
  installment is that part plus interest, at the monthly rate, on the
  balance still outstanding before it; the balance then drops by the
  amortization part (not by the installment).
 */
module Sac {
  import opened Series

  /** The constant amortization part, `valor_total / meses`. */
  function Amortization(total: real, meses: nat): real
    requires meses >= 1
  {
    total / meses as real
  }

  /** The balance outstanding before installment `k`: `k` amortization parts have been repaid. */
  function Balance(total: real, meses: nat, k: nat): real
    requires meses >= 1
  {
    total - k as real * Amortization(total, meses)
  }

  /** Installment `k` (0-based): the amortization part plus interest on the balance before it. */
  function Installment(total: real, meses: nat, taxa: real, k: nat): real
    requires meses >= 1
  {
    Amortization(total, meses) + Balance(total, meses, k) * taxa
  }

  /**
    With a non-negative principal and rate no installment is negative:
    the balance before any of the `meses` installments is never below 0.
   */
  lemma InstallmentNonNegative(total: real, meses: nat, taxa: real, k: nat)
    requires meses >= 1 && k < meses
    requires total >= 0.0 && taxa >= 0.0
    ensures Balance(total, meses, k) >= 0.0
    ensures Installment(total, meses, taxa, k) >= 0.0
  {
    var a := Amortization(total, meses);
    assert meses as real * a == total;
    assert (meses - k) as real * a >= 0.0;
  }

  /** The whole schedule, one installment per month. */
  function Schedule(total: real, meses: nat, taxa: real): (s: seq<real>)
    requires meses >= 1
    ensures |s| == meses
  {
    seq(meses, k requires 0 <= k < meses => Installment(total, meses, taxa, k))
  }

  /** The amortization parts that the loop subtracts from the running balance, one per month. */
  function AmortizationParts(total: real, meses: nat): (s: seq<real>)
    requires meses >= 1
    ensures |s| == meses
  {
    seq(meses, k requires 0 <= k < meses => Amortization(total, meses))
  }

  /**
    `gerar_sac`: the loop keeps a running balance `saldo`, appends
    `amortizacao + saldo * taxa_mensal` and lowers `saldo` by `amortizacao`.
    The result has exactly `meses` installments, installment `k` in closed form.
   */
  method GerarSac(valorTotal: real, meses: nat, taxaMensal: real) returns (parcelas: seq<real>)
    requires meses >= 1
    ensures |parcelas| == meses
    ensures forall k :: 0 <= k < meses ==>
      parcelas[k] == valorTotal / meses as real + (valorTotal - k as real * (valorTotal / meses as real)) * taxaMensal
    ensures parcelas == Schedule(valorTotal, meses, taxaMensal)
  {
    var saldo := valorTotal;
    var amortizacao := valorTotal / meses as real;
    parcelas := [];
    for i := 0 to meses
      invariant |parcelas| == i
      invariant saldo == Balance(valorTotal, meses, i)
      invariant parcelas == Schedule(valorTotal, meses, taxaMensal)[..i]
    {
      var juros := saldo * taxaMensal;
      var parcela := amortizacao + juros;
      assert parcela == Installment(valorTotal, meses, taxaMensal, i);
      parcelas := parcelas + [parcela];
      assert Schedule(valorTotal, meses, taxaMensal)[..i + 1]
        == Schedule(valorTotal, meses, taxaMensal)[..i] + [Installment(valorTotal, meses, taxaMensal, i)];
      saldo := saldo - amortizacao;
    }
  }

  /** `m` equal parts `a` sum to `m * a`. */
  lemma {:induction false} SumConstant(m: nat, a: real)
    ensures Sum(seq(m, k requires 0 <= k < m => a)) == m as real * a
  {
    if m > 0 {
      assert seq(m, k requires 0 <= k < m => a)[..m - 1] == seq(m - 1, k requires 0 <= k < m - 1 => a);
      SumConstant(m - 1, a);
    }
  }

  /**
    Conservation of principal: the amortization parts add up to the
    principal, so the running balance is exactly zero after the last
    month, having dropped by one part each month.
   */
  lemma AmortizationRepaysPrincipal(total: real, meses: nat)
    requires meses >= 1
    ensures Sum(AmortizationParts(total, meses)) == total
    ensures Balance(total, meses, 0) == total && Balance(total, meses, meses) == 0.0
    ensures forall k: nat :: k < meses ==> Balance(total, meses, k) - Balance(total, meses, k + 1) == Amortization(total, meses)
  {
    SumConstant(meses, Amortization(total, meses));
  }

  /**
    Consecutive installments differ by exactly the interest on one
    amortization part. Hence with a non-negative principal and rate the
    installments never increase, and with a zero rate they are all equal
    to the amortization part.
   */
  lemma InstallmentsDecline(total: real, meses: nat, taxa: real)
    requires meses >= 1
    ensures var s := Schedule(total, meses, taxa);
      forall k :: 0 <= k < meses - 1 ==> s[k] - s[k + 1] == Amortization(total, meses) * taxa
    ensures var s := Schedule(total, meses, taxa);
      total >= 0.0 && taxa >= 0.0 ==> forall i, j :: 0 <= i <= j < meses ==> s[j] <= s[i]
    ensures var s := Schedule(total, meses, taxa);
      taxa == 0.0 ==> forall k :: 0 <= k < meses ==> s[k] == total / meses as real
  {
    var s := Schedule(total, meses, taxa);
    var a := Amortization(total, meses);
    forall i, j | 0 <= i <= j < meses
      ensures s[i] - s[j] == (j - i) as real * a * taxa
    {
      calc {
        s[i] - s[j];
        (Balance(total, meses, i) - Balance(total, meses, j)) * taxa;
        ((j - i) as real * a) * taxa;
      }
    }
    if total >= 0.0 && taxa >= 0.0 {
      forall i, j | 0 <= i <= j < meses
        ensures s[j] <= s[i]
      {
        assert a >= 0.0;
        assert (j - i) as real * a >= 0.0;
        assert s[i] - s[j] == (j - i) as real * a * taxa;
      }
    }
  }

  /** What the first `m` installments add up to. */
  lemma {:induction false} PrefixPaid(total: real, meses: nat, taxa: real, m: nat)
    requires 1 <= meses && m <= meses
    ensures var a, x := Amortization(total, meses), m as real;
      Sum(Schedule(total, meses, taxa)[..m]) == x * a + taxa * (x * total) - taxa * a * (x * (x - 1.0) / 2.0)
  {
    var s := Schedule(total, meses, taxa);
    var a := Amortization(total, meses);
    if m > 0 {
      var x := (m - 1) as real;
      PrefixPaid(total, meses, taxa, m - 1);
      SumPrefixStep(s, m - 1);
      assert s[m - 1] == a + (total - x * a) * taxa;
      assert (x + 1.0) * a == x * a + a;
      assert taxa * ((x + 1.0) * total) == taxa * (x * total) + taxa * total;
      assert taxa * a * ((x + 1.0) * x / 2.0) == taxa * a * (x * (x - 1.0) / 2.0) + taxa * a * x;
    }
  }

  /**
    The installments repay the principal plus interest on every balance:
    in total `valor_total * (1 + taxa_mensal * (meses + 1) / 2)`.
   */
  lemma TotalPaid(total: real, meses: nat, taxa: real)
    requires meses >= 1
    ensures Sum(Schedule(total, meses, taxa)) == total + taxa * total * (meses as real + 1.0) / 2.0
  {
    var s := Schedule(total, meses, taxa);
    var a, x := Amortization(total, meses), meses as real;
    PrefixPaid(total, meses, taxa, meses);
    assert s[..meses] == s;
    assert x * a == total;
    assert taxa * a * (x * (x - 1.0) / 2.0) == taxa * (x * a) * (x - 1.0) / 2.0;
  }
}
