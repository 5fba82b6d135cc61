/** Derived metrics over a bank statement's transactions: cash-flow totals, liquidity ratios,
    financial-discipline counters, debt-servicing ratios and the risk indicators.

    Amounts are modelled as exact reals, so floating-point rounding (of `0.1`, `0.5` and of
    every division) is not part of the model. */
module Metrics {
  import opened Wrappers
  import opened BankStatementSchema
  import opened OutputSchema

  /** The sum of `term(t)` over `ts`, added in list order. */
  function Total(ts: seq<Transaction>, term: Transaction -> real): real
    decreases |ts|
  {
    if ts == [] then 0.0 else Total(ts[..|ts| - 1], term) + term(ts[|ts| - 1])
  }

  /** A transaction's amount if its type is `kind`, else nothing. */
  function AmountIf(kind: string): Transaction -> real {
    (t: Transaction) => if t.kind == kind then t.amount else 0.0
  }

  /** A transaction's recorded balance if it has one and its type is `kind`, else nothing. */
  function BalanceIf(kind: string): Transaction -> real {
    (t: Transaction) => if t.balance.Some? && t.kind == kind then t.balance.value else 0.0
  }

  /** `sum(t.amount for t in ts if t.type == kind)` */
  function SumAmounts(ts: seq<Transaction>, kind: string): real {
    Total(ts, AmountIf(kind))
  }

  /** `sum(t.balance for t in ts if t.balance is not None and t.type == kind)` */
  function SumBalances(ts: seq<Transaction>, kind: string): real {
    Total(ts, BalanceIf(kind))
  }

  /** `len([t for t in ts if t.type == kind])` */
  function CountKind(ts: seq<Transaction>, kind: string): nat
    decreases |ts|
  {
    if ts == [] then 0 else CountKind(ts[..|ts| - 1], kind) + (if ts[|ts| - 1].kind == kind then 1 else 0)
  }

  // ---------------------------------------------------------------------------------------
  // The four metric blocks

  function CalculateCashflowMetrics(statement: BankStatementInput): (r: CashflowMetrics)
    ensures r.totalInflow == Some(SumAmounts(statement.transactions, "credit"))
    ensures r.totalOutflow == Some(SumAmounts(statement.transactions, "debit"))
    ensures r.netCashflow == Some(r.totalInflow.value - r.totalOutflow.value)
    ensures r.averageMonthlyCashflow == r.netCashflow
    ensures r.cashflowVolatility == Some(0.0)
  {
    var totalInflow := SumAmounts(statement.transactions, "credit");
    var totalOutflow := SumAmounts(statement.transactions, "debit");
    var netCashflow := totalInflow - totalOutflow;
    CashflowMetrics(Some(totalInflow), Some(totalOutflow), Some(netCashflow), Some(netCashflow), Some(0.0))
  }

  /** Assets and liabilities are the sums of the recorded balances on credit and on debit
      transactions; both ratios are assets over liabilities, or 0.0 when liabilities are 0. */
  function CalculateLiquidityMetrics(statement: BankStatementInput): (r: LiquidityMetrics)
    ensures r.currentRatio == r.quickRatio && r.currentRatio.Some?
    ensures var assets := SumBalances(statement.transactions, "credit");
            var liabilities := SumBalances(statement.transactions, "debit");
            && (liabilities == 0.0 ==> r.currentRatio.value == 0.0)
            && (liabilities != 0.0 ==> r.currentRatio.value * liabilities == assets)
            && r.daysCashOnHand == Some(assets)
    ensures r.cashConversionCycle == None
  {
    var currentAssets := SumBalances(statement.transactions, "credit");
    var currentLiabilities := SumBalances(statement.transactions, "debit");
    var ratio := if currentLiabilities == 0.0 then 0.0 else currentAssets / currentLiabilities;
    LiquidityMetrics(Some(ratio), Some(ratio), None, Some(currentAssets))
  }

  /** The counters are not derived from the data yet, and the savings are a fixed 0.0, so the
      block is the same for every statement. */
  function CalculateFinancialDisciplineMetrics(statement: BankStatementInput): (r: FinancialDisciplineMetrics)
    ensures r == FinancialDisciplineMetrics(Some(0), Some(0), Some(0), Some(0.0))
  {
    var totalInflow := SumAmounts(statement.transactions, "credit");
    var savings := 0.0;
    var savingsRate := if totalInflow > 0.0 then savings / totalInflow else 0.0;
    FinancialDisciplineMetrics(Some(0), Some(0), Some(0), Some(savingsRate))
  }

  /** Annual debt payments are a tenth of the outflow and EBITDA half the inflow. */
  function CalculateDebtServicingMetrics(statement: BankStatementInput, totalDebt: real := 0.0): (r: DebtServicingMetrics)
    ensures r.dscr.Some? && r.debtToIncomeRatio.Some? && r.loanPaymentToIncomeRatio.Some?
    ensures var inflow := SumAmounts(statement.transactions, "credit");
            var outflow := SumAmounts(statement.transactions, "debit");
            && (outflow > 0.0 ==> r.dscr.value * outflow == 5.0 * inflow)
            && (outflow <= 0.0 ==> r.dscr.value == 0.0)
            && (inflow > 0.0 ==> r.debtToIncomeRatio.value * inflow == totalDebt
                                 && r.loanPaymentToIncomeRatio.value * inflow == outflow / 10.0)
            && (inflow <= 0.0 ==> r.debtToIncomeRatio.value == 0.0 && r.loanPaymentToIncomeRatio.value == 0.0)
  {
    var totalOutflow := SumAmounts(statement.transactions, "debit");
    var annualDebtPayments := totalOutflow * 0.1;
    var inflow := SumAmounts(statement.transactions, "credit");
    var ebitda := inflow * 0.5;
    var dscr := if annualDebtPayments > 0.0 then ebitda / annualDebtPayments else 0.0;
    var debtToIncome := if inflow > 0.0 then totalDebt / inflow else 0.0;
    var loanPaymentToIncome := if inflow > 0.0 then annualDebtPayments / inflow else 0.0;
    DebtServicingMetrics(Some(dscr), Some(debtToIncome), Some(loanPaymentToIncome))
  }

  // ---------------------------------------------------------------------------------------
  // Risk indicators

  /** The mean debit amount, or 0 when there is no debit transaction. */
  function MeanDebit(ts: seq<Transaction>): real {
    if CountKind(ts, "debit") > 0 then SumAmounts(ts, "debit") / (CountKind(ts, "debit") as real) else 0.0
  }

  predicate IsHighRisk(t: Transaction, meanDebit: real) {
    t.kind == "debit" && t.amount > meanDebit * 2.0
  }

  /** The transactions of `ts` that are high-risk against `meanDebit`, in input order. */
  function HighRisk(ts: seq<Transaction>, meanDebit: real): seq<Transaction>
    decreases |ts|
  {
    if ts == [] then []
    else
      var last := ts[|ts| - 1];
      HighRisk(ts[..|ts| - 1], meanDebit) + (if IsHighRisk(last, meanDebit) then [last] else [])
  }

  method IdentifyRiskIndicators(
    statement: BankStatementInput, creditScoreChange: real := 0.0,
    negativeNewsMentions: int := 0, bankruptcyFlags: bool := false) returns (r: RiskIndicators)
    ensures r.highRiskTransactions == HighRisk(statement.transactions, MeanDebit(statement.transactions))
    ensures r.creditScoreChange == Some(creditScoreChange)
    ensures r.negativeNewsMentions == Some(negativeNewsMentions)
    ensures r.bankruptcyFlags == Some(bankruptcyFlags)
  {
    var ts := statement.transactions;
    var averageDebit := MeanDebit(ts);
    var highRisk: seq<Transaction> := [];
    for i := 0 to |ts|
      invariant highRisk == HighRisk(ts[..i], averageDebit)
    {
      var t := ts[i];
      assert ts[..i + 1][..i] == ts[..i];
      if t.kind == "debit" && t.amount > averageDebit * 2.0 {
        highRisk := highRisk + [t];
      }
    }
    assert ts[..|ts|] == ts;
    r := RiskIndicators(highRisk, Some(creditScoreChange), Some(negativeNewsMentions), Some(bankruptcyFlags));
  }

  // ---------------------------------------------------------------------------------------
  // Properties

  lemma {:induction false} TotalAppend(a: seq<Transaction>, b: seq<Transaction>, term: Transaction -> real)
    ensures Total(a + b, term) == Total(a, term) + Total(b, term)
    decreases |b|
  {
    if b == [] {
      assert a + b == a;
    } else {
      var b' := b[..|b| - 1];
      assert (a + b)[..|a + b| - 1] == a + b';
      TotalAppend(a, b', term);
    }
  }

  /** The high-risk transactions of a concatenation are those of each part, in order. */
  lemma {:induction false} HighRiskAppend(a: seq<Transaction>, b: seq<Transaction>, meanDebit: real)
    ensures HighRisk(a + b, meanDebit) == HighRisk(a, meanDebit) + HighRisk(b, meanDebit)
    decreases |b|
  {
    if b == [] {
      assert a + b == a;
    } else {
      var b' := b[..|b| - 1];
      assert (a + b)[..|a + b| - 1] == a + b';
      HighRiskAppend(a, b', meanDebit);
    }
  }

  /** A single transaction is flagged exactly when it is a debit above twice the mean. */
  lemma HighRiskSingleton(t: Transaction, meanDebit: real)
    ensures HighRisk([t], meanDebit) == if t.kind == "debit" && t.amount > meanDebit * 2.0 then [t] else []
  {
    assert [t][..0] == [];
  }

  /** Only transactions of the summed type count: inserting one of any other type, anywhere,
      leaves the sum unchanged. */
  lemma SumAmountsIgnoresOtherKinds(before: seq<Transaction>, t: Transaction, after: seq<Transaction>, kind: string)
    requires t.kind != kind
    ensures SumAmounts(before + [t] + after, kind) == SumAmounts(before + after, kind)
  {
    TotalAppend(before + [t], after, AmountIf(kind));
    TotalAppend(before, [t], AmountIf(kind));
    TotalAppend(before, after, AmountIf(kind));
    assert [t][..0] == [];
  }

  /** The three-transaction statement of the integration flow: a 1000 debit, a 2000 credit
      and a 150 debit give inflow 2000, outflow 1150 and net cash flow 850. */
  lemma CashflowOfIntegrationExample()
    ensures var ts := [
              Transaction(Date(2023, 1, 1), "Rent", 1000.0, "debit", Some(5000.0)),
              Transaction(Date(2023, 1, 2), "Salary", 2000.0, "credit", Some(7000.0)),
              Transaction(Date(2023, 1, 3), "Groceries", 150.0, "debit", Some(6850.0))];
            var m := CalculateCashflowMetrics(BankStatementInput("", "", "", Date(2023, 1, 1), Date(2023, 1, 3), ts, "USD"));
            m.totalInflow == Some(2000.0) && m.totalOutflow == Some(1150.0) && m.netCashflow == Some(850.0)
  {
    var ts := [
      Transaction(Date(2023, 1, 1), "Rent", 1000.0, "debit", Some(5000.0)),
      Transaction(Date(2023, 1, 2), "Salary", 2000.0, "credit", Some(7000.0)),
      Transaction(Date(2023, 1, 3), "Groceries", 150.0, "debit", Some(6850.0))];
    assert ts[..2][..1] == ts[..1] && ts[..1][..0] == [];
    assert Total(ts[..1], AmountIf("credit")) == 0.0 && Total(ts[..1], AmountIf("debit")) == 1000.0;
    assert Total(ts[..2], AmountIf("credit")) == 2000.0 && Total(ts[..2], AmountIf("debit")) == 1000.0;
    assert Total(ts, AmountIf("credit")) == 2000.0 && Total(ts, AmountIf("debit")) == 1150.0;
  }

  /** When both inflow and outflow are positive, debt-service coverage times the
      loan-payment-to-income ratio is exactly one half. */
  lemma DscrTimesLoanPaymentRatio(statement: BankStatementInput, totalDebt: real)
    requires SumAmounts(statement.transactions, "credit") > 0.0
    requires SumAmounts(statement.transactions, "debit") > 0.0
    ensures var r := CalculateDebtServicingMetrics(statement, totalDebt);
            r.dscr.value * r.loanPaymentToIncomeRatio.value == 0.5
  {
    var inflow := SumAmounts(statement.transactions, "credit");
    var outflow := SumAmounts(statement.transactions, "debit");
    var r := CalculateDebtServicingMetrics(statement, totalDebt);
    var d, l := r.dscr.value, r.loanPaymentToIncomeRatio.value;
    var annual := outflow * 0.1;
    assert d * annual == inflow * 0.5;
    assert l * inflow == annual;
    assert (d * l) * inflow == 0.5 * inflow by {
      calc {
        (d * l) * inflow;
        d * (l * inflow);
        d * annual;
        inflow * 0.5;
      }
    }
    CancelPositive(d * l, 0.5, inflow);
  }

  lemma CancelPositive(x: real, y: real, c: real)
    requires c > 0.0 && x * c == y * c
    ensures x == y
  {
  }

  lemma PositiveFactor(a: real, b: real)
    requires a > 0.0 && a * b > 0.0
    ensures b > 0.0
  {
  }

  /** A transaction is reported as high-risk exactly when it is in the statement, is a
      debit, and its amount exceeds twice the mean debit. */
  lemma {:induction false} HighRiskMembership(ts: seq<Transaction>, meanDebit: real, t: Transaction)
    ensures t in HighRisk(ts, meanDebit) <==> t in ts && IsHighRisk(t, meanDebit)
    decreases |ts|
  {
    if ts != [] {
      var front := ts[..|ts| - 1];
      assert ts == front + [ts[|ts| - 1]];
      HighRiskMembership(front, meanDebit, t);
    }
  }

  /** Without debit transactions nothing is high-risk. */
  lemma {:induction false} HighRiskWithoutDebits(ts: seq<Transaction>)
    requires CountKind(ts, "debit") == 0
    ensures HighRisk(ts, MeanDebit(ts)) == []
  {
    NoDebitsNoHighRisk(ts, MeanDebit(ts));
  }

  lemma {:induction false} NoDebitsNoHighRisk(ts: seq<Transaction>, meanDebit: real)
    requires CountKind(ts, "debit") == 0
    ensures HighRisk(ts, meanDebit) == []
    decreases |ts|
  {
    if ts != [] {
      NoDebitsNoHighRisk(ts[..|ts| - 1], meanDebit);
    }
  }

  /** When something is flagged, the flagged amounts add up to more than twice the mean per
      flagged transaction. */
  lemma HighRiskSumExceeds(ts: seq<Transaction>, meanDebit: real)
    ensures var h := HighRisk(ts, meanDebit);
            (|h| > 0 ==> SumAmounts(h, "debit") > 2.0 * meanDebit * (|h| as real))
  {
    FlaggedAboveTwiceMean(ts, meanDebit);
  }

  /** The flagged total exceeds twice the mean per flagged transaction. */
  predicate AboveTwiceMean(h: seq<Transaction>, meanDebit: real) {
    |h| > 0 ==> SumAmounts(h, "debit") > 2.0 * meanDebit * (|h| as real)
  }

  lemma {:induction false} FlaggedAboveTwiceMean(ts: seq<Transaction>, meanDebit: real)
    ensures AboveTwiceMean(HighRisk(ts, meanDebit), meanDebit)
    decreases |ts|
  {
    if ts != [] {
      var front, last := ts[..|ts| - 1], ts[|ts| - 1];
      FlaggedAboveTwiceMean(front, meanDebit);
      var h := HighRisk(front, meanDebit);
      if IsHighRisk(last, meanDebit) {
        assert HighRisk(ts, meanDebit) == h + [last];
        FlaggedStep(h, last, meanDebit);
      } else {
        assert HighRisk(ts, meanDebit) == h + [];
        assert h + [] == h;
      }
    }
  }

  /** Flagging one more transaction keeps the flagged total above twice the mean per item. */
  lemma FlaggedStep(h: seq<Transaction>, last: Transaction, meanDebit: real)
    requires IsHighRisk(last, meanDebit) && AboveTwiceMean(h, meanDebit)
    ensures AboveTwiceMean(h + [last], meanDebit)
  {
    SumAmountsSnoc(h, last, "debit");
    var sum := SumAmounts(h, "debit");
    assert |h| == 0 ==> sum == 0.0;
    SumStepExceeds(sum, last.amount, meanDebit, |h| as real);
  }

  lemma SumStepExceeds(sum: real, amount: real, mean: real, k: real)
    requires (k > 0.0 ==> sum > 2.0 * mean * k) && k >= 0.0 && (k == 0.0 ==> sum == 0.0) && amount > mean * 2.0
    ensures sum + amount > 2.0 * mean * (k + 1.0)
  {
  }

  lemma SumAmountsSnoc(ts: seq<Transaction>, t: Transaction, kind: string)
    ensures SumAmounts(ts + [t], kind) == SumAmounts(ts, kind) + (if t.kind == kind then t.amount else 0.0)
  {
    assert (ts + [t])[..|ts|] == ts;
  }

  /** With non-negative debit amounts, the flagged transactions' amounts are part of the
      debit total. */
  lemma {:induction false} HighRiskSumBounded(ts: seq<Transaction>, meanDebit: real)
    requires forall i :: 0 <= i < |ts| && ts[i].kind == "debit" ==> ts[i].amount >= 0.0
    ensures 0.0 <= SumAmounts(HighRisk(ts, meanDebit), "debit") <= SumAmounts(ts, "debit")
    decreases |ts|
  {
    if ts != [] {
      var front, last := ts[..|ts| - 1], ts[|ts| - 1];
      assert forall i :: 0 <= i < |front| ==> front[i] == ts[i];
      HighRiskSumBounded(front, meanDebit);
      var h := HighRisk(front, meanDebit);
      assert ts == front + [last];
      SumAmountsSnoc(front, last, "debit");
      if IsHighRisk(last, meanDebit) {
        assert HighRisk(ts, meanDebit) == h + [last];
        SumAmountsSnoc(h, last, "debit");
      } else {
        assert HighRisk(ts, meanDebit) == h;
      }
    }
  }

  /** With non-negative debit amounts, fewer than half of the debit transactions can be
      high-risk: "above twice the mean" singles out a minority. */
  lemma HighRiskIsMinorityOfDebits(ts: seq<Transaction>)
    requires forall i :: 0 <= i < |ts| && ts[i].kind == "debit" ==> ts[i].amount >= 0.0
    requires CountKind(ts, "debit") > 0
    ensures 2 * |HighRisk(ts, MeanDebit(ts))| < CountKind(ts, "debit")
  {
    MeanTimesCount(ts);
    MinorityFor(ts, MeanDebit(ts));
  }

  /** The same for any mean that times the debit count gives the debit total. */
  lemma MinorityFor(ts: seq<Transaction>, mean: real)
    requires forall i :: 0 <= i < |ts| && ts[i].kind == "debit" ==> ts[i].amount >= 0.0
    requires CountKind(ts, "debit") > 0
    requires mean * (CountKind(ts, "debit") as real) == SumAmounts(ts, "debit")
    ensures 2 * |HighRisk(ts, mean)| < CountKind(ts, "debit")
  {
    FlaggedAboveTwiceMean(ts, mean);
    HighRiskSumBounded(ts, mean);
    MinorityCount(HighRisk(ts, mean), mean, SumAmounts(ts, "debit"), CountKind(ts, "debit"));
  }

  lemma MinorityCount(h: seq<Transaction>, mean: real, total: real, n: nat)
    requires n > 0 && mean * (n as real) == total
    requires AboveTwiceMean(h, mean) && 0.0 <= SumAmounts(h, "debit") <= total
    ensures 2 * |h| < n
  {
    if |h| > 0 {
      MinorityArithmetic(total, mean, n as real, |h| as real, SumAmounts(h, "debit"));
    }
  }

  lemma MeanTimesCount(ts: seq<Transaction>)
    requires CountKind(ts, "debit") > 0
    ensures MeanDebit(ts) * (CountKind(ts, "debit") as real) == SumAmounts(ts, "debit")
  {
  }

  /** If the flagged amounts exceed twice the mean per flagged item, lie within a
      non-negative total, and the mean times the count is that total, then the flagged
      items are fewer than half the count. */
  lemma MinorityArithmetic(total: real, mean: real, n: real, k: real, flagged: real)
    requires n > 0.0 && k > 0.0 && mean * n == total
    requires 0.0 <= flagged <= total && flagged > 2.0 * mean * k
    ensures 2.0 * k < n
  {
    assert mean > 0.0;
    assert mean * (n - 2.0 * k) > 0.0;
    PositiveFactor(mean, n - 2.0 * k);
  }
}
