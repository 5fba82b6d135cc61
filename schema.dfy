/** The typed records the pipeline passes between stages: one standardised transaction, a
    bank statement, and the schema rule that a statement holds at least one transaction. */
module BankStatementSchema {
  import opened Wrappers

  /** A calendar date; `date.min` and `date.max` of Python's `datetime` are the two bounds. */
  datatype Date = Date(year: int, month: int, day: int)

  const DateMin := Date(1, 1, 1)
  const DateMax := Date(9999, 12, 31)

  /** One ledger line. `kind` is the source's free-form `type` string ("credit", "debit",
      "unknown" or anything the input carried); `balance` is optional. */
  datatype Transaction = Transaction(
    date: Date,
    description: string,
    amount: real,
    kind: string,
    balance: Option<real>)

  datatype BankStatementInput = BankStatementInput(
    accountHolderName: string,
    accountNumber: string,
    bankName: string,
    startDate: Date,
    endDate: Date,
    transactions: seq<Transaction>,
    currency: string)

  /** The one way the schema can reject a value built from already-typed fields. */
  datatype ValidationError = ValidationError(field: string, reason: string)

  const MinItemsError := ValidationError("transactions", "ensure this value has at least 1 items")

  /** Building a `BankStatementInput` validates it: an empty transaction list is refused. */
  function NewBankStatementInput(
    holder: string, number: string, bank: string, start: Date, end: Date,
    transactions: seq<Transaction>, currency: string): (r: Result<BankStatementInput, ValidationError>)
    ensures r.Success? <==> |transactions| >= 1
    ensures r.Success? ==>
      && r.value.accountHolderName == holder && r.value.accountNumber == number
      && r.value.bankName == bank && r.value.startDate == start && r.value.endDate == end
      && r.value.transactions == transactions && r.value.currency == currency
    ensures r.Failure? ==> r.error == MinItemsError
  {
    if |transactions| < 1 then Failure(MinItemsError)
    else Success(BankStatementInput(holder, number, bank, start, end, transactions, currency))
  }
}

/** The derived metric records of the unified response. Every field is optional in the schema;
    the metrics service decides which ones it fills. */
module OutputSchema {
  import opened Wrappers
  import opened BankStatementSchema

  datatype CashflowMetrics = CashflowMetrics(
    totalInflow: Option<real>,
    totalOutflow: Option<real>,
    netCashflow: Option<real>,
    averageMonthlyCashflow: Option<real>,
    cashflowVolatility: Option<real>)

  datatype LiquidityMetrics = LiquidityMetrics(
    currentRatio: Option<real>,
    quickRatio: Option<real>,
    cashConversionCycle: Option<real>,
    daysCashOnHand: Option<real>)

  datatype FinancialDisciplineMetrics = FinancialDisciplineMetrics(
    overdraftFrequency: Option<int>,
    latePaymentCount: Option<int>,
    bouncedChequeCount: Option<int>,
    savingsRate: Option<real>)

  datatype DebtServicingMetrics = DebtServicingMetrics(
    dscr: Option<real>,
    debtToIncomeRatio: Option<real>,
    loanPaymentToIncomeRatio: Option<real>)

  /** `high_risk_transactions` holds each flagged transaction as its record (`t.dict()`). */
  datatype RiskIndicators = RiskIndicators(
    highRiskTransactions: seq<Transaction>,
    creditScoreChange: Option<real>,
    negativeNewsMentions: Option<int>,
    bankruptcyFlags: Option<bool>)
}
