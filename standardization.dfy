/** The standardiser: turns the spreadsheet extractor's raw records into a typed bank
    statement, and hands the other document kinds to their schema constructors.

    Raw data is JSON-like (`Value`). The conversions the source delegates to libraries — date
    parsing, `float()` on text, the schema's coercion of non-text values to text — are
    parameters (`Parsers`); what the standardiser itself decides (which keys are read, the
    defaults, which records are skipped, the fixed account fields, the first and last dates)
    is modelled exactly. */
module Standardization {
  import opened Wrappers
  import opened BankStatementSchema

  /** A raw value as the extractor delivers it. */
  datatype Value =
    | Null
    | Bool(b: bool)
    | Number(x: real)
    | Text(s: string)
    | List(items: seq<Value>)
    | Dict(entries: map<string, Value>)

  /** The library conversions: `pd.to_datetime(v).date()` on a value other than `None`,
      `float(s)` on text, and the schema's coercion of a non-text value to text. `None` stands
      for a raised exception. */
  datatype Parsers = Parsers(
    toDate: Value -> Option<Date>,
    textToFloat: string -> Option<real>,
    coerceText: Value -> Option<string>)

  const DefaultHolder := "Default Account Holder"
  const DefaultAccountNumber := "XXXX-XXXX-XXXX-1234"
  const DefaultBank := "Generic Bank"
  const DefaultCurrency := "USD"

  /** `d.get(key, default)` */
  function Get(entries: map<string, Value>, key: string, default: Value): (v: Value)
    ensures key in entries ==> v == entries[key]
    ensures key !in entries ==> v == default
  {
    if key in entries then entries[key] else default
  }

  /** Python's `float(v)`: numbers are kept, booleans are 1.0 or 0.0, text is parsed, and
      anything else raises. */
  function ToFloat(v: Value, p: Parsers): (r: Option<real>)
    ensures v.Number? ==> r == Some(v.x)
    ensures v.Null? || v.List? || v.Dict? ==> r.None?
  {
    match v
    case Number(x) => Some(x)
    case Bool(b) => Some(if b then 1.0 else 0.0)
    case Text(s) => p.textToFloat(s)
    case _ => None
  }

  /** `pd.to_datetime(v).date()`: `pd.to_datetime(None)` is `None`, which has no `.date()`, so
      a missing or null date always raises; any other value goes to the date parser. */
  function ToDate(v: Value, p: Parsers): (r: Option<Date>)
    ensures v.Null? ==> r.None?
    ensures !v.Null? ==> r == p.toDate(v)
  {
    if v.Null? then None else p.toDate(v)
  }

  /** A value assigned to a text field of the schema: text is kept, anything else is coerced
      or refused by the schema. */
  function ToText(v: Value, p: Parsers): (r: Option<string>)
    ensures v.Text? ==> r == Some(v.s)
  {
    if v.Text? then Some(v.s) else p.coerceText(v)
  }

  /** One iteration of the record loop: the transaction built from `record`, or `None` when
      building it raises (a record that is not a dictionary has no `.get` and raises too). */
  function ParseRecord(record: Value, p: Parsers): (r: Option<Transaction>)
    ensures !record.Dict? ==> r.None?
    ensures r.None? <==>
      || !record.Dict?
      || ToDate(Get(record.entries, "Date", Null), p).None?
      || ToText(Get(record.entries, "Description", Text("N/A")), p).None?
      || ToFloat(Get(record.entries, "Amount", Number(0.0)), p).None?
      || ToText(Get(record.entries, "Type", Text("unknown")), p).None?
      || (!Get(record.entries, "Balance", Null).Null? && ToFloat(record.entries["Balance"], p).None?)
    ensures r.Some? ==>
      && ToDate(Get(record.entries, "Date", Null), p) == Some(r.value.date)
      && ToText(Get(record.entries, "Description", Text("N/A")), p) == Some(r.value.description)
      && ToFloat(Get(record.entries, "Amount", Number(0.0)), p) == Some(r.value.amount)
      && ToText(Get(record.entries, "Type", Text("unknown")), p) == Some(r.value.kind)
      && (r.value.balance.None? <==> Get(record.entries, "Balance", Null).Null?)
      && (r.value.balance.Some? ==> ToFloat(record.entries["Balance"], p) == r.value.balance)
  {
    if !record.Dict? then None
    else
      var entries := record.entries;
      var date :- ToDate(Get(entries, "Date", Null), p);
      var description :- ToText(Get(entries, "Description", Text("N/A")), p);
      var amount :- ToFloat(Get(entries, "Amount", Number(0.0)), p);
      var kind :- ToText(Get(entries, "Type", Text("unknown")), p);
      var balanceValue := Get(entries, "Balance", Null);
      if balanceValue.Null? then Some(Transaction(date, description, amount, kind, None))
      else
        var balance :- ToFloat(balanceValue, p);
        Some(Transaction(date, description, amount, kind, Some(balance)))
  }

  /** Missing keys take their defaults: description "N/A", amount 0.0, type "unknown", no
      balance. Only the date has to be there. */
  lemma RecordDefaults(entries: map<string, Value>, p: Parsers, date: Date)
    requires ToDate(Get(entries, "Date", Null), p) == Some(date)
    requires "Description" !in entries && "Amount" !in entries
    requires "Type" !in entries && "Balance" !in entries
    ensures ParseRecord(Dict(entries), p) == Some(Transaction(date, "N/A", 0.0, "unknown", None))
  {
  }

  /** A record without a date, or with a null one, is always skipped, whatever else it holds. */
  lemma MissingDateSkipped(entries: map<string, Value>, p: Parsers)
    requires "Date" !in entries || entries["Date"].Null?
    ensures ParseRecord(Dict(entries), p).None?
  {
  }

  /** A record with a parsable date, text description and type, and numeric amount and balance
      is taken over field for field. */
  lemma WellTypedRecord(entries: map<string, Value>, p: Parsers, date: Date,
                        description: string, amount: real, kind: string, balance: real)
    requires ToDate(Get(entries, "Date", Null), p) == Some(date)
    requires Get(entries, "Description", Text("N/A")) == Text(description)
    requires Get(entries, "Amount", Number(0.0)) == Number(amount)
    requires Get(entries, "Type", Text("unknown")) == Text(kind)
    requires Get(entries, "Balance", Null) == Number(balance)
    ensures ParseRecord(Dict(entries), p) == Some(Transaction(date, description, amount, kind, Some(balance)))
  {
  }

  /** The transactions the record loop collects: the records that parse, in input order. */
  function ParsedTransactions(records: seq<Value>, p: Parsers): (r: seq<Transaction>)
    ensures |r| <= |records|
  {
    if records == [] then []
    else
      var n := |records| - 1;
      ParsedTransactions(records[..n], p) + match ParseRecord(records[n], p)
        case Some(t) => [t]
        case None => []
  }

  /** The records of a concatenation are collected as the records of each part, in order. */
  lemma {:induction false} ParsedTransactionsAppend(a: seq<Value>, b: seq<Value>, p: Parsers)
    ensures ParsedTransactions(a + b, p) == ParsedTransactions(a, p) + ParsedTransactions(b, p)
    decreases |b|
  {
    if b == [] {
      assert a + b == a;
    } else {
      var b' := b[..|b| - 1];
      assert (a + b)[..|a + b| - 1] == a + b';
      ParsedTransactionsAppend(a, b', p);
    }
  }

  /** A single record contributes its transaction when it parses and nothing otherwise. */
  lemma ParsedTransactionsSingleton(record: Value, p: Parsers)
    ensures ParsedTransactions([record], p) == match ParseRecord(record, p)
      case Some(t) => [t]
      case None => []
  {
    assert [record][..0] == [];
  }

  /** Every record that parses contributes its transaction, and every collected transaction
      comes from a record. */
  lemma {:induction false} ParsedTransactionsSpec(records: seq<Value>, p: Parsers)
    ensures forall i :: 0 <= i < |records| && ParseRecord(records[i], p).Some? ==>
      ParseRecord(records[i], p).value in ParsedTransactions(records, p)
    ensures forall t :: t in ParsedTransactions(records, p) ==>
      exists i :: 0 <= i < |records| && ParseRecord(records[i], p) == Some(t)
    decreases |records|
  {
    if records != [] {
      var n := |records| - 1;
      var init := records[..n];
      ParsedTransactionsSpec(init, p);
      assert forall i :: 0 <= i < n ==> init[i] == records[i];
    }
  }

  /** Nothing is collected exactly when no record parses. */
  lemma {:induction false} NothingParsed(records: seq<Value>, p: Parsers)
    ensures ParsedTransactions(records, p) == [] <==>
      forall i :: 0 <= i < |records| ==> ParseRecord(records[i], p).None?
    decreases |records|
  {
    if records != [] {
      var n := |records| - 1;
      var init := records[..n];
      NothingParsed(init, p);
      assert forall i :: 0 <= i < n ==> init[i] == records[i];
    }
  }

  /** When every record parses, the transactions are the records, one for one and in order. */
  lemma {:induction false} AllParsed(records: seq<Value>, p: Parsers)
    requires forall i :: 0 <= i < |records| ==> ParseRecord(records[i], p).Some?
    ensures |ParsedTransactions(records, p)| == |records|
    ensures forall i :: 0 <= i < |records| ==>
      ParsedTransactions(records, p)[i] == ParseRecord(records[i], p).value
    decreases |records|
  {
    if records != [] {
      var n := |records| - 1;
      var init := records[..n];
      assert forall i :: 0 <= i < n ==> init[i] == records[i];
      AllParsed(init, p);
    }
  }

  /** The statement built from the parsed transactions: fixed account fields, the first and
      last transactions' dates, and the schema's check that there is a transaction at all. */
  function StatementFrom(transactions: seq<Transaction>): (r: Result<BankStatementInput, ValidationError>)
    ensures r.Success? <==> transactions != []
    ensures r.Failure? ==> r.error == MinItemsError
    ensures r.Success? ==>
      && r.value.transactions == transactions
      && r.value.startDate == transactions[0].date
      && r.value.endDate == transactions[|transactions| - 1].date
      && r.value.accountHolderName == DefaultHolder && r.value.accountNumber == DefaultAccountNumber
      && r.value.bankName == DefaultBank && r.value.currency == DefaultCurrency
  {
    var start := if transactions != [] then transactions[0].date else DateMin;
    var end := if transactions != [] then transactions[|transactions| - 1].date else DateMax;
    NewBankStatementInput(DefaultHolder, DefaultAccountNumber, DefaultBank, start, end, transactions, DefaultCurrency)
  }

  /** A schema constructor called with the raw dictionary: it fails on the first required key
      that is missing, and otherwise validates the present fields with `build`. */
  function Construct<T>(raw: map<string, Value>, required: seq<string>,
                        build: map<string, Value> -> Result<T, ValidationError>)
    : (r: Result<T, ValidationError>)
    ensures r.Success? ==> forall k :: k in required ==> k in raw
    ensures (forall k :: k in required ==> k in raw) ==> r == build(raw)
    ensures (exists k :: k in required && k !in raw) ==>
      && r.Failure? && r.error.reason == "field required"
      && exists i :: 0 <= i < |required| && required[i] == r.error.field && required[i] !in raw
           && forall j :: 0 <= j < i ==> required[j] in raw
  {
    var i := FirstMissing(required, raw);
    if i < |required| then Failure(ValidationError(required[i], "field required")) else build(raw)
  }

  /** The index of the first required key absent from `raw`, or `|required|` when none is. */
  function FirstMissing(required: seq<string>, raw: map<string, Value>): (i: nat)
    ensures i <= |required|
    ensures forall j :: 0 <= j < i ==> required[j] in raw
    ensures i < |required| ==> required[i] !in raw
  {
    if required == [] || required[0] !in raw then 0
    else 1 + FirstMissing(required[1..], raw)
  }

  /** The fields of `BankStatementInput` without a default. */
  const BankStatementRequired := ["account_holder_name", "account_number", "bank_name",
                                  "start_date", "end_date", "transactions"]

  /** The fields of `CreditBureauInput` without a default. */
  const CreditBureauRequired := ["full_name", "date_of_birth", "address", "ssn_last_four",
                                 "inquiries_last_6_months", "total_debt", "credit_accounts"]

  /** The fields of `KybKycInput` without a default. */
  const KybKycRequired := ["company_name", "registration_number", "registration_date",
                           "registered_address", "business_type", "contact_person_name",
                           "contact_person_email", "phone_number"]

  /** `standardize_bank_statement`: spreadsheet records are parsed one by one, skipping those
      that raise; any other input goes to the schema constructor as it is. */
  method StandardizeBankStatement(rawData: map<string, Value>, p: Parsers,
                                  build: map<string, Value> -> Result<BankStatementInput, ValidationError>)
    returns (r: Result<BankStatementInput, ValidationError>)
    ensures "excel_data" in rawData && rawData["excel_data"].List? ==>
      r == StatementFrom(ParsedTransactions(rawData["excel_data"].items, p))
    ensures !("excel_data" in rawData && rawData["excel_data"].List?) ==>
      r == Construct(rawData, BankStatementRequired, build)
  {
    if "excel_data" in rawData && rawData["excel_data"].List? {
      var excelRecords := rawData["excel_data"].items;
      var transactions: seq<Transaction> := [];
      for i := 0 to |excelRecords|
        invariant transactions == ParsedTransactions(excelRecords[..i], p)
      {
        assert excelRecords[..i + 1][..i] == excelRecords[..i];
        var parsed := ParseRecord(excelRecords[i], p);
        if parsed.Some? {
          transactions := transactions + [parsed.value];
        }
      }
      assert excelRecords[..|excelRecords|] == excelRecords;
      r := StatementFrom(transactions);
    } else {
      r := Construct(rawData, BankStatementRequired, build);
    }
  }

  /** A spreadsheet upload succeeds exactly when some record parses; its transactions are the
      parsed records, and its period runs from the first to the last of them in list order. */
  lemma SpreadsheetStatement(records: seq<Value>, p: Parsers)
    ensures var r := StatementFrom(ParsedTransactions(records, p));
      && (r.Success? <==> exists i :: 0 <= i < |records| && ParseRecord(records[i], p).Some?)
      && (r.Success? ==> |r.value.transactions| <= |records|)
  {
    NothingParsed(records, p);
  }

  /** The period is taken from list order, not from the dates: with two parsable records the
      statement starts at the first one's date and ends at the second one's, even when the
      second is earlier. */
  lemma PeriodFollowsListOrder(first: Value, second: Value, p: Parsers)
    requires ParseRecord(first, p).Some? && ParseRecord(second, p).Some?
    ensures var r := StatementFrom(ParsedTransactions([first, second], p));
      && r.Success?
      && r.value.startDate == ParseRecord(first, p).value.date
      && r.value.endDate == ParseRecord(second, p).value.date
  {
    AllParsed([first, second], p);
  }

  /** `standardize_credit_bureau` */
  function StandardizeCreditBureau<T>(rawData: map<string, Value>,
                                      build: map<string, Value> -> Result<T, ValidationError>)
    : (r: Result<T, ValidationError>)
    ensures r.Success? ==> forall k :: k in CreditBureauRequired ==> k in rawData
  {
    Construct(rawData, CreditBureauRequired, build)
  }

  /** `standardize_kyb_kyc` */
  function StandardizeKybKyc<T>(rawData: map<string, Value>,
                                build: map<string, Value> -> Result<T, ValidationError>)
    : (r: Result<T, ValidationError>)
    ensures r.Success? ==> forall k :: k in KybKycRequired ==> k in rawData
  {
    Construct(rawData, KybKycRequired, build)
  }
}
