# Decision-automation backend: verified model of the core services

The backend takes an uploaded financial document through several steps:

1. It picks an extractor by file-name suffix.
2. It classifies the rendered document by keywords.
3. It maps messy column headers onto a canonical vocabulary by fuzzy matching.
4. It standardises spreadsheet records into a typed bank statement.
5. It derives cash-flow, liquidity, discipline, debt-servicing and risk-indicator metrics.
6. A rule engine scores the request: configured rules add their score impacts, and the total is clamped to 0..100 and binned into low, medium or high, with a decision and a rationale.

This project is a Dafny model of those services, with proofs about it.

Modules, one per service, plus shared helpers:

| module | file | models |
|---|---|---|
| `Wrappers` | wrappers.dfy | `Option` / `Result` |
| `Text` | text.dfy | Python's `isspace`, `\w`, `lower()`, `in` and `endswith` on strings |
| `BankStatementSchema`, `OutputSchema` | schema.dfy | the pydantic records; the rule that a statement has at least one transaction |
| `BankStatementFields` | bank_statement_fields.dfy | the canonical header vocabulary and the document-type keywords |
| `SynonymMap` | synonym_map.dfy | the reverse map from normalised synonyms to canonical fields |
| `HeaderStandardization` | header_standardization.dfy | `_normalize_header` |
| `HeaderMatcher` | header_matcher.dfy | `extractOne`, `fuzzy_match_header`, `map_headers_to_canonical`, the `HeaderStandardizer` class |
| `DocumentClassifier` | document_classifier.dfy | `classify_document` |
| `FileFormatHandler` | file_format_handler.dfy | the dispatch in `process_file` |
| `Standardization` | standardization.dfy | the three `standardize_*` functions |
| `Metrics` | metrics.dfy | `MetricsService` |
| `RiskEngine` | risk_engine.dfy | `RiskEngine` and `compute_risk_score` |

The source's loops are methods proved against specification functions. These are `BuildSynonymMap`, `GatherSynonyms`, `FuzzyMatchHeader`, `MapHeadersToCanonical`, `StandardizeBankStatement`, `IdentifyRiskIndicators` and `ComputeRiskScore`. The properties are then proved about those functions.

Where a reader might expect otherwise, the model follows the code:

- **Header mapping.** Every raw header is matched independently. Two headers may map to the same field; there is no first-claim-wins rule.
- **Ratios.** A zero denominator gives `0.0`, not a missing value.
- **Statement period.** The start and end dates are the dates of the first and the last parsed record in list order, not the earliest and latest dates.
- **Hyphens.** Normalisation deletes punctuation instead of turning it into a space, so "post-date" becomes "postdate".
- **Monthly average.** The "average monthly cash flow" is the net cash flow.
- **Liquidity.** Liquidity uses the recorded balances of credit and debit lines, not the amounts.

**Source defect: the risk engine does not load as written.** Line 37 of app/services/risk_engine.py, the logging call in the `except` branch, is not valid Python: the `: {e}` after the f-string inside the call's arguments is a syntax error in every Python version, and before 3.12 the nested double quotes also end the f-string early. As written, the module cannot be imported, so neither can the modules that import `RiskEngine` (the risk routes, the ingestion service and, through the router, the application). `RiskEngine.ComputeRiskScore` and `RiskEngine.Assess` model the evident intent of the `try`/`except`: a rule whose step raises is skipped, and scoring goes on with the next rule.

A spreadsheet upload in which no record parses is rejected by the schema. This is because of `min_items=1`, even though the code prepares `date.min` / `date.max` for that case (`SpreadsheetStatement`).

## Model

| member | source | states |
|---|---|---|
| BankStatementSchema.NewBankStatementInput | app/schema/bank_statement_schema.py:12-19 | a statement is built iff it has at least one transaction (min_items=1); otherwise the min-items error; every field (holder, number, bank, dates, transactions, currency) is taken over as given |
| BankStatementFields.BankStatementFieldNames | app/core/bank_statement_fields.py:2-35 | the fields are date, description, debit, credit, balance in that order, each with a synonym |
| BankStatementFields.DocumentTypeNames | app/core/bank_statement_fields.py:37-54 | the document types are bank_statement, credit_bureau, kyb_kyc, each with a keyword |
| BankStatementFields.BankStatementFieldsUnambiguous | app/core/bank_statement_fields.py:2-35 | no synonym is listed, as written, under two fields |
| BankStatementFields.DocumentTypesUnambiguous | app/core/bank_statement_fields.py:37-54 | no keyword is listed under two document types |
| BankStatementFields.CreditListedTwice | app/core/bank_statement_fields.py:24-26 | "credit" occurs twice in the credit list (harmless: same field) |
| Text.Lower | app/services/header_standardization_service.py:22 | lower-casing keeps the character class, maps A..Z to a..z (the letter 32 code points on), changes only upper-case ASCII and Latin-1 letters, and leaves no upper-case Latin-1 letter |
| Text.LowerStr | app/services/header_standardization_service.py:22 | `lower()` character by character, same length |
| Text.LowerStrIdempotent | app/services/document_classifier_service.py:6 | lower-casing twice is lower-casing once |
| Text.LowerStrAppend | app/services/document_classifier_service.py:6 | lower-casing distributes over concatenation |
| Text.IsSpace | app/services/header_standardization_service.py:22-25 | definition: the characters `str.isspace` and `\s` accept, within Latin-1 plus the Unicode space separators |
| Text.IsWordChar | app/services/header_standardization_service.py:24 | definition: the characters `\w` accepts within Latin-1 (letters, digits, `_`, and the Latin-1 letters, digits and fractions) |
| Text.Contains | app/services/document_classifier_service.py:8-13 | definition: `sub in s`, some position of `s` starts with `sub` |
| Text.EndsWith | app/services/file_format_handler_service.py:13-20 | definition: `s.endswith(suffix)`, case-sensitive comparison of the last characters |
| HeaderStandardization.StripLeft | app/services/header_standardization_service.py:22 | `lstrip`: a suffix of the input, starts with no whitespace, only whitespace removed |
| HeaderStandardization.StripRight | app/services/header_standardization_service.py:22 | `rstrip`: a prefix of the input, ends with no whitespace, only whitespace removed |
| HeaderStandardization.Strip | app/services/header_standardization_service.py:22 | no whitespace at either end |
| HeaderStandardization.Kept | app/services/header_standardization_service.py:24 | one character survives `[^\w\s]` removal iff it is a word or whitespace character |
| HeaderStandardization.RemoveNoise | app/services/header_standardization_service.py:24 | definition: `re.sub(r'[^\w\s]', '', s)`, each character kept or dropped on its own |
| HeaderStandardization.RemoveNoiseSpec | app/services/header_standardization_service.py:24 | only word characters and whitespace remain; lower-case stays lower-case; clean input is unchanged |
| HeaderStandardization.RemoveNoiseAppend | app/services/header_standardization_service.py:24 | noise removal works character by character: it distributes over concatenation |
| HeaderStandardization.CollapseSpaces | app/services/header_standardization_service.py:25 | `\s+` → one space: no double spaces left, the first non-space character kept, empty iff empty (each run becoming exactly one space is stated by the lemmas below) |
| HeaderStandardization.CollapseSpacesAppend | app/services/header_standardization_service.py:25 | collapsing works run by run: when two strings do not meet inside a whitespace run, collapsing their concatenation collapses each and concatenates |
| HeaderStandardization.StripLeftAppend | app/services/header_standardization_service.py:22 | `lstrip` of a concatenation: what is left of the first part followed by the second, or the stripped second part when the first is all whitespace |
| HeaderStandardization.CollapseAllSpace | app/services/header_standardization_service.py:25 | a non-empty whitespace run on its own becomes exactly one space |
| HeaderStandardization.CollapseSingle | app/services/header_standardization_service.py:25 | one whitespace character becomes a space; any other character is kept |
| HeaderStandardization.CollapseSeparatesWords | app/services/header_standardization_service.py:25 | text on both sides of a whitespace run keeps exactly one space between them: the run is neither deleted nor lengthened |
| HeaderStandardization.CollapseKeepsNonSpace | app/services/header_standardization_service.py:25 | collapsing keeps every non-whitespace character, in order: only whitespace runs change |
| HeaderStandardization.NormalizeKeepsWords | app/services/header_standardization_service.py:20-26 | normalisation keeps exactly the word characters of the lower-cased, stripped header, in order, separated only by spaces (that words stay apart, one space per whitespace run, is `CollapseSeparatesWords`) |
| HeaderStandardization.CollapseKeepsClasses | app/services/header_standardization_service.py:25 | collapsing turns whitespace into plain spaces and keeps lower-case |
| HeaderStandardization.CollapseFixesClean | app/services/header_standardization_service.py:25 | collapsing changes nothing in a single-spaced string of word characters and spaces |
| HeaderStandardization.Normalize | app/services/header_standardization_service.py:20-26 | the result is normalised: word characters and single inner spaces only, lower-case, no space at either end |
| HeaderStandardization.NormalizeFixesNormalized | app/services/header_standardization_service.py:20-26 | a normalised header is its own normalisation |
| HeaderStandardization.NormalizeIdempotent | app/services/header_standardization_service.py:20-26 | normalising twice is normalising once |
| HeaderStandardization.NormalizeIgnoresCase | app/services/header_standardization_service.py:22 | lower-casing the header first changes nothing |
| HeaderStandardization.StripLeftLower | app/services/header_standardization_service.py:22 | `strip` and `lower` commute (left side) |
| HeaderStandardization.StripRightLower | app/services/header_standardization_service.py:22 | `strip` and `lower` commute (right side) |
| HeaderStandardization.CaseIsFolded | app/services/header_standardization_service.py:20-26 | "Post Date" normalises to "post date" |
| HeaderStandardization.PunctuationIsDeleted | app/services/header_standardization_service.py:24-25 | a hyphen between two lower-case words is deleted, not spaced: "a-b " normalises to "ab" |
| HeaderStandardization.HyphenDropped | app/services/header_standardization_service.py:24 | noise removal drops the hyphen of "a-b" |
| HeaderStandardization.HyphenIsNoise | app/services/header_standardization_service.py:24 | "-" is removed entirely |
| HeaderStandardization.SmallLettersAreClean | app/services/header_standardization_service.py:24-25 | a lower-case ASCII word passes noise removal unchanged |
| SynonymMap.NormalizeAll | app/services/header_standardization_service.py:40 | the normalised synonyms, one per synonym, in order |
| SynonymMap.EntryMap | app/services/header_standardization_service.py:15-16 | one field's entries: keys are its normalised synonyms, each mapping to the field |
| SynonymMap.ReverseMap | app/services/header_standardization_service.py:11-17 | definition: the fields' entry maps merged in field order, a later field overwriting an earlier one |
| SynonymMap.AllSynonyms | app/services/header_standardization_service.py:38-40 | a string is gathered iff some field lists a synonym normalising to it |
| SynonymMap.ReverseMapKeys | app/services/header_standardization_service.py:11-17 | a key of the map iff some field lists a synonym normalising to it |
| SynonymMap.ReverseMapStep | app/services/header_standardization_service.py:14-16 | the last field overwrites the keys it lists and leaves the others as before |
| SynonymMap.ReverseMapLastWins | app/services/header_standardization_service.py:14-16 | a key maps to the last field listing it |
| SynonymMap.UnambiguousSynonym | app/services/header_standardization_service.py:11-17 | a synonym listed by exactly one field maps to that field |
| SynonymMap.SynonymsAreKeys | app/services/header_standardization_service.py:38-58 | the synonyms matched against are exactly the map's keys, so a matched synonym always maps back |
| SynonymMap.BuildSynonymMap | app/services/header_standardization_service.py:11-17 | the nested loop builds exactly the reverse map |
| HeaderMatcher.BestIndex | app/services/header_standardization_service.py:46-51 | an index of a highest score, before which every score is lower |
| HeaderMatcher.ExtractOne | app/services/header_standardization_service.py:46-51 | no result iff every score is below the cutoff; otherwise the first highest-scoring choice (every earlier choice scores strictly less), its score and index, score at least the cutoff |
| HeaderMatcher.Match | app/services/header_standardization_service.py:28-60 | definition: no synonyms, no match; otherwise `extractOne` over the normalised synonyms and the reverse-map value of its choice |
| HeaderMatcher.MatchWithoutSynonyms | app/services/header_standardization_service.py:42-43 | no synonyms: no match |
| HeaderMatcher.EmptyListsNoSynonyms | app/services/header_standardization_service.py:38-43 | empty synonym lists gather nothing |
| HeaderMatcher.MatchSpec | app/services/header_standardization_service.py:28-60 | a field is returned iff some synonym reaches the threshold; it is the reverse-map value of the first best-scoring synonym in gathering order |
| HeaderMatcher.MatchIsField | app/services/header_standardization_service.py:53-58 | a returned field is a canonical field name |
| HeaderMatcher.GatherSynonyms | app/services/header_standardization_service.py:38-40 | the `extend` loop gathers exactly the normalised synonyms, field by field |
| HeaderMatcher.HeaderStandardizer.constructor | app/services/header_standardization_service.py:6-9 | stores the vocabulary and threshold; the synonym map is the reverse map of the normalised vocabulary |
| HeaderMatcher.HeaderStandardizer.FuzzyMatchHeader | app/services/header_standardization_service.py:28-60 | the method returns exactly the specified match of the normalised header |
| HeaderMatcher.HeaderStandardizer.MapHeadersToCanonical | app/services/header_standardization_service.py:62-72 | a header is a key iff it is among the raw headers and its match is a non-empty name; its value is that match |
| HeaderMatcher.MappedValuesAreFields | app/services/header_standardization_service.py:62-72 | every mapped value is a canonical field name |
| DocumentClassifier.Classify | app/services/document_classifier_service.py:5-15 | one of the four labels; each label iff its signal is in the lower-cased text and no earlier signal is (and binds tighter than or) |
| DocumentClassifier.ClassifiedTypeIsCanonical | app/services/document_classifier_service.py:5-15 | every label but "unknown" is a key of the document-type table |
| DocumentClassifier.ClassifyIgnoresCase | app/services/document_classifier_service.py:6 | lower-casing the document first changes nothing |
| DocumentClassifier.ContainsLower | app/services/document_classifier_service.py:6-13 | a keyword found in any casing is found after lower-casing |
| DocumentClassifier.BankStatementInAnyCase | app/services/document_classifier_service.py:8-9 | any casing of "bank statement" makes a bank statement |
| DocumentClassifier.ContainsAppend | app/services/document_classifier_service.py:8-13 | a found keyword stays found when text is appended |
| DocumentClassifier.Rank | app/services/document_classifier_service.py:8-15 | precedence 0..3, unknown last |
| DocumentClassifier.ClassifyAppend | app/services/document_classifier_service.py:8-15 | appending text only moves a document up the precedence chain |
| DocumentClassifier.SignalsAppend | app/services/document_classifier_service.py:8-13 | each signal survives appended text |
| FileFormatHandler.ProcessorFor | app/services/file_format_handler_service.py:12-20 | a failure is always "Unsupported file format" |
| FileFormatHandler.ProcessorForSpec | app/services/file_format_handler_service.py:13-20 | each processor is chosen iff the name ends with one of its own suffixes; failure iff none matches (the test order does not matter) |
| FileFormatHandler.SpreadsheetByLongSuffix | app/services/file_format_handler_service.py:15-16 | "report.xlsx" goes to the spreadsheet processor |
| FileFormatHandler.UpperCaseExtensionUnsupported | app/services/file_format_handler_service.py:13-20 | suffix matching is case-sensitive: a name ending in an upper-case letter is refused |
| FileFormatHandler.GroupsExclusive | app/services/file_format_handler_service.py:13-18 | two unrelated suffix groups never both match |
| FileFormatHandler.GroupsUnrelated | app/services/file_format_handler_service.py:13-18 | no suffix of one group ends with a suffix of another |
| FileFormatHandler.SuffixOfSuffix | app/services/file_format_handler_service.py:13-18 | of two suffixes of one name, the shorter ends the longer |
| Standardization.Get | app/services/standardization_service.py:19-23 | `dict.get(key, default)` |
| Standardization.ToFloat | app/services/standardization_service.py:21-23 | `float()` keeps numbers and raises on null, lists and dictionaries |
| Standardization.ToDate | app/services/standardization_service.py:19 | `pd.to_datetime(v).date()`: a missing or null date always raises; any other value goes to the date parser |
| Standardization.ToText | app/services/standardization_service.py:20-22 | text fields keep text |
| Standardization.ParseRecord | app/services/standardization_service.py:16-28 | a record is skipped iff it is not a dictionary or one of its conversions raises (a missing or null date, or an unparsable one, description, amount, type, or a non-null balance); a parsed transaction takes each field from its key or its default; the balance is absent iff the key is missing or null |
| Standardization.RecordDefaults | app/services/standardization_service.py:19-23 | with a parsable date, missing keys give "N/A", 0.0, "unknown" and no balance |
| Standardization.MissingDateSkipped | app/services/standardization_service.py:19 | a record without a date, or with a null one, is always skipped |
| Standardization.WellTypedRecord | app/services/standardization_service.py:18-24 | a well-typed record is taken over field for field |
| Standardization.ParsedTransactions | app/services/standardization_service.py:15-28 | no more transactions than records |
| Standardization.ParsedTransactionsAppend | app/services/standardization_service.py:15-28 | records are parsed independently and in order: the transactions of a concatenation are those of each part, concatenated |
| Standardization.ParsedTransactionsSingleton | app/services/standardization_service.py:15-28 | one record contributes its transaction if it parses, and nothing otherwise |
| Standardization.ParsedTransactionsSpec | app/services/standardization_service.py:15-28 | every parsing record contributes its transaction, and every transaction comes from a record |
| Standardization.NothingParsed | app/services/standardization_service.py:15-28 | nothing is collected iff no record parses |
| Standardization.AllParsed | app/services/standardization_service.py:15-28 | when all records parse, the transactions are the records one for one, in order |
| Standardization.StatementFrom | app/services/standardization_service.py:30-38 | succeeds iff there is a transaction; fixed account fields; first and last dates in list order |
| Standardization.Construct | app/services/standardization_service.py:39-40 | fails with "field required" on the first missing required key in declaration order, otherwise validates the dictionary |
| Standardization.FirstMissing | app/services/standardization_service.py:39-40 | the index of the first required key absent: every earlier key is present; the index is past the end iff all are present |
| Standardization.StandardizeBankStatement | app/services/standardization_service.py:10-40 | a record list is parsed record by record into the statement; anything else goes to the schema constructor |
| Standardization.SpreadsheetStatement | app/services/standardization_service.py:15-38 | a spreadsheet upload succeeds iff some record parses |
| Standardization.PeriodFollowsListOrder | app/services/standardization_service.py:34-35 | the period runs from the first to the last record in list order, not by date |
| Standardization.StandardizeCreditBureau | app/services/standardization_service.py:43-44 | success implies every required credit-bureau field was given |
| Standardization.StandardizeKybKyc | app/services/standardization_service.py:47-48 | success implies every required KYB/KYC field was given |
| Metrics.CalculateCashflowMetrics | app/services/metrics_service.py:8-18 | inflow and outflow are the credit and debit totals; net is their difference; the monthly average is the net; volatility 0.0 |
| Metrics.SumAmounts | app/services/metrics_service.py:9-10 | definition: the sum of the amounts of the transactions of one type |
| Metrics.SumBalances | app/services/metrics_service.py:22-23 | definition: the sum of the recorded balances of the transactions of one type |
| Metrics.CalculateLiquidityMetrics | app/services/metrics_service.py:21-37 | both ratios equal; ratio times liabilities is assets, or 0.0 when liabilities are 0; days cash on hand is the assets |
| Metrics.CalculateFinancialDisciplineMetrics | app/services/metrics_service.py:40-54 | the same zero block for every statement |
| Metrics.CalculateDebtServicingMetrics | app/services/metrics_service.py:57-74 | DSCR times outflow is 5 × inflow; the income ratios times inflow are the debt and a tenth of the outflow; 0.0 otherwise |
| Metrics.IdentifyRiskIndicators | app/services/metrics_service.py:77-90 | the loop flags exactly the high-risk transactions against the mean debit; the other indicators are passed through |
| Metrics.MeanDebit | app/services/metrics_service.py:80 | definition: the debit total over the debit count, 0 without debits |
| Metrics.HighRisk | app/services/metrics_service.py:81-83 | definition: the transactions flagged against a mean, in statement order |
| Metrics.HighRiskAppend | app/services/metrics_service.py:81-83 | transactions are flagged independently and in order: the flagged transactions of a concatenation are those of each part |
| Metrics.HighRiskSingleton | app/services/metrics_service.py:81-83 | one transaction is flagged iff it is a debit above twice the mean |
| Metrics.TotalAppend | app/services/metrics_service.py:9-10 | sums distribute over concatenation |
| Metrics.SumAmountsIgnoresOtherKinds | app/services/metrics_service.py:9-10 | a transaction of another type does not change a type's total |
| Metrics.CashflowOfIntegrationExample | app/tests/test_integration_flow.py:55-57 | the integration flow's statement (1000 debit, 2000 credit, 150 debit) gives inflow 2000, outflow 1150, net 850 |
| Metrics.DscrTimesLoanPaymentRatio | app/services/metrics_service.py:57-74 | with positive inflow and outflow, DSCR × loan-payment ratio is 1/2 |
| Metrics.HighRiskMembership | app/services/metrics_service.py:81-83 | flagged iff in the statement, a debit, and above twice the mean |
| Metrics.HighRiskWithoutDebits | app/services/metrics_service.py:80-83 | no debit transactions: nothing flagged |
| Metrics.NoDebitsNoHighRisk | app/services/metrics_service.py:82 | only debits can be flagged, whatever the mean |
| Metrics.HighRiskSumExceeds | app/services/metrics_service.py:80-83 | flagged amounts add up to more than twice the mean per flagged transaction |
| Metrics.FlaggedAboveTwiceMean | app/services/metrics_service.py:81-83 | the same, as a property of the flagged list |
| Metrics.HighRiskSumBounded | app/services/metrics_service.py:81-83 | with non-negative debits, the flagged debit total lies between 0 and the debit total |
| Metrics.HighRiskIsMinorityOfDebits | app/services/metrics_service.py:80-83 | with non-negative debits, fewer than half the debit transactions are flagged |
| Metrics.MinorityFor | app/services/metrics_service.py:80-83 | the same for any mean whose product with the debit count is the debit total |
| Metrics.MeanTimesCount | app/services/metrics_service.py:80 | the mean debit times the debit count is the debit total |
| RiskEngine.Rationales | app/services/risk_engine.py:34 | one rationale per rule, `rule.get("rationale", "")`, in order |
| RiskEngine.Triggered | app/services/risk_engine.py:27-38 | the rules that take effect (condition present and truthy, impact addable), in rule order; never more than the rules |
| RiskEngine.TriggeredMembers | app/services/risk_engine.py:27-38 | a rule is among the fired rules iff it is in the list and takes effect |
| RiskEngine.TotalImpact | app/services/risk_engine.py:33 | definition: the fired impacts added in order, an absent impact counting 0 |
| RiskEngine.TotalImpactSign | app/services/risk_engine.py:33 | impacts that are all non-negative (non-positive) add up to a non-negative (non-positive) total |
| RiskEngine.Clamp | app/services/risk_engine.py:41 | the result is in 0..100 and equals the score when already in range |
| RiskEngine.BinFor | app/services/risk_engine.py:43-52 | "low" iff below 30, "medium" iff 30..69, "high" iff 70 and above |
| RiskEngine.DecisionFor | app/services/risk_engine.py:43-52 | "Approved", "Review Required" and "Rejected" exactly for the low, medium and high bins |
| RiskEngine.Assess | app/services/risk_engine.py:21-62 | the score is the clamped sum of the fired rules' impacts, in 0..100; low/medium/high iff below 30 / 30..69 / 70 and above, with the matching decision; the rationale is the fired rules' rationales, or the base-assessment line when none fired |
| RiskEngine.RiskEngine.constructor | app/services/risk_engine.py:11-12 | the engine holds the loaded rules |
| RiskEngine.RiskEngine.ComputeRiskScore | app/services/risk_engine.py:21-62 | the loop computes exactly the specified assessment and leaves the rules unchanged |
| RiskEngine.TotalImpactAppend | app/services/risk_engine.py:33 | impacts add up over concatenated rule lists |
| RiskEngine.TriggeredAppend | app/services/risk_engine.py:27-38 | rules are evaluated independently: the fired rules of a concatenation are the concatenation of the fired rules |
| RiskEngine.RationalesAppend | app/services/risk_engine.py:34 | rationales distribute over concatenation |
| RiskEngine.TotalImpactPermutation | app/services/risk_engine.py:33 | the pre-clamp score does not depend on rule order |
| RiskEngine.RationalesPermutation | app/services/risk_engine.py:34 | reordering rules permutes their rationales |
| RiskEngine.TriggeredCount | app/services/risk_engine.py:29-34 | a rule fires as often as it occurs if it takes effect, otherwise never |
| RiskEngine.TriggeredPermutation | app/services/risk_engine.py:27-38 | reordering the rules permutes the fired rules |
| RiskEngine.AssessPermutation | app/services/risk_engine.py:21-62 | rule order changes neither score, bin nor decision, and only permutes the rationale |
| RiskEngine.SkippedRuleIsInert | app/services/risk_engine.py:29-38 | a rule that does not take effect (condition missing, false or raising, or impact unaddable) is not among the fired rules, and the rules after it still are |
| RiskEngine.SkippedRuleLeavesAssessment | app/services/risk_engine.py:35-38 | removing such a rule leaves the assessment unchanged |
| RiskEngine.MalformedRuleIsSkipped | app/services/risk_engine.py:28-38 | a rule without a condition, or whose impact cannot be added, is skipped whatever the data |
| RiskEngine.TriggeredSingleton | app/services/risk_engine.py:29-34 | a single rule fires iff it takes effect |
| RiskEngine.SameFiredSameAssessment | app/services/risk_engine.py:41-62 | the assessment depends only on the fired rules |

## Left out

- Reading `rules.yaml` (`_load_rules`) is not modelled: the rules are a constructor argument.
- Condition evaluation with Python's `eval` is not modelled: it is a parameter giving one of three outcomes (holds, does not hold, raises). The `except` branch is modelled as intended (skip the rule and go on); its logging line does not parse (see the source defect above).
- `fuzz.token_set_ratio` is a parameter bounded to 0..100.
- Python's character classes (`\w`, `\s`, `isspace`, `lower`) are modelled for Latin-1. Outside Latin-1, only the Unicode space separators count as whitespace and every other character as non-word.
- Floating-point arithmetic is modelled as exact reals. This covers the `0.1` and `0.5` factors and the divisions, so rounding is not captured.
- Library conversions are parameters (`Parsers`): `pd.to_datetime(...).date()`, `float()` on text, and pydantic's coercion of non-text values to text.
- Pydantic validation of the credit-bureau and KYB/KYC records (field types, e-mail format) is a parameter `build`. Only the required keys are modelled.
- Standardization.Construct: reports only the first missing required field. Pydantic collects all of them.
- The `date.min` / `date.max` fallback dates of an empty spreadsheet upload are never observable: the statement is then rejected for having no transactions.
- DocumentClassifier.Classify: takes the already rendered `str(document_content)` text. Python's rendering of a dictionary as text is not modelled.
- FileFormatHandler.ProcessorFor: returns the chosen processor, not its output. The PDF, spreadsheet and image extractors are not part of this model.
- Metrics.IdentifyRiskIndicators: reports the flagged transactions themselves rather than their `dict()` renderings.
- BankStatementFields.BankStatementFieldsUnambiguous: proves the synonym lists disjoint as written, not after normalisation. The map properties hold for any normaliser, but that every table synonym is already in normalised form (so that normalising keeps the lists disjoint and the reverse map's last-writer-wins never decides) is not proved: checking the hundred-odd literal strings one character at a time is beyond the proof budget.
- RiskEngine.Rule: a float `score_impact` is not modelled (it would make the score non-integral); a boolean counts as the integer 1 or 0. A fired rule whose `rationale` entry is null puts `None` into the rationale list, which the output schema then refuses; the model reads a rationale only as absent (`""`) or text.
- Standardization.Value: spreadsheet cells left empty arrive as float NaN (the records are taken from the data frame without filling gaps), not as a missing key or null. NaN is not modelled: a NaN balance would be kept rather than treated as absent, and a NaN amount would make every total it enters NaN.
- The orchestration routes, ingestion service, HTTP layer, logging and the stub services (forecast, anomaly, RAG, CV) are not part of this model.
