/** The keyword document classifier: the rendered document is lower-cased and searched for
    keywords, bank-statement signals first, then credit-bureau, then KYB/KYC ones.

    The input is the already rendered text of the document (`str(document_content)`). */
module DocumentClassifier {
  import opened Text
  import BankStatementFields

  const BankStatement := "bank_statement"
  const CreditBureau := "credit_bureau"
  const KybKyc := "kyb_kyc"
  const Unknown := "unknown"

  /** "bank statement" occurs, or both "transaction" and "balance" do (`and` binds tighter
      than `or`). */
  predicate BankSignal(s: string) {
    Contains(s, "bank statement") || (Contains(s, "transaction") && Contains(s, "balance"))
  }

  predicate CreditSignal(s: string) {
    Contains(s, "credit score") || Contains(s, "credit account") || Contains(s, "debt")
  }

  predicate KybSignal(s: string) {
    Contains(s, "company name") || Contains(s, "registration number") || Contains(s, "kyc")
    || Contains(s, "kyb")
  }

  /** `classify_document`, applied to the rendered document. */
  function Classify(content: string): (r: string)
    ensures r in [BankStatement, CreditBureau, KybKyc, Unknown]
    ensures r == BankStatement <==> BankSignal(LowerStr(content))
    ensures r == CreditBureau <==> !BankSignal(LowerStr(content)) && CreditSignal(LowerStr(content))
    ensures r == KybKyc <==>
      !BankSignal(LowerStr(content)) && !CreditSignal(LowerStr(content)) && KybSignal(LowerStr(content))
    ensures r == Unknown <==>
      !BankSignal(LowerStr(content)) && !CreditSignal(LowerStr(content)) && !KybSignal(LowerStr(content))
  {
    var s := LowerStr(content);
    if BankSignal(s) then BankStatement
    else if CreditSignal(s) then CreditBureau
    else if KybSignal(s) then KybKyc
    else Unknown
  }

  /** Every type the classifier names, other than "unknown", is a key of the document-type
      table. */
  lemma ClassifiedTypeIsCanonical(content: string)
    ensures Classify(content) != Unknown ==>
      Classify(content) in BankStatementFields.Names(BankStatementFields.CanonicalDocumentTypes)
  {
    BankStatementFields.DocumentTypeNames();
  }

  /** The classifier does not see case: lower-casing the document first changes nothing. */
  lemma ClassifyIgnoresCase(content: string)
    ensures Classify(LowerStr(content)) == Classify(content)
  {
    LowerStrIdempotent(content);
  }

  /** A keyword is found in any casing: a piece of the document that lower-cases to a keyword
      counts as that keyword. */
  lemma {:induction false} ContainsLower(s: string, sub: string)
    requires Contains(s, sub)
    ensures Contains(LowerStr(s), LowerStr(sub))
  {
    var i :| 0 <= i <= |s| && sub <= s[i..];
    assert LowerStr(sub) <= LowerStr(s)[i..] by {
      forall k | 0 <= k < |sub|
        ensures LowerStr(sub)[k] == LowerStr(s)[i..][k]
      {
        assert sub[k] == s[i..][k] == s[i + k];
      }
    }
  }

  /** "BANK STATEMENT", "Bank Statement" or any other casing of the keyword makes the document
      a bank statement. */
  lemma BankStatementInAnyCase(content: string, keyword: string)
    requires Contains(content, keyword) && LowerStr(keyword) == "bank statement"
    ensures Classify(content) == BankStatement
  {
    ContainsLower(content, keyword);
  }

  /** A keyword found in a document is still found once more text follows it. */
  lemma {:induction false} ContainsAppend(s: string, t: string, sub: string)
    requires Contains(s, sub)
    ensures Contains(s + t, sub)
  {
    var i :| 0 <= i <= |s| && sub <= s[i..];
    assert (s + t)[i..] == s[i..] + t;
  }

  /** The precedence position of a result: bank statement first, unknown last. */
  function Rank(kind: string): (n: nat)
    ensures n <= 3
    ensures n == 3 <==> kind !in [BankStatement, CreditBureau, KybKyc]
  {
    if kind == BankStatement then 0
    else if kind == CreditBureau then 1
    else if kind == KybKyc then 2
    else 3
  }

  /** Appending text can only move a document up the precedence chain: a bank statement stays
      a bank statement, and an unknown document can become anything. */
  lemma ClassifyAppend(a: string, b: string)
    ensures Rank(Classify(a + b)) <= Rank(Classify(a))
  {
    LowerStrAppend(a, b);
    SignalsAppend(LowerStr(a), LowerStr(b));
  }

  /** Each keyword signal, once present, survives appended text. */
  lemma SignalsAppend(s: string, t: string)
    ensures BankSignal(s) ==> BankSignal(s + t)
    ensures CreditSignal(s) ==> CreditSignal(s + t)
    ensures KybSignal(s) ==> KybSignal(s + t)
  {
    KeywordAppend(s, t, "bank statement");
    KeywordAppend(s, t, "transaction");
    KeywordAppend(s, t, "balance");
    KeywordAppend(s, t, "credit score");
    KeywordAppend(s, t, "credit account");
    KeywordAppend(s, t, "debt");
    KeywordAppend(s, t, "company name");
    KeywordAppend(s, t, "registration number");
    KeywordAppend(s, t, "kyc");
    KeywordAppend(s, t, "kyb");
  }

  lemma KeywordAppend(s: string, t: string, keyword: string)
    ensures Contains(s, keyword) ==> Contains(s + t, keyword)
  {
    if Contains(s, keyword) {
      ContainsAppend(s, t, keyword);
    }
  }
}
