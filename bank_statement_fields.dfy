/** The canonical vocabularies: the bank-statement column names with their synonyms in several
    languages, and the document types with their keywords. Non-ASCII letters are written as
    `\U{..}` escapes. */
module BankStatementFields {
  import opened SynonymMap

  const DateSynonyms: seq<string> := [
    "date", "transaction date", "post date", "value date", "eff date", "activity date",
    "fecha", "fecha de transaccion", "datum", "buchtungsdatum", "transaktionsdatum",
    "date of transaction", "posting date", "date posted", "transaction_date", "valuta",
    "op_date", "data", "data transa\U{E7}\U{E3}o", "data lan\U{E7}amento", "date operation",
    "jour", "tag", "giorno", "data operazione"
  ]

  const DescriptionSynonyms: seq<string> := [
    "description", "transaction description", "details", "narration", "memo", "payee",
    "transaction details", "particulars", "remarks", "concept", "descripcion", "beschreibung",
    "transaktionsbeschreibung", "omschrijving", "detail", "descri\U{E7}\U{E3}o", "historico",
    "descripci\U{F3}n de la transacci\U{F3}n", "objet", "libell\U{E9}", "verwendung", "zweck",
    "causal", "descrizione operazione"
  ]

  const DebitSynonyms: seq<string> := [
    "debit", "withdrawal", "amount out", "debit amount", "amount withdrawn", "spent",
    "pagamento", "salida", "cargo", "retiro", "d\U{E9}bito", "soll", "uitgaand", "abgang",
    "debet", "minus", "less", "importo debito", "prelievo", "egresso", "d\U{E9}bit",
    "somme d\U{E9}bit\U{E9}e", "belastung"
  ]

  const CreditSynonyms: seq<string> := [
    "credit", "deposit", "amount in", "credit amount", "amount deposited", "received",
    "recebimento", "entrada", "abono", "deposito", "cr\U{E9}dito", "haben", "inkomend",
    "zugang", "credit", "plus", "add", "importo credito", "versamento", "ingresso",
    "cr\U{E9}dit", "somme cr\U{E9}dit\U{E9}e", "gutschrift"
  ]

  const BalanceSynonyms: seq<string> := [
    "balance", "account balance", "ending balance", "current balance", "available balance",
    "saldo", "saldo contable", "saldo disponible", "saldo actual", "bilanz", "kontostand",
    "restbetrag", "balans", "eindsaldo", "solde", "solde disponible", "saldo finale",
    "disponibile", "saldo atual", "montant disponible", "total"
  ]

  /** `CANONICAL_BANK_STATEMENT_FIELDS`, in dictionary order. */
  const CanonicalBankStatementFields: Vocabulary := [
    ("date", DateSynonyms),
    ("description", DescriptionSynonyms),
    ("debit", DebitSynonyms),
    ("credit", CreditSynonyms),
    ("balance", BalanceSynonyms)
  ]

  const BankStatementKeywords: seq<string> := [
    "bank statement", "account statement", "statement of account", "transaction history",
    "bank activity", "extracto bancario", "estado de cuenta", "relev\U{E9} de compte",
    "kontoauszug", "bankafschrift", "estratto conto bancario", "demonstrativo banc\U{E1}rio"
  ]

  const CreditBureauKeywords: seq<string> := [
    "credit report", "credit score", "credit history", "bureau report", "experian",
    "transunion", "equifax", "informe de cr\U{E9}dito", "historial crediticio",
    "rapport de cr\U{E9}dit", "kreditauskunft", "kreditrapport",
    "relat\U{F3}rio de cr\U{E9}dito"
  ]

  const KybKycKeywords: seq<string> := [
    "kyc document", "kyb document", "know your customer", "know your business",
    "incorporation certificate", "business registration", "articles of association",
    "id document", "passport", "driver license", "proof of address", "company registry",
    "registro mercantil", "documento de identidad", "comprovante de endere\U{E7}o"
  ]

  /** `CANONICAL_DOCUMENT_TYPES`, in dictionary order. */
  const CanonicalDocumentTypes: Vocabulary := [
    ("bank_statement", BankStatementKeywords),
    ("credit_bureau", CreditBureauKeywords),
    ("kyb_kyc", KybKycKeywords)
  ]

  /** The canonical names of a vocabulary, in order. */
  function Names(vocabulary: Vocabulary): (r: seq<string>)
    ensures |r| == |vocabulary| && forall i :: 0 <= i < |r| ==> r[i] == vocabulary[i].0
  {
    seq(|vocabulary|, i requires 0 <= i < |vocabulary| => vocabulary[i].0)
  }

  /** No string is listed under two different names. */
  predicate Unambiguous(vocabulary: Vocabulary) {
    forall i, j :: 0 <= i < j < |vocabulary| ==> Disjoint(vocabulary[i].1, vocabulary[j].1)
  }

  /** The two lists have no string in common. */
  predicate Disjoint(a: seq<string>, b: seq<string>) {
    forall s :: s in a ==> s !in b
  }

  /** The bank-statement fields are date, description, debit, credit and balance, in that
      order, each with at least one synonym. */
  lemma BankStatementFieldNames()
    ensures Names(CanonicalBankStatementFields) == ["date", "description", "debit", "credit", "balance"]
    ensures forall i :: 0 <= i < |CanonicalBankStatementFields| ==> CanonicalBankStatementFields[i].1 != []
  {
  }

  /** The document types are bank_statement, credit_bureau and kyb_kyc, in that order, each
      with at least one keyword. */
  lemma DocumentTypeNames()
    ensures Names(CanonicalDocumentTypes) == ["bank_statement", "credit_bureau", "kyb_kyc"]
    ensures forall i :: 0 <= i < |CanonicalDocumentTypes| ==> CanonicalDocumentTypes[i].1 != []
  {
  }

  /** No synonym is listed under two fields. */
  lemma BankStatementFieldsUnambiguous()
    ensures Unambiguous(CanonicalBankStatementFields)
  {
    var f := CanonicalBankStatementFields;
    forall i, j | 0 <= i < j < 5
      ensures Disjoint(f[i].1, f[j].1)
    {
      if i == 0 && j == 1 {
        DateHeadNotDescription();
        DateTailNotDescription();
        DisjointByParts(DateSynonyms, DescriptionSynonyms, 12);
      } else if i == 0 && j == 2 {
        DateHeadNotDebit();
        DateTailNotDebit();
        DisjointByParts(DateSynonyms, DebitSynonyms, 12);
      } else if i == 0 && j == 3 {
        DateHeadNotCredit();
        DateTailNotCredit();
        DisjointByParts(DateSynonyms, CreditSynonyms, 12);
      } else if i == 0 && j == 4 {
        DateHeadNotBalance();
        DateTailNotBalance();
        DisjointByParts(DateSynonyms, BalanceSynonyms, 12);
      } else if i == 1 && j == 2 {
        DescriptionHeadNotDebit();
        DescriptionTailNotDebit();
        DisjointByParts(DescriptionSynonyms, DebitSynonyms, 12);
      } else if i == 1 && j == 3 {
        DescriptionHeadNotCredit();
        DescriptionTailNotCredit();
        DisjointByParts(DescriptionSynonyms, CreditSynonyms, 12);
      } else if i == 1 && j == 4 {
        DescriptionHeadNotBalance();
        DescriptionTailNotBalance();
        DisjointByParts(DescriptionSynonyms, BalanceSynonyms, 12);
      } else if i == 2 && j == 3 {
        DebitHeadNotCredit();
        DebitTailNotCredit();
        DisjointByParts(DebitSynonyms, CreditSynonyms, 11);
      } else if i == 2 && j == 4 {
        DebitHeadNotBalance();
        DebitTailNotBalance();
        DisjointByParts(DebitSynonyms, BalanceSynonyms, 11);
      } else if i == 3 && j == 4 {
        CreditHeadNotBalance();
        CreditTailNotBalance();
        DisjointByParts(CreditSynonyms, BalanceSynonyms, 11);
      }
    }
  }

  /** No keyword is listed under two document types. */
  lemma DocumentTypesUnambiguous()
    ensures Unambiguous(CanonicalDocumentTypes)
  {
    var t := CanonicalDocumentTypes;
    forall i, j | 0 <= i < j < 3
      ensures Disjoint(t[i].1, t[j].1)
    {
      if i == 0 && j == 1 {
        BankStatementNotCreditBureau();
        DisjointByParts(BankStatementKeywords, CreditBureauKeywords, |BankStatementKeywords|);
      } else if i == 0 && j == 2 {
        BankStatementNotKybKyc();
        DisjointByParts(BankStatementKeywords, KybKycKeywords, |BankStatementKeywords|);
      } else if i == 1 && j == 2 {
        CreditBureauNotKybKyc();
        DisjointByParts(CreditBureauKeywords, KybKycKeywords, |CreditBureauKeywords|);
      }
    }
  }

  /** Two lists are disjoint when each of the two parts of the first, cut at `k`, has no
      string in the second. */
  lemma DisjointByParts(a: seq<string>, b: seq<string>, k: nat)
    requires k <= |a|
    requires forall i :: 0 <= i < k ==> a[i] !in b
    requires forall i :: k <= i < |a| ==> a[i] !in b
    ensures Disjoint(a, b)
  {
  }

  /** "credit" is listed twice among the credit synonyms; both copies name the same field. */
  lemma CreditListedTwice()
    ensures CreditSynonyms[0] == CreditSynonyms[14] == "credit"
  {
  }

  // The lists compared string by string, half a list at a time to keep each proof small.
  lemma DateHeadNotDescription()
    ensures forall i :: 0 <= i < 12 ==> DateSynonyms[i] !in DescriptionSynonyms
  {
  }

  lemma DateTailNotDescription()
    ensures forall i :: 12 <= i < 25 ==> DateSynonyms[i] !in DescriptionSynonyms
  {
  }

  lemma DateHeadNotDebit()
    ensures forall i :: 0 <= i < 12 ==> DateSynonyms[i] !in DebitSynonyms
  {
  }

  lemma DateTailNotDebit()
    ensures forall i :: 12 <= i < 25 ==> DateSynonyms[i] !in DebitSynonyms
  {
  }

  lemma DateHeadNotCredit()
    ensures forall i :: 0 <= i < 12 ==> DateSynonyms[i] !in CreditSynonyms
  {
  }

  lemma DateTailNotCredit()
    ensures forall i :: 12 <= i < 25 ==> DateSynonyms[i] !in CreditSynonyms
  {
  }

  lemma DateHeadNotBalance()
    ensures forall i :: 0 <= i < 12 ==> DateSynonyms[i] !in BalanceSynonyms
  {
  }

  lemma DateTailNotBalance()
    ensures forall i :: 12 <= i < 25 ==> DateSynonyms[i] !in BalanceSynonyms
  {
  }

  lemma DescriptionHeadNotDebit()
    ensures forall i :: 0 <= i < 12 ==> DescriptionSynonyms[i] !in DebitSynonyms
  {
  }

  lemma DescriptionTailNotDebit()
    ensures forall i :: 12 <= i < 24 ==> DescriptionSynonyms[i] !in DebitSynonyms
  {
  }

  lemma DescriptionHeadNotCredit()
    ensures forall i :: 0 <= i < 12 ==> DescriptionSynonyms[i] !in CreditSynonyms
  {
  }

  lemma DescriptionTailNotCredit()
    ensures forall i :: 12 <= i < 24 ==> DescriptionSynonyms[i] !in CreditSynonyms
  {
  }

  lemma DescriptionHeadNotBalance()
    ensures forall i :: 0 <= i < 12 ==> DescriptionSynonyms[i] !in BalanceSynonyms
  {
  }

  lemma DescriptionTailNotBalance()
    ensures forall i :: 12 <= i < 24 ==> DescriptionSynonyms[i] !in BalanceSynonyms
  {
  }

  lemma DebitHeadNotCredit()
    ensures forall i :: 0 <= i < 11 ==> DebitSynonyms[i] !in CreditSynonyms
  {
  }

  lemma DebitTailNotCredit()
    ensures forall i :: 11 <= i < 23 ==> DebitSynonyms[i] !in CreditSynonyms
  {
  }

  lemma DebitHeadNotBalance()
    ensures forall i :: 0 <= i < 11 ==> DebitSynonyms[i] !in BalanceSynonyms
  {
  }

  lemma DebitTailNotBalance()
    ensures forall i :: 11 <= i < 23 ==> DebitSynonyms[i] !in BalanceSynonyms
  {
  }

  lemma CreditHeadNotBalance()
    ensures forall i :: 0 <= i < 11 ==> CreditSynonyms[i] !in BalanceSynonyms
  {
  }

  lemma CreditTailNotBalance()
    ensures forall i :: 11 <= i < 23 ==> CreditSynonyms[i] !in BalanceSynonyms
  {
  }

  lemma BankStatementNotCreditBureau()
    ensures forall i :: 0 <= i < 12 ==> BankStatementKeywords[i] !in CreditBureauKeywords
  {
  }

  lemma BankStatementNotKybKyc()
    ensures forall i :: 0 <= i < 12 ==> BankStatementKeywords[i] !in KybKycKeywords
  {
  }

  lemma CreditBureauNotKybKyc()
    ensures forall i :: 0 <= i < 13 ==> CreditBureauKeywords[i] !in KybKycKeywords
  {
  }
}
