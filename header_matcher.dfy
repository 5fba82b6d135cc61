/** The header standardiser: a raw column header is normalised, compared with every
    normalised synonym of the vocabulary by a similarity scorer, and the best synonym, when it
    scores at least the threshold, is mapped back to its canonical field.

    The scorer (`fuzz.token_set_ratio`) is a parameter bounded to 0..100; `extractOne` is
    modelled as "the first best-scoring choice in list order, if it reaches the cutoff". */
module HeaderMatcher {
  import opened Wrappers
  import opened HeaderStandardization
  import opened SynonymMap

  /** A similarity score as the scorer reports it. */
  type Score = r: real | 0.0 <= r <= 100.0 witness 0.0

  /** `fuzz.token_set_ratio(query, choice)`. */
  type Scorer = (string, string) -> Score

  /** The threshold `HeaderStandardizationService` uses when none is given. */
  const DefaultThreshold := 80

  /** The index of the first best-scoring choice. */
  function BestIndex(query: string, choices: seq<string>, scorer: Scorer): (k: nat)
    requires choices != []
    ensures k < |choices|
    ensures forall j :: 0 <= j < |choices| ==> scorer(query, choices[j]) <= scorer(query, choices[k])
    ensures forall j :: 0 <= j < k ==> scorer(query, choices[j]) < scorer(query, choices[k])
  {
    if |choices| == 1 then 0
    else
      var n := |choices| - 1;
      var k := BestIndex(query, choices[..n], scorer);
      assert choices[..n][k] == choices[k];
      assert forall j :: 0 <= j < n ==> choices[..n][j] == choices[j];
      if scorer(query, choices[k]) < scorer(query, choices[n]) then n else k
  }

  /** `process.extractOne(query, choices, scorer=scorer, score_cutoff=cutoff)`: the first
      best-scoring choice with its score and index, provided that score reaches the cutoff. */
  function ExtractOne(query: string, choices: seq<string>, scorer: Scorer, cutoff: int)
    : (r: Option<(string, Score, nat)>)
    ensures r.None? <==> forall j :: 0 <= j < |choices| ==> scorer(query, choices[j]) < cutoff as real
    ensures r.Some? ==>
      var (choice, score, k) := r.value;
      && k < |choices| && choice == choices[k] && score == scorer(query, choice)
      && score >= cutoff as real
      && (forall j :: 0 <= j < |choices| ==> scorer(query, choices[j]) <= score)
      && (forall j :: 0 <= j < k ==> scorer(query, choices[j]) < score)
  {
    if choices == [] then None
    else
      var k := BestIndex(query, choices, scorer);
      var score := scorer(query, choices[k]);
      if score >= cutoff as real then Some((choices[k], score, k)) else None
  }

  /** What `fuzzy_match_header` returns for an already normalised query, with synonyms
      normalised by `norm`. */
  function Match(fields: Vocabulary, norm: string -> string, threshold: int, scorer: Scorer, query: string)
    : Option<string>
  {
    var synonyms := AllSynonyms(fields, norm);
    if synonyms == [] then None
    else
      match ExtractOne(query, synonyms, scorer, threshold)
      case None => None
      case Some((matched, _, _)) =>
        var m := ReverseMap(fields, norm);
        if matched in m then Some(m[matched]) else None
  }

  /** Python truthiness of the optional field name `map_headers_to_canonical` tests. */
  predicate Truthy(r: Option<string>) {
    r.Some? && r.value != ""
  }

  /** With no synonym at all there is nothing to match. */
  lemma MatchWithoutSynonyms(fields: Vocabulary, norm: string -> string, threshold: int, scorer: Scorer, query: string)
    requires forall i :: 0 <= i < |fields| ==> fields[i].1 == []
    ensures Match(fields, norm, threshold, scorer, query) == None
  {
    EmptyListsNoSynonyms(fields, norm);
  }

  lemma {:induction false} EmptyListsNoSynonyms(fields: Vocabulary, norm: string -> string)
    requires forall i :: 0 <= i < |fields| ==> fields[i].1 == []
    ensures AllSynonyms(fields, norm) == []
    decreases |fields|
  {
    if fields != [] {
      var n := |fields| - 1;
      assert forall i :: 0 <= i < n ==> fields[..n][i] == fields[i];
      EmptyListsNoSynonyms(fields[..n], norm);
    }
  }

  /** A field is found exactly when some synonym scores at least the threshold; the field is
      then the one the reverse map gives for the first best-scoring synonym in the order of
      `AllSynonyms`. */
  lemma MatchSpec(fields: Vocabulary, norm: string -> string, threshold: int, scorer: Scorer, query: string)
    ensures var synonyms := AllSynonyms(fields, norm);
      && (Match(fields, norm, threshold, scorer, query).Some? <==>
            exists j :: 0 <= j < |synonyms| && scorer(query, synonyms[j]) >= threshold as real)
      && (Match(fields, norm, threshold, scorer, query).Some? ==>
            exists j :: BestAbove(synonyms, query, scorer, threshold, j)
              && synonyms[j] in ReverseMap(fields, norm)
              && Match(fields, norm, threshold, scorer, query).value == ReverseMap(fields, norm)[synonyms[j]])
  {
    var synonyms := AllSynonyms(fields, norm);
    var r := Match(fields, norm, threshold, scorer, query);
    if synonyms != [] {
      var e := ExtractOne(query, synonyms, scorer, threshold);
      if e.Some? {
        var (matched, _, k) := e.value;
        SynonymsAreKeys(fields, norm, matched);
        assert BestAbove(synonyms, query, scorer, threshold, k);
      }
    }
  }

  /** Synonym `j` is the first synonym scoring highest of all, and scores at least the
      threshold. */
  ghost predicate BestAbove(synonyms: seq<string>, query: string, scorer: Scorer, threshold: int, j: int) {
    && 0 <= j < |synonyms| && scorer(query, synonyms[j]) >= threshold as real
    && (forall i :: 0 <= i < |synonyms| ==> scorer(query, synonyms[i]) <= scorer(query, synonyms[j]))
    && (forall i :: 0 <= i < j ==> scorer(query, synonyms[i]) < scorer(query, synonyms[j]))
  }

  /** A match is always a canonical field name, namely the last field listing the matched
      synonym. */
  lemma MatchIsField(fields: Vocabulary, norm: string -> string, threshold: int, scorer: Scorer, query: string)
    requires Match(fields, norm, threshold, scorer, query).Some?
    ensures exists i :: 0 <= i < |fields| && Match(fields, norm, threshold, scorer, query).value == fields[i].0
  {
    var synonyms := AllSynonyms(fields, norm);
    var matched := ExtractOne(query, synonyms, scorer, threshold).value.0;
    ReverseMapLastWins(fields, norm, matched);
  }

  /** The `extend` loop of `fuzzy_match_header`: the normalised synonyms of every field, field
      by field. */
  method GatherSynonyms(fields: Vocabulary, norm: string -> string) returns (allSynonyms: seq<string>)
    ensures allSynonyms == AllSynonyms(fields, norm)
  {
    allSynonyms := [];
    for i := 0 to |fields|
      invariant allSynonyms == AllSynonyms(fields[..i], norm)
    {
      assert fields[..i + 1][..i] == fields[..i];
      allSynonyms := allSynonyms + NormalizeAll(fields[i].1, norm);
    }
    assert fields[..|fields|] == fields;
  }

  /** `HeaderStandardizationService`: the vocabulary, the threshold and the reverse synonym
      map are set once, at construction. */
  class HeaderStandardizer {
    const canonicalFields: Vocabulary
    const threshold: int
    const synonymMap: map<string, string>

    ghost predicate Valid() {
      synonymMap == ReverseMap(canonicalFields, Normalize)
    }

    /** What `fuzzy_match_header(rawHeader)` returns. */
    function MatchFor(rawHeader: string, scorer: Scorer): Option<string> {
      Match(canonicalFields, Normalize, threshold, scorer, Normalize(rawHeader))
    }

    constructor(canonicalFields: Vocabulary, threshold: int := DefaultThreshold)
      ensures this.canonicalFields == canonicalFields && this.threshold == threshold
      ensures Valid()
    {
      this.canonicalFields := canonicalFields;
      this.threshold := threshold;
      var m := BuildSynonymMap(canonicalFields, Normalize);
      synonymMap := m;
    }

    /** `fuzzy_match_header`: gathers the normalised synonyms, asks for the best one above the
        threshold and maps it back to its field. */
    method FuzzyMatchHeader(rawHeader: string, scorer: Scorer) returns (bestMatch: Option<string>)
      requires Valid()
      ensures bestMatch == MatchFor(rawHeader, scorer)
    {
      var normalizedRawHeader := Normalize(rawHeader);
      bestMatch := None;
      var highestScore: real := -1.0;
      var allSynonyms := GatherSynonyms(canonicalFields, Normalize);
      if allSynonyms == [] {
        return None;
      }
      var matchResult := ExtractOne(normalizedRawHeader, allSynonyms, scorer, threshold);
      if matchResult.Some? {
        var (matchedSynonym, score, _) := matchResult.value;
        if score >= highestScore {
          highestScore := score;
          bestMatch := if matchedSynonym in synonymMap then Some(synonymMap[matchedSynonym]) else None;
        }
      }
    }

    /** `map_headers_to_canonical`: every raw header whose match is a non-empty field name is
        mapped to that field; the others are dropped. */
    method MapHeadersToCanonical(rawHeaders: seq<string>, scorer: Scorer) returns (mapped: map<string, string>)
      requires Valid()
      ensures forall h :: h in mapped <==> h in rawHeaders && Truthy(MatchFor(h, scorer))
      ensures forall h :: h in mapped ==> MatchFor(h, scorer) == Some(mapped[h])
    {
      mapped := map[];
      for i := 0 to |rawHeaders|
        invariant forall h :: h in mapped <==> h in rawHeaders[..i] && Truthy(MatchFor(h, scorer))
        invariant forall h :: h in mapped ==> MatchFor(h, scorer) == Some(mapped[h])
      {
        assert rawHeaders[..i + 1] == rawHeaders[..i] + [rawHeaders[i]];
        var canonicalField := FuzzyMatchHeader(rawHeaders[i], scorer);
        if canonicalField.Some? && canonicalField.value != "" {
          mapped := mapped[rawHeaders[i] := canonicalField.value];
        }
      }
      assert rawHeaders[..|rawHeaders|] == rawHeaders;
    }
  }

  /** Every value of the header mapping is a canonical field name. */
  lemma MappedValuesAreFields(s: HeaderStandardizer, scorer: Scorer, h: string, mapped: map<string, string>)
    requires h in mapped && s.MatchFor(h, scorer) == Some(mapped[h])
    ensures exists i :: 0 <= i < |s.canonicalFields| && mapped[h] == s.canonicalFields[i].0
  {
    MatchIsField(s.canonicalFields, Normalize, s.threshold, scorer, Normalize(h));
  }
}
