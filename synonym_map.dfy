/** The canonical vocabulary and the reverse map from normalised synonyms to canonical fields.

    Every synonym goes through the header normaliser before it becomes a key; the normaliser
    is a parameter here, so that the map's properties hold whatever it does, and the header
    matcher passes `HeaderStandardization.Normalize`. */
module SynonymMap {

  /** Canonical field names with their synonym lists, in dictionary order. */
  type Vocabulary = seq<(string, seq<string>)>

  /** Every synonym of a list, normalised, in list order. */
  function NormalizeAll(synonyms: seq<string>, norm: string -> string): (r: seq<string>)
    ensures |r| == |synonyms|
    ensures forall i :: 0 <= i < |r| ==> r[i] == norm(synonyms[i])
  {
    if synonyms == [] then []
    else NormalizeAll(synonyms[..|synonyms| - 1], norm) + [norm(synonyms[|synonyms| - 1])]
  }

  /** The entries one field contributes to the reverse map. */
  function EntryMap(field: string, synonyms: seq<string>, norm: string -> string): (m: map<string, string>)
    ensures forall k :: k in m <==> k in NormalizeAll(synonyms, norm)
    ensures forall k :: k in m ==> m[k] == field
  {
    if synonyms == [] then map[]
    else EntryMap(field, synonyms[..|synonyms| - 1], norm)[norm(synonyms[|synonyms| - 1]) := field]
  }

  /** The map `_build_canonical_to_synonyms_map` produces: every normalised synonym points at
      a field listing it; a later field overwrites an earlier one. */
  function ReverseMap(fields: Vocabulary, norm: string -> string): map<string, string>
  {
    if fields == [] then map[]
    else
      var n := |fields| - 1;
      ReverseMap(fields[..n], norm) + EntryMap(fields[n].0, fields[n].1, norm)
  }

  /** The flat list of normalised synonyms that `fuzzy_match_header` matches against. */
  function AllSynonyms(fields: Vocabulary, norm: string -> string): (r: seq<string>)
    ensures forall s :: s in r <==> exists i :: 0 <= i < |fields| && s in NormalizeAll(fields[i].1, norm)
  {
    if fields == [] then []
    else
      var n := |fields| - 1;
      var r := AllSynonyms(fields[..n], norm) + NormalizeAll(fields[n].1, norm);
      assert forall i :: 0 <= i < n ==> fields[..n][i] == fields[i];
      r
  }

  /** A string is a key of the reverse map exactly when some field lists a synonym that
      normalises to it. */
  lemma {:induction false} ReverseMapKeys(fields: Vocabulary, norm: string -> string, k: string)
    ensures k in ReverseMap(fields, norm) <==>
              exists i :: 0 <= i < |fields| && k in NormalizeAll(fields[i].1, norm)
    decreases |fields|
  {
    if fields != [] {
      var n := |fields| - 1;
      var init := fields[..n];
      ReverseMapKeys(init, norm, k);
      assert forall i :: 0 <= i < n ==> init[i] == fields[i];
      ReverseMapStep(fields, norm, k);
    }
  }

  /** The last field decides a key it lists; any other key is looked up in the earlier
      fields. */
  lemma ReverseMapStep(fields: Vocabulary, norm: string -> string, k: string)
    requires fields != []
    ensures var n := |fields| - 1;
      && (k in NormalizeAll(fields[n].1, norm) ==>
            k in ReverseMap(fields, norm) && ReverseMap(fields, norm)[k] == fields[n].0)
      && (k !in NormalizeAll(fields[n].1, norm) ==>
            && (k in ReverseMap(fields, norm) <==> k in ReverseMap(fields[..n], norm))
            && (k in ReverseMap(fields, norm) ==> ReverseMap(fields, norm)[k] == ReverseMap(fields[..n], norm)[k]))
  {
    var n := |fields| - 1;
    var last := EntryMap(fields[n].0, fields[n].1, norm);
    assert ReverseMap(fields, norm) == ReverseMap(fields[..n], norm) + last;
  }

  /** Field `i` lists `k`, and no later field does. */
  ghost predicate LastLister(fields: Vocabulary, norm: string -> string, k: string, i: int) {
    && 0 <= i < |fields| && k in NormalizeAll(fields[i].1, norm)
    && forall j :: i < j < |fields| ==> k !in NormalizeAll(fields[j].1, norm)
  }

  /** The value of a key is the LAST field whose synonyms normalise to it. */
  lemma {:induction false} ReverseMapLastWins(fields: Vocabulary, norm: string -> string, k: string)
    requires k in ReverseMap(fields, norm)
    ensures exists i :: LastLister(fields, norm, k, i) && ReverseMap(fields, norm)[k] == fields[i].0
    decreases |fields|
  {
    var n := |fields| - 1;
    ReverseMapStep(fields, norm, k);
    if k in NormalizeAll(fields[n].1, norm) {
      assert LastLister(fields, norm, k, n);
    } else {
      var init := fields[..n];
      ReverseMapLastWins(init, norm, k);
      var i :| LastLister(init, norm, k, i) && ReverseMap(init, norm)[k] == init[i].0;
      ExtendLastLister(fields, norm, k, i);
    }
  }

  /** A last lister among the earlier fields stays the last lister when the final field does
      not list the key. */
  lemma ExtendLastLister(fields: Vocabulary, norm: string -> string, k: string, i: int)
    requires fields != [] && LastLister(fields[..|fields| - 1], norm, k, i)
    requires k !in NormalizeAll(fields[|fields| - 1].1, norm)
    ensures LastLister(fields, norm, k, i) && fields[..|fields| - 1][i] == fields[i]
  {
  }

  /** When exactly one field lists a synonym, the reverse map sends it to that field. */
  lemma UnambiguousSynonym(fields: Vocabulary, norm: string -> string, i: nat, k: string)
    requires i < |fields| && k in NormalizeAll(fields[i].1, norm)
    requires forall j :: 0 <= j < |fields| && j != i ==> k !in NormalizeAll(fields[j].1, norm)
    ensures k in ReverseMap(fields, norm) && ReverseMap(fields, norm)[k] == fields[i].0
  {
    ReverseMapKeys(fields, norm, k);
    ReverseMapLastWins(fields, norm, k);
  }

  /** The synonyms matched against are exactly the keys of the reverse map, so a matched
      synonym always maps back to a field. */
  lemma SynonymsAreKeys(fields: Vocabulary, norm: string -> string, s: string)
    ensures s in AllSynonyms(fields, norm) <==> s in ReverseMap(fields, norm)
  {
    ReverseMapKeys(fields, norm, s);
  }

  /** `_build_canonical_to_synonyms_map`: fills the dictionary field by field, synonym by
      synonym. */
  method BuildSynonymMap(fields: Vocabulary, norm: string -> string) returns (m: map<string, string>)
    ensures m == ReverseMap(fields, norm)
  {
    m := map[];
    for i := 0 to |fields|
      invariant m == ReverseMap(fields[..i], norm)
    {
      var (field, synonyms) := fields[i];
      ghost var before := m;
      for j := 0 to |synonyms|
        invariant m == before + EntryMap(field, synonyms[..j], norm)
      {
        assert synonyms[..j + 1][..j] == synonyms[..j];
        var entries := EntryMap(field, synonyms[..j], norm);
        assert EntryMap(field, synonyms[..j + 1], norm) == entries[norm(synonyms[j]) := field];
        UnionUpdate(before, entries, norm(synonyms[j]), field);
        m := m[norm(synonyms[j]) := field];
      }
      assert synonyms[..|synonyms|] == synonyms;
      assert fields[..i + 1][..i] == fields[..i];
      assert ReverseMap(fields[..i + 1], norm) == ReverseMap(fields[..i], norm) + EntryMap(field, synonyms, norm);
    }
    assert fields[..|fields|] == fields;
  }

  lemma UnionUpdate(a: map<string, string>, b: map<string, string>, k: string, v: string)
    ensures a + b[k := v] == (a + b)[k := v]
  {
  }
}
