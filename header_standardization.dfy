/** Header normalisation: the cleaning every raw column header and every synonym goes through
    before they are compared. */
module HeaderStandardization {
  import opened Wrappers
  import opened Text

  // ---------------------------------------------------------------------------------------
  // Normalisation: strip, lowercase, drop every character that is neither a word character
  // nor whitespace, collapse whitespace runs to one space, strip again.

  /** `s.lstrip()` */
  function StripLeft(s: string): (r: string)
    ensures |r| <= |s| && r == s[|s| - |r|..]
    ensures r == [] || !IsSpace(r[0])
    ensures forall i :: 0 <= i < |s| - |r| ==> IsSpace(s[i])
  {
    if s != [] && IsSpace(s[0]) then StripLeft(s[1..]) else s
  }

  /** `s.rstrip()` */
  function StripRight(s: string): (r: string)
    ensures |r| <= |s| && r == s[..|r|]
    ensures r == [] || !IsSpace(r[|r| - 1])
    ensures forall i :: |r| <= i < |s| ==> IsSpace(s[i])
  {
    if s != [] && IsSpace(s[|s| - 1]) then StripRight(s[..|s| - 1]) else s
  }

  /** `s.strip()` */
  function Strip(s: string): (r: string)
    ensures r == [] || (!IsSpace(r[0]) && !IsSpace(r[|r| - 1]))
  {
    StripRight(StripLeft(s))
  }

  /** Every character is a word character or whitespace. */
  predicate WordOrSpace(s: string) {
    forall i :: 0 <= i < |s| ==> IsWordChar(s[i]) || IsSpace(s[i])
  }

  /** Every character is a word character or the plain space. */
  predicate WordOrBlank(s: string) {
    forall i :: 0 <= i < |s| ==> IsWordChar(s[i]) || s[i] == ' '
  }

  /** Lower-casing leaves every character as it is. */
  predicate LowerFixed(s: string) {
    forall i :: 0 <= i < |s| ==> Lower(s[i]) == s[i]
  }

  /** No two spaces in a row. */
  predicate SingleSpaced(s: string) {
    forall i :: 0 <= i < |s| - 1 ==> !(s[i] == ' ' && s[i + 1] == ' ')
  }

  /** `re.sub(r'[^\w\s]', '', s)`: keeps exactly the word characters and the whitespace, in
      order. */
  function RemoveNoise(s: string): string {
    if s == [] then [] else Kept(s[0]) + RemoveNoise(s[1..])
  }

  /** What survives `RemoveNoise` is word characters and whitespace; lower-case input stays
      lower-case, and a string with nothing to remove is returned as it is. */
  lemma RemoveNoiseSpec(s: string)
    ensures WordOrSpace(RemoveNoise(s))
    ensures LowerFixed(s) ==> LowerFixed(RemoveNoise(s))
    ensures WordOrSpace(s) ==> RemoveNoise(s) == s
  {
    RemoveNoiseClean(s);
    if LowerFixed(s) {
      RemoveNoiseLower(s);
    }
    if WordOrSpace(s) {
      RemoveNoiseKeepsClean(s);
    }
  }

  lemma {:induction false} RemoveNoiseClean(s: string)
    ensures WordOrSpace(RemoveNoise(s))
    decreases |s|
  {
    if s != [] {
      RemoveNoiseClean(s[1..]);
      KeptThenClean(s[0], RemoveNoise(s[1..]));
    }
  }

  lemma {:induction false} RemoveNoiseLower(s: string)
    requires LowerFixed(s)
    ensures LowerFixed(RemoveNoise(s))
    decreases |s|
  {
    if s != [] {
      SliceKeepsClasses(s, 1, |s|);
      RemoveNoiseLower(s[1..]);
      KeptThenClean(s[0], RemoveNoise(s[1..]));
    }
  }

  lemma {:induction false} RemoveNoiseKeepsClean(s: string)
    requires WordOrSpace(s)
    ensures RemoveNoise(s) == s
    decreases |s|
  {
    if s != [] {
      SliceKeepsClasses(s, 1, |s|);
      RemoveNoiseKeepsClean(s[1..]);
      assert Kept(s[0]) == [s[0]];
      assert [s[0]] + s[1..] == s;
    }
  }

  /** Prefixing what `Kept` leaves of a character keeps the class properties. */
  lemma KeptThenClean(c: char, rest: string)
    ensures WordOrSpace(rest) ==> WordOrSpace(Kept(c) + rest)
    ensures LowerFixed(rest) && Lower(c) == c ==> LowerFixed(Kept(c) + rest)
  {
    var r := Kept(c) + rest;
    if Kept(c) == [] {
      assert r == rest;
    } else {
      assert forall i :: 1 <= i < |r| ==> r[i] == rest[i - 1];
    }
  }

  /** The one-character contribution of `c` to `RemoveNoise`. */
  function Kept(c: char): (r: string)
    ensures r == [c] || r == []
    ensures r == [c] <==> IsWordChar(c) || IsSpace(c)
  {
    if IsWordChar(c) || IsSpace(c) then [c] else []
  }

  /** `re.sub(r'\s+', ' ', s)`: every maximal run of whitespace becomes a single space, and
      every other character is kept. */
  function CollapseSpaces(s: string): (r: string)
    ensures SingleSpaced(r)
    ensures s != [] && !IsSpace(s[0]) ==> r != [] && r[0] == s[0]
    ensures s == [] <==> r == []
    decreases |s|
  {
    if s == [] then []
    else if IsSpace(s[0]) then [' '] + CollapseSpaces(StripLeft(s[1..]))
    else [s[0]] + CollapseSpaces(s[1..])
  }

  /** A normalised header: only word characters and single inner spaces, lower-case, with no
      space at either end. */
  predicate IsNormalized(s: string) {
    && WordOrBlank(s) && LowerFixed(s) && SingleSpaced(s)
    && (s != [] ==> s[0] != ' ' && s[|s| - 1] != ' ')
  }

  /** `_normalize_header` */
  function Normalize(header: string): (r: string)
    ensures IsNormalized(r)
  {
    var lowered := LowerStr(Strip(header));
    var cleaned := RemoveNoise(lowered);
    RemoveNoiseSpec(lowered);
    var collapsed := CollapseSpaces(cleaned);
    CollapseKeepsClasses(cleaned);
    StripKeepsClean(collapsed);
    Strip(collapsed)
  }

  // ---------------------------------------------------------------------------------------
  // What normalisation keeps: apart from whitespace, exactly the word characters, in order.

  /** The characters of `s` that are not whitespace, in order. */
  function NonSpace(s: string): string {
    if s == [] then [] else (if IsSpace(s[0]) then [] else [s[0]]) + NonSpace(s[1..])
  }

  /** The word characters of `s`, in order. */
  function WordChars(s: string): string {
    if s == [] then [] else (if IsWordChar(s[0]) then [s[0]] else []) + WordChars(s[1..])
  }

  /** Collapsing changes only whitespace: every other character stays, in order. */
  lemma {:induction false} CollapseKeepsNonSpace(s: string)
    ensures NonSpace(CollapseSpaces(s)) == NonSpace(s)
    decreases |s|
  {
    if s != [] && IsSpace(s[0]) {
      var k := CollapseLeadingRun(s);
      CollapseKeepsNonSpace(s[k..]);
      NonSpaceCons(' ', CollapseSpaces(s[k..]));
      SpacesThenRest(s, k);
    } else if s != [] {
      assert CollapseSpaces(s) == [s[0]] + CollapseSpaces(s[1..]);
      CollapseKeepsNonSpace(s[1..]);
      NonSpaceCons(s[0], CollapseSpaces(s[1..]));
    }
  }

  lemma NonSpaceCons(c: char, s: string)
    ensures NonSpace([c] + s) == (if IsSpace(c) then [] else [c]) + NonSpace(s)
  {
    assert ([c] + s)[1..] == s;
  }

  /** A leading run of whitespace contributes nothing. */
  lemma {:induction false} SpacesThenRest(s: string, k: nat)
    requires k <= |s| && forall i :: 0 <= i < k ==> IsSpace(s[i])
    ensures NonSpace(s[k..]) == NonSpace(s)
    decreases k
  {
    if k == 0 {
      assert s[k..] == s;
    } else {
      assert forall i :: 0 <= i < k - 1 ==> s[1..][i] == s[i + 1];
      SpacesThenRest(s[1..], k - 1);
      TailSlice(s, k - 1);
    }
  }

  lemma {:induction false} NonSpaceAppend(a: string, b: string)
    ensures NonSpace(a + b) == NonSpace(a) + NonSpace(b)
    decreases |a|
  {
    if a == [] {
      assert a + b == b;
    } else {
      var tail := a[1..];
      NonSpaceAppend(tail, b);
      SplitFirst(a, b);
      NonSpaceCons(a[0], tail + b);
      NonSpaceCons(a[0], tail);
      AppendAssoc(if IsSpace(a[0]) then [] else [a[0]], NonSpace(tail), NonSpace(b));
    }
  }

  /** Stripping removes whitespace only. */
  lemma StripKeepsNonSpace(s: string)
    ensures NonSpace(Strip(s)) == NonSpace(s)
  {
    StripLeftKeepsNonSpace(s);
    StripRightKeepsNonSpace(StripLeft(s));
  }

  lemma StripLeftKeepsNonSpace(s: string)
    ensures NonSpace(StripLeft(s)) == NonSpace(s)
  {
    SpacesThenRest(s, |s| - |StripLeft(s)|);
  }

  lemma StripRightKeepsNonSpace(s: string)
    ensures NonSpace(StripRight(s)) == NonSpace(s)
  {
    var right := StripRight(s);
    var tail := s[|right|..];
    assert s == right + tail;
    NonSpaceAppend(right, tail);
    assert forall i :: 0 <= i < |tail| ==> tail[i] == s[|right| + i];
    AllSpaces(tail);
  }

  /** A string of whitespace only has no other characters. */
  lemma AllSpaces(s: string)
    requires forall i :: 0 <= i < |s| ==> IsSpace(s[i])
    ensures NonSpace(s) == []
  {
    SpacesThenRest(s, |s|);
    assert s[|s|..] == [];
  }

  /** Noise removal followed by dropping whitespace leaves exactly the word characters. */
  lemma {:induction false} NoiseFreeNonSpace(s: string)
    ensures NonSpace(RemoveNoise(s)) == WordChars(s)
    decreases |s|
  {
    if s != [] {
      NoiseFreeNonSpace(s[1..]);
      NonSpaceAppend(Kept(s[0]), RemoveNoise(s[1..]));
      NonSpaceCons(s[0], []);
      assert [s[0]] + [] == [s[0]];
    }
  }

  /** Normalisation changes only whitespace: apart from spaces, a normalised header is exactly
      the word characters of the stripped, lower-cased header, in order. */
  lemma NormalizeKeepsWords(header: string)
    ensures NonSpace(Normalize(header)) == WordChars(LowerStr(Strip(header)))
  {
    var lowered := LowerStr(Strip(header));
    var collapsed := CollapseSpaces(RemoveNoise(lowered));
    StripKeepsNonSpace(collapsed);
    CollapseKeepsNonSpace(RemoveNoise(lowered));
    NoiseFreeNonSpace(lowered);
  }

  /** Collapsing turns whitespace into plain spaces and keeps every other character. */
  lemma CollapseKeepsClasses(s: string)
    ensures WordOrSpace(s) ==> WordOrBlank(CollapseSpaces(s))
    ensures LowerFixed(s) ==> LowerFixed(CollapseSpaces(s))
  {
    if WordOrSpace(s) {
      CollapseKeepsWords(s);
    }
    if LowerFixed(s) {
      CollapseKeepsLower(s);
    }
  }

  lemma {:induction false} CollapseKeepsWords(s: string)
    requires WordOrSpace(s)
    ensures WordOrBlank(CollapseSpaces(s))
    decreases |s|
  {
    if s != [] {
      var k := CollapseFirst(s);
      SliceKeepsClasses(s, k, |s|);
      CollapseKeepsWords(s[k..]);
      ConsKeepsClasses(if IsSpace(s[0]) then ' ' else s[0], CollapseSpaces(s[k..]));
    }
  }

  lemma {:induction false} CollapseKeepsLower(s: string)
    requires LowerFixed(s)
    ensures LowerFixed(CollapseSpaces(s))
    decreases |s|
  {
    if s != [] {
      var k := CollapseFirst(s);
      SliceKeepsClasses(s, k, |s|);
      CollapseKeepsLower(s[k..]);
      ConsKeepsClasses(if IsSpace(s[0]) then ' ' else s[0], CollapseSpaces(s[k..]));
    }
  }

  /** Prefixing a clean character keeps the class properties. */
  lemma ConsKeepsClasses(c: char, rest: string)
    ensures WordOrBlank(rest) && (IsWordChar(c) || c == ' ') ==> WordOrBlank([c] + rest)
    ensures LowerFixed(rest) && Lower(c) == c ==> LowerFixed([c] + rest)
  {
    assert forall i :: 1 <= i < |[c] + rest| ==> ([c] + rest)[i] == rest[i - 1];
  }

  /** Collapsing works run by run: where `a` and `b` do not meet inside a whitespace run,
      the collapse of `a + b` is the collapse of `a` followed by that of `b`. */
  lemma {:induction false} CollapseSpacesAppend(a: string, b: string)
    requires a == [] || b == [] || !IsSpace(a[|a| - 1]) || !IsSpace(b[0])
    ensures CollapseSpaces(a + b) == CollapseSpaces(a) + CollapseSpaces(b)
    decreases |a|
  {
    if a == [] {
      assert a + b == b;
    } else if b == [] {
      assert a + b == a;
    } else {
      var c, t := a[0], a[1..];
      SplitFirst(a, b);
      CollapseCons(c, t + b);
      CollapseCons(c, t);
      if !IsSpace(c) {
        assert t == [] || t[|t| - 1] == a[|a| - 1];
        CollapseSpacesAppend(t, b);
        AppendAssoc([c], CollapseSpaces(t), CollapseSpaces(b));
      } else {
        CollapseRunAppend(a, b);
        AppendAssoc([' '], CollapseSpaces(StripLeft(t)), CollapseSpaces(b));
      }
    }
  }

  /** The case of `CollapseSpacesAppend` where `a` starts with whitespace. */
  lemma {:induction false} CollapseRunAppend(a: string, b: string)
    requires a != [] && IsSpace(a[0]) && b != []
    requires !IsSpace(a[|a| - 1]) || !IsSpace(b[0])
    ensures CollapseSpaces(StripLeft(a[1..] + b)) == CollapseSpaces(StripLeft(a[1..])) + CollapseSpaces(b)
    decreases |a|, 0
  {
    var t := a[1..];
    var r := StripLeft(t);
    StripLeftAppend(t, b);
    if r != [] {
      StripLeftLast(t);
      assert t[|t| - 1] == a[|a| - 1];
      CollapseSpacesAppend(r, b);
    } else {
      assert IsSpace(a[|a| - 1]) by {
        if t != [] {
          StripLeftEmpty(t);
          assert t[|t| - 1] == a[|a| - 1];
        }
      }
      StripLeftKeeps(b);
      assert CollapseSpaces(r) == [];
    }
  }

  /** What `lstrip` leaves ends where the input ends. */
  lemma StripLeftLast(s: string)
    requires StripLeft(s) != []
    ensures StripLeft(s)[|StripLeft(s)| - 1] == s[|s| - 1]
  {
    var r := StripLeft(s);
    assert r == s[|s| - |r|..];
  }

  /** A string that `lstrip` empties ends in whitespace. */
  lemma StripLeftEmpty(s: string)
    requires s != [] && StripLeft(s) == []
    ensures IsSpace(s[|s| - 1])
  {
  }

  /** A string that does not start with whitespace is its own `lstrip`. */
  lemma StripLeftKeeps(s: string)
    requires s == [] || !IsSpace(s[0])
    ensures StripLeft(s) == s
  {
  }

  /** `CollapseSpaces` on a string given as its first character and the rest. */
  lemma CollapseCons(c: char, s: string)
    ensures CollapseSpaces([c] + s)
            == if IsSpace(c) then [' '] + CollapseSpaces(StripLeft(s)) else [c] + CollapseSpaces(s)
  {
    assert ([c] + s)[1..] == s;
  }

  /** Stripping the left of a concatenation: what is left of `a`, or, when nothing is, the
      stripped `b`. */
  lemma {:induction false} StripLeftAppend(a: string, b: string)
    ensures StripLeft(a + b) == if StripLeft(a) == [] then StripLeft(b) else StripLeft(a) + b
    decreases |a|
  {
    if a == [] {
      assert a + b == b;
    } else if IsSpace(a[0]) {
      assert (a + b)[1..] == a[1..] + b;
      StripLeftAppend(a[1..], b);
    }
  }

  /** A non-empty run of whitespace alone collapses to one space. */
  lemma CollapseAllSpace(s: string)
    requires s != [] && forall i :: 0 <= i < |s| ==> IsSpace(s[i])
    ensures CollapseSpaces(s) == " "
  {
  }

  /** One character: whitespace becomes a space, anything else is kept. */
  lemma CollapseSingle(c: char)
    ensures CollapseSpaces([c]) == if IsSpace(c) then " " else [c]
  {
    assert [c][1..] == [];
  }

  /** Two pieces of text separated by a run of whitespace keep exactly one space between
      them: the run is neither deleted nor lengthened. */
  lemma CollapseSeparatesWords(a: string, run: string, b: string)
    requires a != [] && !IsSpace(a[|a| - 1])
    requires run != [] && forall i :: 0 <= i < |run| ==> IsSpace(run[i])
    requires b != [] && !IsSpace(b[0])
    ensures CollapseSpaces(a + run + b) == CollapseSpaces(a) + " " + CollapseSpaces(b)
  {
    CollapseSpacesAppend(a, run);
    CollapseSpacesAppend(a + run, b);
    CollapseAllSpace(run);
  }

  /** The first step of `CollapseSpaces`: one character out, the rest of the string from
      position `k` on collapsed. */
  lemma CollapseFirst(s: string) returns (k: nat)
    requires s != []
    ensures 1 <= k <= |s|
    ensures CollapseSpaces(s) == [if IsSpace(s[0]) then ' ' else s[0]] + CollapseSpaces(s[k..])
  {
    if IsSpace(s[0]) {
      k := CollapseLeadingRun(s);
    } else {
      k := 1;
      assert CollapseSpaces(s) == [s[0]] + CollapseSpaces(s[1..]);
    }
  }

  /** A leading whitespace run `s[..k]` becomes one space. */
  lemma CollapseLeadingRun(s: string) returns (k: nat)
    requires s != [] && IsSpace(s[0])
    ensures 1 <= k <= |s|
    ensures forall i :: 0 <= i < k ==> IsSpace(s[i])
    ensures CollapseSpaces(s) == [' '] + CollapseSpaces(s[k..])
  {
    var t := s[1..];
    var rest := StripLeft(t);
    assert CollapseSpaces(s) == [' '] + CollapseSpaces(rest);
    k := |s| - |rest|;
    assert rest == t[|t| - |rest|..];
    TailSlice(s, k - 1);
    forall i | 1 <= i < k
      ensures IsSpace(s[i])
    {
      assert s[i] == t[i - 1];
    }
  }

  lemma TailSlice(s: string, j: nat)
    requires j < |s|
    ensures s[1..][j..] == s[1 + j..]
  {
  }

  /** A slice keeps every character-class property of the whole. */
  lemma SliceKeepsClasses(s: string, a: nat, b: nat)
    requires a <= b <= |s|
    ensures WordOrSpace(s) ==> WordOrSpace(s[a..b])
    ensures WordOrBlank(s) ==> WordOrBlank(s[a..b])
    ensures LowerFixed(s) ==> LowerFixed(s[a..b])
    ensures SingleSpaced(s) ==> SingleSpaced(s[a..b])
  {
    assert forall i :: 0 <= i < b - a ==> s[a..b][i] == s[a + i];
  }

  /** Stripping a string of clean characters without double spaces normalises it. */
  lemma StripKeepsClean(s: string)
    requires WordOrBlank(s) && LowerFixed(s) && SingleSpaced(s)
    ensures IsNormalized(Strip(s))
  {
    var left := StripLeft(s);
    SliceKeepsClasses(s, |s| - |left|, |s|);
    var r := StripRight(left);
    SliceKeepsClasses(left, 0, |r|);
  }

  /** A normalised header is left unchanged by normalisation. */
  lemma NormalizeFixesNormalized(n: string)
    requires IsNormalized(n)
    ensures Normalize(n) == n
  {
    assert Strip(n) == n by {
      if n != [] {
        WordIsNotSpace(n[0]);
        WordIsNotSpace(n[|n| - 1]);
      }
      assert StripLeft(n) == n;
      assert StripRight(n) == n;
    }
    assert LowerStr(n) == n;
    assert RemoveNoise(n) == n by {
      forall i | 0 <= i < |n| ensures IsWordChar(n[i]) || IsSpace(n[i]) {
        WordIsNotSpace(n[i]);
      }
      RemoveNoiseSpec(n);
    }
    CollapseFixesClean(n);
  }

  lemma {:induction false} CollapseFixesClean(s: string)
    requires WordOrBlank(s) && SingleSpaced(s)
    ensures CollapseSpaces(s) == s
    decreases |s|
  {
    if s != [] {
      var tail := s[1..];
      CollapseFixesClean(tail);
      if s[0] == ' ' {
        if tail != [] {
          assert tail[0] == s[1];
          WordIsNotSpace(tail[0]);
        }
        assert StripLeft(tail) == tail;
        assert CollapseSpaces(s) == [' '] + CollapseSpaces(tail);
      } else {
        WordIsNotSpace(s[0]);
        assert CollapseSpaces(s) == [s[0]] + CollapseSpaces(tail);
      }
    }
  }

  lemma WordIsNotSpace(c: char)
    requires IsWordChar(c) || c == ' '
    ensures IsSpace(c) <==> c == ' '
  {
  }

  /** Normalisation is idempotent. */
  lemma NormalizeIdempotent(header: string)
    ensures Normalize(Normalize(header)) == Normalize(header)
  {
    NormalizeFixesNormalized(Normalize(header));
  }

  /** Normalisation ignores case: lower-casing first changes nothing. */
  lemma NormalizeIgnoresCase(header: string)
    ensures Normalize(LowerStr(header)) == Normalize(header)
  {
    calc {
      Strip(LowerStr(header));
      { StripLeftLower(header); }
      StripRight(LowerStr(StripLeft(header)));
      { StripRightLower(StripLeft(header)); }
      LowerStr(Strip(header));
    }
    LowerStrIdempotent(Strip(header));
  }

  lemma {:induction false} StripLeftLower(s: string)
    ensures StripLeft(LowerStr(s)) == LowerStr(StripLeft(s))
    decreases |s|
  {
    if s != [] {
      assert LowerStr(s)[1..] == LowerStr(s[1..]);
      StripLeftLower(s[1..]);
    }
  }

  lemma {:induction false} StripRightLower(s: string)
    ensures StripRight(LowerStr(s)) == LowerStr(StripRight(s))
    decreases |s|
  {
    if s != [] {
      assert LowerStr(s)[..|s| - 1] == LowerStr(s[..|s| - 1]);
      StripRightLower(s[..|s| - 1]);
    }
  }

  /** Upper-case letters are folded: "Post Date" normalises to "post date". */
  lemma CaseIsFolded()
    ensures Normalize("Post Date") == "post date"
  {
    PostDateLowered();
    PostDateNormalized();
    NormalizeIgnoresCase("Post Date");
    NormalizeFixesNormalized("post date");
  }

  lemma PostDateLowered()
    ensures LowerStr("Post Date") == "post date"
  {
    assert Lower('P') == 'p' && Lower('D') == 'd';
    assert Lower('o') == 'o' && Lower('s') == 's' && Lower('t') == 't' && Lower(' ') == ' ';
    assert Lower('a') == 'a' && Lower('e') == 'e';
  }

  lemma PostDateNormalized()
    ensures IsNormalized("post date")
  {
    var n := "post date";
    forall i | 0 <= i < |n| ensures (IsWordChar(n[i]) || n[i] == ' ') && Lower(n[i]) == n[i] {
      assert n[i] in n;
    }
  }

  /** A hyphen between two words is deleted, not turned into a space: "post-date "
      normalises to "postdate", not to "post date". */
  lemma PunctuationIsDeleted(a: string, b: string)
    requires SmallLetters(a) && SmallLetters(b)
    ensures Normalize(a + "-" + b + " ") == a + b
  {
    var word := a + "-" + b;
    HyphenatedWord(a, b);
    StripTrailingSpace(word);
    HyphenDropped(a, b);
    var ab := a + b;
    SmallLettersAppend(a, b);
    SmallLettersAreClean(ab);
    CollapseFixesClean(ab);
    StripTrailingSpace(ab);
  }

  lemma HyphenatedWord(a: string, b: string)
    requires SmallLetters(a) && SmallLetters(b)
    ensures var word := a + "-" + b;
      && !IsSpace(word[0]) && !IsSpace(word[|word| - 1])
      && LowerStr(word) == word
  {
    var word := a + "-" + b;
    assert forall i :: 0 <= i < |word| ==> word[i] == '-' || 'a' <= word[i] <= 'z';
    LowerFixesSmallLetters(word);
  }

  lemma SmallLettersAppend(a: string, b: string)
    requires SmallLetters(a) && SmallLetters(b)
    ensures SmallLetters(a + b) && (a + b != [] ==> !IsSpace((a + b)[0]) && !IsSpace((a + b)[|a + b| - 1]))
  {
  }

  lemma StripTrailingSpace(word: string)
    requires word != [] ==> !IsSpace(word[0]) && !IsSpace(word[|word| - 1])
    ensures Strip(word + " ") == word && Strip(word) == word
  {
    var raw := word + " ";
    if word != [] {
      assert raw[0] == word[0];
      assert StripLeft(raw) == raw;
    }
    assert raw[..|raw| - 1] == word;
    assert StripLeft(word) == word;
    assert StripRight(word) == word;
  }

  lemma HyphenDropped(a: string, b: string)
    requires SmallLetters(a) && SmallLetters(b)
    ensures RemoveNoise(a + "-" + b) == a + b
  {
    SmallLettersAreClean(b);
    RemoveNoiseAppend(a + "-", b);
    WordThenHyphen(a);
  }

  lemma WordThenHyphen(a: string)
    requires SmallLetters(a)
    ensures RemoveNoise(a + "-") == a
  {
    SmallLettersAreClean(a);
    RemoveNoiseAppend(a, "-");
    HyphenIsNoise();
    assert a + [] == a;
  }

  lemma HyphenIsNoise()
    ensures RemoveNoise("-") == []
  {
    assert Kept('-') == [];
    assert "-"[1..] == [];
  }

  /** Only the letters a to z. */
  predicate SmallLetters(s: string) {
    forall i :: 0 <= i < |s| ==> 'a' <= s[i] <= 'z'
  }

  lemma SmallLettersAreClean(s: string)
    requires SmallLetters(s)
    ensures RemoveNoise(s) == s && WordOrBlank(s) && SingleSpaced(s)
  {
    assert WordOrSpace(s);
    RemoveNoiseSpec(s);
  }

  lemma LowerFixesSmallLetters(s: string)
    requires forall i :: 0 <= i < |s| ==> !('A' <= s[i] <= 'Z') && s[i] < '\U{C0}'
    ensures LowerStr(s) == s
  {
  }

  lemma {:induction false} RemoveNoiseAppend(a: string, b: string)
    ensures RemoveNoise(a + b) == RemoveNoise(a) + RemoveNoise(b)
    decreases |a|
  {
    if a == [] {
      assert a + b == b;
    } else {
      var head, tail := Kept(a[0]), a[1..];
      RemoveNoiseAppend(tail, b);
      RemoveNoiseCons(a[0], tail + b);
      RemoveNoiseCons(a[0], tail);
      SplitFirst(a, b);
      AppendAssoc(head, RemoveNoise(tail), RemoveNoise(b));
    }
  }

  lemma RemoveNoiseCons(c: char, s: string)
    ensures RemoveNoise([c] + s) == Kept(c) + RemoveNoise(s)
  {
    assert ([c] + s)[1..] == s;
  }

  lemma SplitFirst(a: string, b: string)
    requires a != []
    ensures [a[0]] + (a[1..] + b) == a + b && [a[0]] + a[1..] == a
  {
  }

  lemma AppendAssoc(x: string, y: string, z: string)
    ensures x + (y + z) == (x + y) + z
  {
  }
}
