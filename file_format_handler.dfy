/** The upload dispatcher: the file name's suffix picks the processor that extracts the
    document. The processors themselves (PDF text extraction, spreadsheet reading, image
    inspection) are not part of this model; the dispatch decision is. */
module FileFormatHandler {
  import opened Wrappers
  import opened Text

  datatype Processor = Pdf | Spreadsheet | Image

  const PdfSuffixes := [".pdf"]
  const SpreadsheetSuffixes := [".xls", ".xlsx"]
  const ImageSuffixes := [".png", ".jpg", ".jpeg", ".gif", ".bmp", ".tiff"]

  const UnsupportedFormat := "Unsupported file format"

  /** Python's `filename.endswith(suffixes)` with a tuple of suffixes. */
  predicate EndsWithAny(filename: string, suffixes: seq<string>) {
    exists k :: 0 <= k < |suffixes| && EndsWith(filename, suffixes[k])
  }

  /** The branch `process_file` takes for `filename`: a processor, or the error it returns. */
  function ProcessorFor(filename: string): (r: Result<Processor, string>)
    ensures r.Failure? ==> r.error == UnsupportedFormat
  {
    if EndsWith(filename, ".pdf") then Success(Pdf)
    else if EndsWithAny(filename, SpreadsheetSuffixes) then Success(Spreadsheet)
    else if EndsWithAny(filename, ImageSuffixes) then Success(Image)
    else Failure(UnsupportedFormat)
  }

  /** The suffix groups exclude each other, so the order of the tests does not matter: each
      processor is chosen exactly when the name ends with one of its own suffixes. */
  lemma ProcessorForSpec(filename: string)
    ensures ProcessorFor(filename) == Success(Pdf) <==> EndsWithAny(filename, PdfSuffixes)
    ensures ProcessorFor(filename) == Success(Spreadsheet) <==> EndsWithAny(filename, SpreadsheetSuffixes)
    ensures ProcessorFor(filename) == Success(Image) <==> EndsWithAny(filename, ImageSuffixes)
    ensures ProcessorFor(filename).Failure? <==>
      !EndsWithAny(filename, PdfSuffixes) && !EndsWithAny(filename, SpreadsheetSuffixes)
      && !EndsWithAny(filename, ImageSuffixes)
  {
    assert EndsWithAny(filename, PdfSuffixes) <==> EndsWith(filename, ".pdf") by {
      if EndsWith(filename, ".pdf") {
        assert EndsWith(filename, PdfSuffixes[0]);
      }
    }
    GroupsUnrelated();
    if EndsWithAny(filename, PdfSuffixes) {
      GroupsExclusive(filename, PdfSuffixes, SpreadsheetSuffixes);
      GroupsExclusive(filename, PdfSuffixes, ImageSuffixes);
    } else if EndsWithAny(filename, SpreadsheetSuffixes) {
      GroupsExclusive(filename, SpreadsheetSuffixes, ImageSuffixes);
    }
  }

  /** ".xlsx" is not caught by ".xls": "report.xlsx" goes to the spreadsheet processor by its
      own suffix. */
  lemma SpreadsheetByLongSuffix()
    ensures ProcessorFor("report.xlsx") == Success(Spreadsheet)
  {
    var name := "report.xlsx";
    assert !EndsWith(name, SpreadsheetSuffixes[0]) && EndsWith(name, SpreadsheetSuffixes[1]);
    ProcessorForSpec(name);
  }

  /** Of two suffixes of one name, the shorter is a suffix of the longer. */
  lemma SuffixOfSuffix(filename: string, a: string, b: string)
    ensures EndsWith(filename, a) && EndsWith(filename, b) && |a| <= |b| ==> EndsWith(b, a)
  {
    if EndsWith(filename, a) && EndsWith(filename, b) && |a| <= |b| {
      assert b[|b| - |a|..] == filename[|filename| - |a|..];
    }
  }

  /** No suffix of one group is a suffix of a suffix in the other. */
  predicate Unrelated(g: seq<string>, h: seq<string>) {
    forall i, j :: 0 <= i < |g| && 0 <= j < |h| ==> !EndsWith(g[i], h[j]) && !EndsWith(h[j], g[i])
  }

  /** Two unrelated groups never both match a name. */
  lemma GroupsExclusive(filename: string, g: seq<string>, h: seq<string>)
    requires Unrelated(g, h)
    ensures !(EndsWithAny(filename, g) && EndsWithAny(filename, h))
  {
    forall i, j | 0 <= i < |g| && 0 <= j < |h|
      ensures !(EndsWith(filename, g[i]) && EndsWith(filename, h[j]))
    {
      SuffixOfSuffix(filename, g[i], h[j]);
      SuffixOfSuffix(filename, h[j], g[i]);
    }
  }

  /** Every suffix of the three groups ends in a lower-case letter. */
  predicate EndsInSmallLetter(suffixes: seq<string>) {
    forall k :: 0 <= k < |suffixes| ==> |suffixes[k]| > 0 && 'a' <= suffixes[k][|suffixes[k]| - 1] <= 'z'
  }

  /** Matching is case-sensitive: a name whose last character is an upper-case letter, such as
      "REPORT.PDF", is refused. */
  lemma UpperCaseExtensionUnsupported(filename: string)
    requires filename != [] && 'A' <= filename[|filename| - 1] <= 'Z'
    ensures ProcessorFor(filename) == Failure(UnsupportedFormat)
  {
    SuffixesEndInSmallLetters();
    NoSmallLetterSuffix(filename, PdfSuffixes);
    NoSmallLetterSuffix(filename, SpreadsheetSuffixes);
    NoSmallLetterSuffix(filename, ImageSuffixes);
    assert !EndsWith(filename, PdfSuffixes[0]);
  }

  lemma NoSmallLetterSuffix(filename: string, suffixes: seq<string>)
    requires filename != [] && 'A' <= filename[|filename| - 1] <= 'Z'
    requires EndsInSmallLetter(suffixes)
    ensures !EndsWithAny(filename, suffixes)
  {
    forall k | 0 <= k < |suffixes|
      ensures !EndsWith(filename, suffixes[k])
    {
      var s := suffixes[k];
      if |s| <= |filename| {
        assert filename[|filename| - |s|..][|s| - 1] == filename[|filename| - 1];
      }
    }
  }

  lemma SuffixesEndInSmallLetters()
    ensures EndsInSmallLetter(PdfSuffixes)
    ensures EndsInSmallLetter(SpreadsheetSuffixes)
    ensures EndsInSmallLetter(ImageSuffixes)
  {
  }

  /** No suffix of one group ends with a suffix of another. */
  lemma GroupsUnrelated()
    ensures Unrelated(PdfSuffixes, SpreadsheetSuffixes)
    ensures Unrelated(PdfSuffixes, ImageSuffixes)
    ensures Unrelated(SpreadsheetSuffixes, ImageSuffixes)
  {
    PdfSpreadsheetUnrelated();
    PdfImageUnrelated();
    SpreadsheetImageUnrelated();
  }

  lemma PdfSpreadsheetUnrelated()
    ensures Unrelated(PdfSuffixes, SpreadsheetSuffixes)
  {
  }

  lemma PdfImageUnrelated()
    ensures Unrelated(PdfSuffixes, ImageSuffixes)
  {
    assert forall j :: 0 <= j < |ImageSuffixes| ==>
      |ImageSuffixes[j]| >= 2 && ImageSuffixes[j][|ImageSuffixes[j]| - 2] in "npeifm";
    forall j | 0 <= j < |ImageSuffixes|
      ensures !EndsWith(PdfSuffixes[0], ImageSuffixes[j])
      ensures !EndsWith(ImageSuffixes[j], PdfSuffixes[0])
    {
      DifferentFromEnd(PdfSuffixes[0], ImageSuffixes[j], 2);
    }
  }

  lemma SpreadsheetImageUnrelated()
    ensures Unrelated(SpreadsheetSuffixes, ImageSuffixes)
  {
    assert forall i :: 0 <= i < |SpreadsheetSuffixes| ==>
      |SpreadsheetSuffixes[i]| >= 1 && SpreadsheetSuffixes[i][|SpreadsheetSuffixes[i]| - 1] in "sx";
    assert forall j :: 0 <= j < |ImageSuffixes| ==>
      |ImageSuffixes[j]| >= 1 && ImageSuffixes[j][|ImageSuffixes[j]| - 1] in "gfp";
    forall i, j | 0 <= i < |SpreadsheetSuffixes| && 0 <= j < |ImageSuffixes|
      ensures !EndsWith(SpreadsheetSuffixes[i], ImageSuffixes[j])
      ensures !EndsWith(ImageSuffixes[j], SpreadsheetSuffixes[i])
    {
      DifferentFromEnd(SpreadsheetSuffixes[i], ImageSuffixes[j], 1);
    }
  }

  /** Strings whose `k`-th characters from the end differ are not suffixes of each other. */
  lemma DifferentFromEnd(a: string, b: string, k: nat)
    requires 1 <= k <= |a| && k <= |b| && a[|a| - k] != b[|b| - k]
    ensures !EndsWith(a, b) && !EndsWith(b, a)
  {
    if |b| <= |a| {
      assert a[|a| - |b|..][|b| - k] == a[|a| - k];
    }
    if |a| <= |b| {
      assert b[|b| - |a|..][|a| - k] == b[|b| - k];
    }
  }
}
