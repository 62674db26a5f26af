/**
 * The loader of SEBI document chunks: each line of a JSON-lines file is a
 * chunk record; chunks below a word count or without text are dropped, and
 * each kept chunk becomes a document whose metadata records its source
 * path, document type and year.
 */
module SebiDocuments {
  import opened Wrappers
  import opened Text
  import opened Collections

  // ------------------------------------------------------------------
  // Chunk records and documents
  // ------------------------------------------------------------------

  /** The fields of a chunk record the loader reads; `None` is a missing field. */
  datatype Chunk = Chunk(
    text: Option<string>,           // chunk_text
    wordCount: Option<int>,         // chunk_word_count
    charCount: Option<int>,         // chunk_char_count
    pdfPath: Option<string>,        // original_pdf_path
    chunkId: Option<string>,        // chunk_id
    chunkIndex: Option<int>,        // chunk_index
    qualityScore: Option<real>,     // processing_metadata.original_quality_score
    fileSize: Option<int>)          // original_file_size_bytes

  /**
   * One line of the input file: not JSON at all; JSON that is counted as a
   * chunk but on which processing then raises, so that it is neither
   * filtered nor kept (not an object, a word count that is not a number, or
   * a field of the wrong type such as a non-string `chunk_text`, a null
   * `original_pdf_path` or a `processing_metadata` that is not an object);
   * or a chunk record whose fields are each absent or of the expected type.
   */
  datatype Line = Undecodable | Unusable | Parsed(chunk: Chunk)

  /**
   * The input file as the loader finds it: absent, present but failing while
   * it is read (not UTF-8, or an I/O error), or read in full as its lines.
   */
  datatype InputFile = Missing | Unreadable | Readable(lines: seq<Line>)

  datatype Metadata = Metadata(
    source: string,
    chunkId: string,
    chunkIndex: int,
    wordCount: int,
    charCount: int,
    docType: string,
    year: Option<string>,
    qualityScore: real,
    fileSize: int)

  datatype Document = Document(pageContent: string, metadata: Metadata)

  // ------------------------------------------------------------------
  // Document type
  // ------------------------------------------------------------------

  /** `_extract_doc_type`: the first of three markers found in the lower-cased path. */
  function ExtractDocType(pdfPath: string): (r: string)
    ensures r in {"annual_report", "master_circular", "faq", "other"}
    ensures r == "annual_report" <==> Contains(ToLower(pdfPath), "annual_report")
    ensures r == "master_circular" <==>
      !Contains(ToLower(pdfPath), "annual_report") && Contains(ToLower(pdfPath), "mastercircular")
    ensures r == "faq" <==>
      !Contains(ToLower(pdfPath), "annual_report") && !Contains(ToLower(pdfPath), "mastercircular")
      && Contains(ToLower(pdfPath), "faq")
  {
    var p := ToLower(pdfPath);
    if Contains(p, "annual_report") then "annual_report"
    else if Contains(p, "mastercircular") then "master_circular"
    else if Contains(p, "faq") then "faq"
    else "other"
  }

  /** The letter case of the path never matters. */
  lemma ExtractDocTypeIgnoresCase(pdfPath: string)
    ensures ExtractDocType(ToLower(pdfPath)) == ExtractDocType(pdfPath)
  {
    ToLowerIdempotent(pdfPath);
  }

  // ------------------------------------------------------------------
  // Year
  // ------------------------------------------------------------------

  /** The three patterns `_extract_year` tries, in order: `dddd-dddd`, `dddd-dd`, `dddd`. */
  datatype YearPattern = FullRange | ShortRange | SingleYear

  const YearPatterns: seq<YearPattern> := [FullRange, ShortRange, SingleYear]

  /** `n` ASCII digits start at position `i`. */
  predicate DigitsAt(s: string, i: nat, n: nat) {
    i + n <= |s| && forall k :: i <= k < i + n ==> IsDigit(s[k])
  }

  /** The pattern matches the text starting at position `i`. */
  predicate MatchesAt(s: string, p: YearPattern, i: nat) {
    match p
    case FullRange => DigitsAt(s, i, 4) && i + 4 < |s| && s[i + 4] == '-' && DigitsAt(s, i + 5, 4)
    case ShortRange => DigitsAt(s, i, 4) && i + 4 < |s| && s[i + 4] == '-' && DigitsAt(s, i + 5, 2)
    case SingleYear => DigitsAt(s, i, 4)
  }

  /** `re.search` from position `i`: the leftmost position, not before `i`, where the pattern matches. */
  function SearchFrom(s: string, p: YearPattern, i: nat): (r: Option<nat>)
    ensures r.None? ==> forall j: nat :: i <= j ==> !MatchesAt(s, p, j)
    ensures r.Some? ==> i <= r.value && MatchesAt(s, p, r.value)
                        && forall j: nat :: i <= j < r.value ==> !MatchesAt(s, p, j)
    decreases |s| - i
  {
    if i >= |s| then None
    else if MatchesAt(s, p, i) then Some(i)
    else SearchFrom(s, p, i + 1)
  }

  /** The first pattern, in the given order, that matches somewhere, with its leftmost position. */
  function FirstPatternMatch(s: string, patterns: seq<YearPattern>): (r: Option<(YearPattern, nat)>)
    ensures r.None? ==> forall k, j: nat :: 0 <= k < |patterns| ==> !MatchesAt(s, patterns[k], j)
    ensures r.Some? ==>
      exists k :: 0 <= k < |patterns| && r.value.0 == patterns[k]
                  && SearchFrom(s, patterns[k], 0) == Some(r.value.1)
                  && forall m :: 0 <= m < k ==> SearchFrom(s, patterns[m], 0).None?
  {
    if patterns == [] then None
    else match SearchFrom(s, patterns[0], 0)
      case Some(i) => Some((patterns[0], i))
      case None =>
        var r := FirstPatternMatch(s, patterns[1..]);
        if r.Some? then
          var k :| 0 <= k < |patterns[1..]| && r.value.0 == patterns[1..][k]
                   && SearchFrom(s, patterns[1..][k], 0) == Some(r.value.1)
                   && forall m :: 0 <= m < k ==> SearchFrom(s, patterns[1..][m], 0).None?;
          assert forall m :: 0 <= m < k + 1 ==> SearchFrom(s, patterns[m], 0).None? by {
            forall m | 0 <= m < k + 1 ensures SearchFrom(s, patterns[m], 0).None? {
              if m > 0 { assert patterns[m] == patterns[1..][m - 1]; }
            }
          }
          r
        else
          assert forall k :: 1 <= k < |patterns| ==> patterns[k] == patterns[1..][k - 1];
          r
  }

  /** `_extract_year`: group 1, the first four digits, of the first pattern that matches. */
  function ExtractYear(pdfPath: string): Option<string> {
    match FirstPatternMatch(pdfPath, YearPatterns)
    case None => None
    case Some((_, i)) => Some(pdfPath[i..i + 4])
  }

  /** Every pattern starts with four digits. */
  lemma MatchStartsWithYear(s: string, p: YearPattern, i: nat)
    requires MatchesAt(s, p, i)
    ensures DigitsAt(s, i, 4)
  {
  }

  /**
   * A year is found exactly when the path has four consecutive digits, and
   * what is found is four digits taken from the path.
   */
  lemma {:induction false} ExtractYearIff(pdfPath: string)
    ensures ExtractYear(pdfPath).None? <==> forall i: nat :: !DigitsAt(pdfPath, i, 4)
    ensures ExtractYear(pdfPath).Some? ==>
      var y := ExtractYear(pdfPath).value;
      |y| == 4 && (forall k :: 0 <= k < 4 ==> IsDigit(y[k]))
      && exists i: nat :: DigitsAt(pdfPath, i, 4) && y == pdfPath[i..i + 4]
  {
    var r := FirstPatternMatch(pdfPath, YearPatterns);
    if r.Some? {
      var i := r.value.1;
      var k :| 0 <= k < |YearPatterns| && r.value.0 == YearPatterns[k]
               && SearchFrom(pdfPath, YearPatterns[k], 0) == Some(i);
      MatchStartsWithYear(pdfPath, YearPatterns[k], i);
    } else {
      assert YearPatterns[2] == SingleYear;
      forall i: nat ensures !DigitsAt(pdfPath, i, 4) {
        assert !MatchesAt(pdfPath, YearPatterns[2], i);
      }
    }
  }

  /**
   * Pattern priority and leftmost matching: when `p` matches first at `k`
   * and no pattern before it matches anywhere, the year is the four digits
   * at `k`, however many other digit runs come before it.
   */
  lemma ExtractYearLeftmost(pdfPath: string, p: nat, k: nat)
    requires p < |YearPatterns| && MatchesAt(pdfPath, YearPatterns[p], k)
    requires forall j: nat :: j < k ==> !MatchesAt(pdfPath, YearPatterns[p], j)
    requires forall q, j: nat :: 0 <= q < p ==> !MatchesAt(pdfPath, YearPatterns[q], j)
    ensures ExtractYear(pdfPath) == Some(pdfPath[k..k + 4])
  {
    var r := FirstPatternMatch(pdfPath, YearPatterns);
    var q :| 0 <= q < |YearPatterns| && r.value.0 == YearPatterns[q]
             && SearchFrom(pdfPath, YearPatterns[q], 0) == Some(r.value.1)
             && forall m :: 0 <= m < q ==> SearchFrom(pdfPath, YearPatterns[m], 0).None?;
  }

  /** "x1999_2020-21": a later short range beats an earlier lone year. */
  lemma ExtractYearExample(pdfPath: string)
    requires pdfPath == "x1999_2020-21"
    ensures ExtractYear(pdfPath) == Some("2020")
  {
    assert YearPatterns[0] == FullRange && YearPatterns[1] == ShortRange;
    assert forall j: nat :: !MatchesAt(pdfPath, FullRange, j);
    assert forall j: nat :: j < 6 ==> !MatchesAt(pdfPath, ShortRange, j);
    assert MatchesAt(pdfPath, ShortRange, 6);
    ExtractYearLeftmost(pdfPath, 1, 6);
    assert pdfPath[6..10] == "2020";
  }

  // ------------------------------------------------------------------
  // From chunk to document
  // ------------------------------------------------------------------

  /** `chunk_data.get('chunk_word_count', 0)`. */
  function WordCountOf(c: Chunk): int {
    c.wordCount.GetOr(0)
  }

  /**
   * `_create_document`: no document for a chunk whose text is blank;
   * otherwise the stripped text, with metadata from the fields (0 or the
   * empty string where one is missing) and from the two extractors.
   */
  function CreateDocument(c: Chunk): (r: Option<Document>)
    ensures r.None? <==> Strip(c.text.GetOr("")) == ""
    ensures r.Some? ==>
      && r.value.pageContent == Strip(c.text.GetOr(""))
      && r.value.metadata.source == c.pdfPath.GetOr("")
      && r.value.metadata.docType == ExtractDocType(c.pdfPath.GetOr(""))
      && r.value.metadata.year == ExtractYear(c.pdfPath.GetOr(""))
      && r.value.metadata.wordCount == WordCountOf(c)
      && r.value.metadata.chunkId == c.chunkId.GetOr("")
      && r.value.metadata.chunkIndex == c.chunkIndex.GetOr(0)
      && r.value.metadata.charCount == c.charCount.GetOr(0)
      && r.value.metadata.qualityScore == c.qualityScore.GetOr(0.0)
      && r.value.metadata.fileSize == c.fileSize.GetOr(0)
  {
    var text := Strip(c.text.GetOr(""));
    if text == "" then None
    else
      var path := c.pdfPath.GetOr("");
      Some(Document(text, Metadata(
        source := path,
        chunkId := c.chunkId.GetOr(""),
        chunkIndex := c.chunkIndex.GetOr(0),
        wordCount := WordCountOf(c),
        charCount := c.charCount.GetOr(0),
        docType := ExtractDocType(path),
        year := ExtractYear(path),
        qualityScore := c.qualityScore.GetOr(0.0),
        fileSize := c.fileSize.GetOr(0))))
  }

  /** The document a line contributes, if any. */
  function LineDocument(line: Line, minWordCount: int): Option<Document> {
    match line
    case Parsed(c) => if WordCountOf(c) < minWordCount then None else CreateDocument(c)
    case _ => None
  }

  // ------------------------------------------------------------------
  // What a load produces
  // ------------------------------------------------------------------

  /** The documents of the lines, in line order. */
  function LoadedDocuments(lines: seq<Line>, minWordCount: int): seq<Document> {
    if lines == [] then []
    else
      var d := LineDocument(lines[|lines| - 1], minWordCount);
      LoadedDocuments(lines[..|lines| - 1], minWordCount) + (if d.Some? then [d.value] else [])
  }

  /** `total_chunks`: the lines that decode as JSON. */
  function ParsedCount(lines: seq<Line>): nat {
    if lines == [] then 0
    else ParsedCount(lines[..|lines| - 1]) + (if lines[|lines| - 1].Undecodable? then 0 else 1)
  }

  /** `filtered_chunks`: the chunk records below the word count. */
  function BelowMinCount(lines: seq<Line>, minWordCount: int): nat {
    if lines == [] then 0
    else
      var l := lines[|lines| - 1];
      BelowMinCount(lines[..|lines| - 1], minWordCount)
      + (if l.Parsed? && WordCountOf(l.chunk) < minWordCount then 1 else 0)
  }

  /** The chunk records with enough words but blank text. */
  function BlankTextCount(lines: seq<Line>, minWordCount: int): nat {
    if lines == [] then 0
    else
      var l := lines[|lines| - 1];
      BlankTextCount(lines[..|lines| - 1], minWordCount)
      + (if l.Parsed? && WordCountOf(l.chunk) >= minWordCount && CreateDocument(l.chunk).None? then 1 else 0)
  }

  /** The lines that decode but whose word count cannot be read. */
  function UnusableCount(lines: seq<Line>): nat {
    if lines == [] then 0
    else UnusableCount(lines[..|lines| - 1]) + (if lines[|lines| - 1].Unusable? then 1 else 0)
  }

  /**
   * Every decoded line is accounted for exactly once: kept, below the word
   * count, blank, or unusable. Undecodable lines are in none of these.
   */
  lemma {:induction false} LoadAccounting(lines: seq<Line>, minWordCount: int)
    ensures |LoadedDocuments(lines, minWordCount)| + BelowMinCount(lines, minWordCount)
            + BlankTextCount(lines, minWordCount) + UnusableCount(lines) == ParsedCount(lines)
  {
    if lines != [] {
      LoadAccounting(lines[..|lines| - 1], minWordCount);
    }
  }

  /** Loading two files' lines one after the other gives the two loads concatenated. */
  lemma {:induction false} LoadedDocumentsAppend(a: seq<Line>, b: seq<Line>, minWordCount: int)
    ensures LoadedDocuments(a + b, minWordCount) == LoadedDocuments(a, minWordCount) + LoadedDocuments(b, minWordCount)
    decreases |b|
  {
    if b == [] {
      assert a + b == a;
    } else {
      var n := |b| - 1;
      assert (a + b)[..|a + b| - 1] == a + b[..n];
      LoadedDocumentsAppend(a, b[..n], minWordCount);
    }
  }

  /**
   * Every loaded document comes from a chunk record of the input with at
   * least the minimum word count and non-blank text.
   */
  lemma {:induction false} LoadedDocumentsSound(lines: seq<Line>, minWordCount: int)
    ensures forall d :: d in LoadedDocuments(lines, minWordCount) ==>
      && d.pageContent != ""
      && d.metadata.wordCount >= minWordCount
      && exists i :: 0 <= i < |lines| && lines[i].Parsed? && CreateDocument(lines[i].chunk) == Some(d)
  {
    if lines != [] {
      var init := lines[..|lines| - 1];
      LoadedDocumentsSound(init, minWordCount);
      forall d | d in LoadedDocuments(init, minWordCount)
        ensures exists i :: 0 <= i < |lines| && lines[i].Parsed? && CreateDocument(lines[i].chunk) == Some(d)
      {
        var i :| 0 <= i < |init| && init[i].Parsed? && CreateDocument(init[i].chunk) == Some(d);
        assert lines[i] == init[i];
      }
    }
  }

  /** One more line: how the documents and the two counters grow. */
  lemma LoadStep(lines: seq<Line>, n: nat, minWordCount: int)
    requires n < |lines|
    ensures var d := LineDocument(lines[n], minWordCount);
      LoadedDocuments(lines[..n + 1], minWordCount)
        == LoadedDocuments(lines[..n], minWordCount) + (if d.Some? then [d.value] else [])
    ensures ParsedCount(lines[..n + 1]) == ParsedCount(lines[..n]) + (if lines[n].Undecodable? then 0 else 1)
    ensures BelowMinCount(lines[..n + 1], minWordCount) == BelowMinCount(lines[..n], minWordCount)
      + (if lines[n].Parsed? && WordCountOf(lines[n].chunk) < minWordCount then 1 else 0)
  {
    assert lines[..n + 1][..n] == lines[..n];
  }

  /** What a load produces: the documents, and the counters it logs. */
  datatype LoadReport = LoadReport(documents: seq<Document>, totalChunks: nat, filteredChunks: nat)

  /** Why a load fails: the file is absent, or reading it raised part-way. */
  datatype LoadError = FileNotFound(path: string) | ReadFailed(path: string)

  /** `DocumentLoader`'s default word-count floor. */
  const DefaultLoaderMinWordCount := 30

  /** `get_high_quality_documents`' default threshold. */
  const DefaultMinQualityScore: real := 70.0

  /** The test of `get_documents_by_type`. */
  function OfType(docType: string): Document -> bool {
    (d: Document) => d.metadata.docType == docType
  }

  /** The test of `get_documents_by_year`: a document without a year never passes. */
  function OfYear(year: string): Document -> bool {
    (d: Document) => d.metadata.year == Some(year)
  }

  /** The test of `get_high_quality_documents`. */
  function AtLeastQuality(minQualityScore: real): Document -> bool {
    (d: Document) => d.metadata.qualityScore >= minQualityScore
  }

  class DocumentLoader {
    const filePath: string
    const minWordCount: int
    var documents: seq<Document>

    /** A loader for one file with the given word-count floor; nothing loaded yet. */
    constructor (filePath: string, minWordCount: int := DefaultLoaderMinWordCount)
      ensures this.filePath == filePath && this.minWordCount == minWordCount
      ensures documents == []
    {
      this.filePath := filePath;
      this.minWordCount := minWordCount;
      documents := [];
    }

    /**
     * `load`: for a missing file, or one whose reading raises, the loader's
     * error and nothing changes; otherwise the documents of the file's lines,
     * in order, kept also as the loader's documents, and the two counters the
     * loader logs.
     */
    method Load(file: InputFile) returns (r: Result<LoadReport, LoadError>)
      modifies this
      ensures r.Failure? <==> !file.Readable?
      ensures r.Failure? ==> documents == old(documents)
      ensures file.Missing? ==> r == Failure(FileNotFound(filePath))
      ensures file.Unreadable? ==> r == Failure(ReadFailed(filePath))
      ensures r.Success? ==>
        && r.value.documents == LoadedDocuments(file.lines, minWordCount)
        && r.value.totalChunks == ParsedCount(file.lines)
        && r.value.filteredChunks == BelowMinCount(file.lines, minWordCount)
        && documents == r.value.documents
    {
      if file.Missing? {
        return Failure(FileNotFound(filePath));
      } else if file.Unreadable? {
        return Failure(ReadFailed(filePath));
      }
      var lines := file.lines;
      var docs: seq<Document>, totalChunks: nat, filteredChunks: nat := [], 0, 0;
      for n := 0 to |lines|
        invariant docs == LoadedDocuments(lines[..n], minWordCount)
        invariant totalChunks == ParsedCount(lines[..n])
        invariant filteredChunks == BelowMinCount(lines[..n], minWordCount)
      {
        LoadStep(lines, n, minWordCount);
        match lines[n]
        case Undecodable =>
        case Unusable =>
          totalChunks := totalChunks + 1;
        case Parsed(c) =>
          totalChunks := totalChunks + 1;
          if WordCountOf(c) < minWordCount {
            filteredChunks := filteredChunks + 1;
          } else {
            var doc := CreateDocument(c);
            if doc.Some? {
              docs := docs + [doc.value];
            }
          }
      }
      assert lines[..|lines|] == lines;
      documents := docs;
      return Success(LoadReport(docs, totalChunks, filteredChunks));
    }

    /** `get_documents_by_type`: the loaded documents of one type, in order. */
    function DocumentsByType(docType: string): (r: seq<Document>)
      reads this
      ensures IsSubsequence(r, documents)
      ensures forall d :: d in r <==> d in documents && d.metadata.docType == docType
      ensures forall d :: multiset(r)[d] == if d.metadata.docType == docType then multiset(documents)[d] else 0
    {
      FilterMultiset(documents, OfType(docType));
      Filter(documents, OfType(docType))
    }

    /** `get_documents_by_year`: the loaded documents of one year, in order; those without a year never match. */
    function DocumentsByYear(year: string): (r: seq<Document>)
      reads this
      ensures IsSubsequence(r, documents)
      ensures forall d :: d in r <==> d in documents && d.metadata.year == Some(year)
      ensures forall d :: multiset(r)[d] == if d.metadata.year == Some(year) then multiset(documents)[d] else 0
    {
      FilterMultiset(documents, OfYear(year));
      Filter(documents, OfYear(year))
    }

    /** `get_high_quality_documents`: the loaded documents scoring at least the threshold, in order. */
    function HighQualityDocuments(minQualityScore: real := DefaultMinQualityScore): (r: seq<Document>)
      reads this
      ensures IsSubsequence(r, documents)
      ensures forall d :: d in r <==> d in documents && d.metadata.qualityScore >= minQualityScore
      ensures forall d :: multiset(r)[d] == if d.metadata.qualityScore >= minQualityScore then multiset(documents)[d] else 0
    {
      FilterMultiset(documents, AtLeastQuality(minQualityScore));
      Filter(documents, AtLeastQuality(minQualityScore))
    }
  }

  /** Called without a threshold, the selection keeps the documents scoring at least 70. */
  lemma HighQualityDefault(loader: DocumentLoader)
    ensures forall d :: d in loader.HighQualityDocuments() <==> d in loader.documents && d.metadata.qualityScore >= 70.0
  {
  }

  /** Raising the quality threshold only drops documents, never reorders or adds them. */
  lemma HighQualityMonotone(loader: DocumentLoader, low: real, high: real)
    requires low <= high
    ensures IsSubsequence(loader.HighQualityDocuments(high), loader.HighQualityDocuments(low))
  {
    FilterStronger(loader.documents, AtLeastQuality(high), AtLeastQuality(low));
  }
}
