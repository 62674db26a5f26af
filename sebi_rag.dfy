/**
 * The SEBI question-answering system around its retrieval chain: which
 * loaded documents it keeps, how it turns the chain's answer and source
 * documents into a reply, and the statistics it reports. The chain itself
 * (embeddings, vector store, language model) is outside the model: what it
 * returns for a question arrives as a parameter.
 */
module SebiRag {
  import opened Wrappers
  import opened Collections
  import opened SebiDocuments

  // ------------------------------------------------------------------
  // Document selection
  // ------------------------------------------------------------------

  /**
   * The document-type filter of `load_documents`: with a non-empty list of
   * types, the documents of those types in their order; with no list or an
   * empty one, every document.
   */
  function SelectDocTypes(docs: seq<Document>, docTypes: Option<seq<string>>): (r: seq<Document>)
    ensures IsSubsequence(r, docs)
    ensures docTypes.None? || docTypes.value == [] ==> r == docs
    ensures docTypes.Some? && docTypes.value != [] ==>
      forall d :: d in r <==> d in docs && d.metadata.docType in docTypes.value
  ensures docTypes.Some? && docTypes.value != [] ==>
      forall d :: multiset(r)[d] == if d.metadata.docType in docTypes.value then multiset(docs)[d] else 0
  {
    if docTypes.Some? && docTypes.value != [] then
      FilterMultiset(docs, (d: Document) => d.metadata.docType in docTypes.value);
      Filter(docs, (d: Document) => d.metadata.docType in docTypes.value)
    else
      SubsequenceReflexive(docs);
      docs
  }

  /** Every sequence is a subsequence of itself. */
  lemma {:induction false} SubsequenceReflexive<T>(s: seq<T>)
    ensures IsSubsequence(s, s)
  {
    if s != [] {
      SubsequenceReflexive(s[1..]);
    }
  }

  /** Selecting by a list of types and then by a narrower list is selecting by the narrower list. */
  lemma SelectNarrower(docs: seq<Document>, wide: seq<string>, narrow: seq<string>)
    requires narrow != [] && forall t :: t in narrow ==> t in wide
    ensures SelectDocTypes(SelectDocTypes(docs, Some(wide)), Some(narrow)) == SelectDocTypes(docs, Some(narrow))
  {
    FilterTwice(docs, (d: Document) => d.metadata.docType in wide, (d: Document) => d.metadata.docType in narrow);
  }

  /** Filtering by a test that implies the first filter's test undoes nothing the first one kept. */
  lemma {:induction false} FilterTwice<T>(s: seq<T>, p: T -> bool, q: T -> bool)
    requires forall x :: q(x) ==> p(x)
    ensures Filter(Filter(s, p), q) == Filter(s, q)
  {
    if s != [] {
      FilterTwice(s[1..], p, q);
    }
  }

  // ------------------------------------------------------------------
  // Source records
  // ------------------------------------------------------------------

  const PreviewLength := 200
  const Ellipsis := "..."

  /** `content_preview`: the content when it is short, otherwise its first 200 characters and "...". */
  function Preview(content: string): (r: string)
    ensures |r| <= PreviewLength + |Ellipsis|
    ensures |content| <= PreviewLength ==> r == content
    ensures |content| > PreviewLength ==>
      |r| == PreviewLength + |Ellipsis| && r[..PreviewLength] == content[..PreviewLength]
      && r[PreviewLength..] == Ellipsis
  {
    if |content| > PreviewLength then content[..PreviewLength] + Ellipsis else content
  }

  /** A preview of a preview is the preview. */
  lemma PreviewIdempotent(content: string)
    ensures Preview(Preview(content)) == Preview(content)
  {
    if |content| > PreviewLength {
      var p := Preview(content);
      assert p[..PreviewLength] + Ellipsis == p;
    }
  }

  /** The contents a preview leaves as they are: the short ones, and those already cut with "..." at 200. */
  lemma PreviewUnchangedIff(content: string)
    ensures Preview(content) == content <==>
      |content| <= PreviewLength || (|content| == PreviewLength + |Ellipsis| && content[PreviewLength..] == Ellipsis)
  {
    if |content| > PreviewLength {
      if |content| == PreviewLength + |Ellipsis| && content[PreviewLength..] == Ellipsis {
        assert content[..PreviewLength] + Ellipsis == content;
      } else if |content| == PreviewLength + |Ellipsis| {
        assert Preview(content)[PreviewLength..] != content[PreviewLength..];
      }
    }
  }

  /** One entry of a reply's `sources`. */
  datatype SourceRecord = SourceRecord(
    sourceFile: string,
    docType: string,
    year: Option<string>,
    chunkId: string,
    wordCount: int,
    qualityScore: real,
    contentPreview: string)

  /**
   * The record of one source document. Documents are modelled with every
   * metadata key the loader sets, so the record copies them; a document
   * without a year gives a record without one.
   */
  function SourceOf(doc: Document): (r: SourceRecord)
    ensures r.sourceFile == doc.metadata.source && r.docType == doc.metadata.docType
    ensures r.year == doc.metadata.year && r.chunkId == doc.metadata.chunkId
    ensures r.wordCount == doc.metadata.wordCount && r.qualityScore == doc.metadata.qualityScore
    ensures r.contentPreview == Preview(doc.pageContent)
    ensures |r.contentPreview| <= PreviewLength + |Ellipsis|
  {
    SourceRecord(doc.metadata.source, doc.metadata.docType, doc.metadata.year, doc.metadata.chunkId,
                 doc.metadata.wordCount, doc.metadata.qualityScore, Preview(doc.pageContent))
  }

  /** The loop of `query` that builds `sources`: one record per source document, in order. */
  method BuildSources(docs: seq<Document>) returns (sources: seq<SourceRecord>)
    ensures |sources| == |docs|
    ensures forall i :: 0 <= i < |docs| ==> sources[i] == SourceOf(docs[i])
  {
    sources := [];
    for i := 0 to |docs|
      invariant |sources| == i
      invariant forall k :: 0 <= k < i ==> sources[k] == SourceOf(docs[k])
    {
      sources := sources + [SourceOf(docs[i])];
    }
  }

  // ------------------------------------------------------------------
  // Replies
  // ------------------------------------------------------------------

  /** What the retrieval chain did with a question: raised, or returned a result and source documents. */
  datatype ChainOutcome =
    | ChainFailed(message: string)
    | ChainAnswered(result: Option<string>, sourceDocuments: Option<seq<Document>>)

  /** The reply of `query`, without its timestamp. */
  datatype QueryReply = QueryReply(question: string, answer: string, sources: seq<SourceRecord>, sourceCount: nat)

  /** `load_documents`' default word-count floor. */
  const DefaultMinWordCount := 50

  const NoAnswer := "No answer generated"
  const ErrorPrefix := "Error processing query: "
  const NoVectorStore := "Vector store not created. Call create_vector_store() first."
  const NoDocuments := "No documents loaded. Call load_documents() first."
  const NoDocumentsLoaded := "No documents loaded"

  /** The statistics of `get_stats`, without the average (a float). */
  datatype Stats = Stats(
    totalDocuments: nat,
    totalWords: int,
    docTypes: map<string, nat>,
    yearsAvailable: seq<string>,
    vectorStoreReady: bool,
    qaChainReady: bool)

  // ------------------------------------------------------------------
  // Statistics, as functions of the documents
  // ------------------------------------------------------------------

  /** The `doc_types` dictionary: how many documents there are of each type. */
  function TypeCounts(docs: seq<Document>): map<string, nat> {
    if docs == [] then map[]
    else
      var m := TypeCounts(docs[..|docs| - 1]);
      var t := docs[|docs| - 1].metadata.docType;
      m[t := (if t in m then m[t] else 0) + 1]
  }

  /** The types counted are exactly the types of the documents. */
  lemma {:induction false} TypeCountsKeys(docs: seq<Document>)
    ensures forall t :: t in TypeCounts(docs) <==> exists i :: 0 <= i < |docs| && docs[i].metadata.docType == t
  {
    if docs != [] {
      var init := docs[..|docs| - 1];
      TypeCountsKeys(init);
      assert forall i :: 0 <= i < |init| ==> init[i] == docs[i];
    }
  }

  /** The `years` dictionary: how many documents there are of each year, skipping those without one. */
  function YearCounts(docs: seq<Document>): map<string, nat> {
    if docs == [] then map[]
    else
      var m := YearCounts(docs[..|docs| - 1]);
      var year := docs[|docs| - 1].metadata.year;
      if year.Some? && year.value != "unknown" then m[year.value := (if year.value in m then m[year.value] else 0) + 1]
      else m
  }

  /** The years counted are exactly the years the documents have, "unknown" aside. */
  lemma {:induction false} YearCountsKeys(docs: seq<Document>)
    ensures forall y :: y in YearCounts(docs) <==>
      exists i :: 0 <= i < |docs| && docs[i].metadata.year == Some(y) && y != "unknown"
  {
    if docs != [] {
      var init := docs[..|docs| - 1];
      YearCountsKeys(init);
      assert forall i :: 0 <= i < |init| ==> init[i] == docs[i];
    }
  }

  /** Each type's count is the number of documents `get_documents_by_type` would give for it. */
  lemma {:induction false} TypeCountsValue(docs: seq<Document>, t: string)
    ensures (if t in TypeCounts(docs) then TypeCounts(docs)[t] else 0) == |Filter(docs, OfType(t))|
  {
    if docs != [] {
      TypeCountsValue(docs[..|docs| - 1], t);
      FilterCountLast(docs, OfType(t));
    }
  }

  /** `total_words`. */
  function TotalWords(docs: seq<Document>): int {
    if docs == [] then 0 else TotalWords(docs[..|docs| - 1]) + docs[|docs| - 1].metadata.wordCount
  }

  /** The per-type counts add up to the number of documents. */
  lemma {:induction false} TypeCountsSum(docs: seq<Document>)
    ensures SumValues(TypeCounts(docs)) == |docs|
  {
    if docs == [] {
      assert TypeCounts(docs) == map[];
    } else {
      var init := docs[..|docs| - 1];
      TypeCountsSum(init);
      var m := TypeCounts(init);
      var t := docs[|docs| - 1].metadata.docType;
      SumValuesUpdate(m, t, (if t in m then m[t] else 0) + 1);
    }
  }

  /** Word totals add over concatenation, so loading more documents adds their words. */
  lemma {:induction false} TotalWordsAppend(a: seq<Document>, b: seq<Document>)
    ensures TotalWords(a + b) == TotalWords(a) + TotalWords(b)
    decreases |b|
  {
    if b == [] {
      assert a + b == a;
    } else {
      var n := |b| - 1;
      assert (a + b)[..|a + b| - 1] == a + b[..n];
      TotalWordsAppend(a, b[..n]);
    }
  }

  /** One more document: how the type counts grow. */
  lemma TypeCountsStep(docs: seq<Document>, i: nat)
    requires i < |docs|
    ensures var m := TypeCounts(docs[..i]); var t := docs[i].metadata.docType;
      TypeCounts(docs[..i + 1]) == m[t := (if t in m then m[t] else 0) + 1]
  {
    assert docs[..i + 1][..i] == docs[..i];
  }

  /** One more document: how the year counts grow. */
  lemma YearCountsStep(docs: seq<Document>, i: nat)
    requires i < |docs|
    ensures var m := YearCounts(docs[..i]); var year := docs[i].metadata.year;
      YearCounts(docs[..i + 1]) ==
        if year.Some? && year.value != "unknown" then m[year.value := (if year.value in m then m[year.value] else 0) + 1]
        else m
  {
    assert docs[..i + 1][..i] == docs[..i];
  }

  /** One more document: how the word total grows. */
  lemma TotalWordsStep(docs: seq<Document>, i: nat)
    requires i < |docs|
    ensures TotalWords(docs[..i + 1]) == TotalWords(docs[..i]) + docs[i].metadata.wordCount
  {
    assert docs[..i + 1][..i] == docs[..i];
  }

  /** The state of the system that the model keeps: its documents and whether its chain is built. */
  class RagSystem {
    const dataFile: string
    var documents: seq<Document>
    var vectorStoreReady: bool
    var qaChainReady: bool

    /** A system for one data file, with nothing loaded and nothing built. */
    constructor (dataFile: string)
      ensures this.dataFile == dataFile
      ensures documents == [] && !vectorStoreReady && !qaChainReady
    {
      this.dataFile := dataFile;
      documents := [];
      vectorStoreReady := false;
      qaChainReady := false;
    }

    /**
     * `load_documents`: the file's documents through a fresh loader, then
     * the type filter; the result becomes the system's documents. A missing
     * file is the loader's error, and nothing changes.
     */
    method LoadDocuments(file: InputFile, minWordCount: int := DefaultMinWordCount, docTypes: Option<seq<string>> := None)
      returns (r: Result<seq<Document>, LoadError>)
      modifies this
      ensures r.Failure? <==> !file.Readable?
      ensures r.Failure? ==> documents == old(documents)
      ensures file.Missing? ==> r == Failure(FileNotFound(dataFile))
      ensures file.Unreadable? ==> r == Failure(ReadFailed(dataFile))
      ensures r.Success? ==> r.value == SelectDocTypes(LoadedDocuments(file.lines, minWordCount), docTypes)
                              && documents == r.value
      ensures vectorStoreReady == old(vectorStoreReady) && qaChainReady == old(qaChainReady)
    {
      var loader := new DocumentLoader(dataFile, minWordCount);
      var loaded := loader.Load(file);
      if loaded.Failure? {
        return Failure(loaded.error);
      }
      documents := SelectDocTypes(loaded.value.documents, docTypes);
      return Success(documents);
    }

    /**
     * The guard of `create_vector_store`: building the store needs
     * documents. The store's contents are not modelled, only that it exists.
     */
    method CreateVectorStore() returns (r: Option<string>)
      modifies this
      ensures r.Some? <==> documents == []
      ensures r.Some? ==> r.value == NoDocuments && vectorStoreReady == old(vectorStoreReady)
      ensures r.None? ==> vectorStoreReady
      ensures documents == old(documents) && qaChainReady == old(qaChainReady)
    {
      if documents == [] {
        return Some(NoDocuments);
      }
      vectorStoreReady := true;
      return None;
    }

    /**
     * `query`: builds the chain first if needed, which fails outside the
     * error handling when there is no vector store; then the chain's answer
     * (or the default one) with one source record per source document, or,
     * when the chain raises, the error text with no sources.
     */
    method Query(question: string, outcome: ChainOutcome) returns (r: Result<QueryReply, string>)
      modifies this
      ensures r.Failure? <==> !old(qaChainReady) && !vectorStoreReady
      ensures r.Failure? ==> r.error == NoVectorStore && !qaChainReady
      ensures r.Success? ==>
        && qaChainReady
        && r.value.question == question
        && r.value.sourceCount == |r.value.sources|
        && match outcome
           case ChainFailed(message) =>
             r.value.answer == ErrorPrefix + message && r.value.sources == []
           case ChainAnswered(result, sourceDocuments) =>
             var docs := sourceDocuments.GetOr([]);
             && r.value.answer == result.GetOr(NoAnswer)
             && |r.value.sources| == |docs|
             && forall i :: 0 <= i < |docs| ==> r.value.sources[i] == SourceOf(docs[i])
      ensures documents == old(documents) && vectorStoreReady == old(vectorStoreReady)
    {
      if !qaChainReady {
        if !vectorStoreReady {
          return Failure(NoVectorStore);
        }
        qaChainReady := true;
      }
      match outcome
      case ChainFailed(message) =>
        return Success(QueryReply(question, ErrorPrefix + message, [], 0));
      case ChainAnswered(result, sourceDocuments) =>
        var sources := BuildSources(sourceDocuments.GetOr([]));
        return Success(QueryReply(question, result.GetOr(NoAnswer), sources, |sources|));
    }

    /**
     * `get_stats`: an error when nothing is loaded; otherwise the number of
     * documents, the word total, the per-type counts (which add up to the
     * number of documents) and the years with documents, in increasing order.
     */
    method GetStats() returns (r: Result<Stats, string>)
      ensures r.Failure? <==> documents == []
      ensures r.Failure? ==> r.error == NoDocumentsLoaded
      ensures r.Success? ==>
        && r.value.totalDocuments == |documents| == SumValues(r.value.docTypes)
        && r.value.totalWords == TotalWords(documents)
        && r.value.docTypes == TypeCounts(documents)
        && StrictlySorted(r.value.yearsAvailable)
        && (forall y :: y in r.value.yearsAvailable <==>
              exists i :: 0 <= i < |documents| && documents[i].metadata.year == Some(y) && y != "unknown")
        && r.value.vectorStoreReady == vectorStoreReady
        && r.value.qaChainReady == qaChainReady
    {
      if documents == [] {
        return Failure(NoDocumentsLoaded);
      }
      var docTypes: map<string, nat> := map[];
      var years: map<string, nat> := map[];
      var totalWords := 0;
      for i := 0 to |documents|
        invariant docTypes == TypeCounts(documents[..i])
        invariant years == YearCounts(documents[..i])
        invariant totalWords == TotalWords(documents[..i])
      {
        var doc := documents[i];
        TypeCountsStep(documents, i);
        YearCountsStep(documents, i);
        TotalWordsStep(documents, i);
        var docType := doc.metadata.docType;
        docTypes := docTypes[docType := (if docType in docTypes then docTypes[docType] else 0) + 1];
        var year := doc.metadata.year;
        if year.Some? && year.value != "unknown" {
          years := years[year.value := (if year.value in years then years[year.value] else 0) + 1];
        }
        totalWords := totalWords + doc.metadata.wordCount;
      }
      assert documents[..|documents|] == documents;
      TypeCountsSum(documents);
      YearCountsKeys(documents);
      var yearsAvailable := SortedKeys(years.Keys);
      return Success(Stats(|documents|, totalWords, docTypes, yearsAvailable, vectorStoreReady, qaChainReady));
    }
  }
}
