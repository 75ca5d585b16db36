/** The indexing agent's record processor: it fetches paper metadata,
    transforms it into search documents and writes them to the index,
    classifying every collaborator failure as a document failure (the next
    record may still succeed) or an indexing failure (give up).

    The metadata service, the transform and the index are collaborators whose
    code is not part of this model. Each is given as a script: the `n`-th call
    (counting from 0) with a given argument returns `script(argument, n)`. */
module Consumer {
  import opened Wrappers

  /** Number of individual document failures tolerated before the processor
      refuses further records. */
  const MAX_ERRORS: nat := 5

  /** Exceptions the collaborators raise. */
  datatype ServiceError =
    | ConnectionFailed      // metadata service could not be reached
    | RequestFailed         // metadata service refused the request
    | BadResponse           // metadata service answered with garbage
    | IndexConnectionError  // index could not be reached
    | OtherError(name: string)

  /** What leaves a processor step: the two classified failures, or a
      collaborator's exception that escaped classification. */
  datatype Raised =
    | DocumentFailed(message: string)
    | IndexingFailed(message: string)
    | Escaped(cause: ServiceError)

  datatype DocMeta = DocMeta(paperId: string, version: nat)
  datatype Document = Document(paperId: string, version: nat, title: string)

  datatype Services = Services(
    retrieve: (string, nat) -> Result<DocMeta, ServiceError>,
    bulkRetrieve: (seq<string>, nat) -> Result<seq<DocMeta>, ServiceError>,
    transform: DocMeta -> Result<Document, ServiceError>,
    addDocument: (Document, nat) -> Result<(), ServiceError>,
    bulkAddDocuments: (seq<Document>, nat) -> Result<(), ServiceError>)

  /** The outcome of a collaborator call with its retry, and how many calls
      were made. */
  datatype Attempt<T> = Attempt(outcome: Result<T, Raised>, calls: nat)

  /** One call retried once when it fails with `retryOn`; a second `retryOn`
      becomes `IndexingFailed(giveUp)`, any other exception of the retry
      escapes (it is raised inside the handler), and a first exception other
      than `retryOn` is classified by `classify`. */
  function WithOneRetry<T>(answer: nat -> Result<T, ServiceError>, retryOn: ServiceError,
                           giveUp: string, classify: ServiceError -> Raised): (r: Attempt<T>)
    ensures r.calls == 1 || r.calls == 2
    ensures r.calls == 2 <==> answer(0) == Err(retryOn)
    ensures r.outcome.Ok? <==> answer(0).Ok? || (answer(0) == Err(retryOn) && answer(1).Ok?)
    ensures r.outcome.Ok? ==> r.outcome.value == answer(r.calls - 1).value
    ensures answer(0).Err? && answer(0) != Err(retryOn) ==> r == Attempt(Err(classify(answer(0).error)), 1)
    ensures answer(0) == Err(retryOn) && answer(1) == Err(retryOn) ==> r == Attempt(Err(IndexingFailed(giveUp)), 2)
    ensures answer(0) == Err(retryOn) && answer(1).Err? && answer(1) != Err(retryOn)
            ==> r == Attempt(Err(Escaped(answer(1).error)), 2)
  {
    match answer(0)
    case Ok(v) => Attempt(Ok(v), 1)
    case Err(e) =>
      if e == retryOn then
        match answer(1)
        case Ok(v) => Attempt(Ok(v), 2)
        case Err(e2) =>
          if e2 == retryOn then Attempt(Err(IndexingFailed(giveUp)), 2)
          else Attempt(Err(Escaped(e2)), 2)
      else Attempt(Err(classify(e)), 1)
  }

  /** The metadata service's classification of a first-attempt exception. */
  function MetadataFailure(e: ServiceError): (r: Raised)
    ensures r.DocumentFailed? <==> e == RequestFailed || e == BadResponse
    ensures r.IndexingFailed? <==> !(e == RequestFailed || e == BadResponse)
  {
    if e == RequestFailed then DocumentFailed("Request to metadata service failed")
    else if e == BadResponse then DocumentFailed("Bad response from metadata service")
    else IndexingFailed("Unhandled exception")
  }

  const METADATA_UNREACHABLE := "Indexing failed; metadata endpoint could not be reached."

  /** `_get_metadata`: retrieve, with one retry on a connection failure. */
  function GetMetadata(s: Services, arxivId: string): (r: Attempt<DocMeta>)
    ensures r.calls == 1 || r.calls == 2
    ensures r.outcome.Ok? ==> s.retrieve(arxivId, r.calls - 1) == Ok(r.outcome.value)
    ensures r.outcome == Err(IndexingFailed(METADATA_UNREACHABLE))
            <==> s.retrieve(arxivId, 0) == Err(ConnectionFailed) && s.retrieve(arxivId, 1) == Err(ConnectionFailed)
    ensures r.outcome.Err? && r.outcome.error.DocumentFailed?
            <==> s.retrieve(arxivId, 0) == Err(RequestFailed) || s.retrieve(arxivId, 0) == Err(BadResponse)
    ensures r.outcome.Err? && r.outcome.error.Escaped?
            <==> s.retrieve(arxivId, 0) == Err(ConnectionFailed)
                 && s.retrieve(arxivId, 1).Err? && s.retrieve(arxivId, 1) != Err(ConnectionFailed)
    ensures r.calls == 2 <==> s.retrieve(arxivId, 0) == Err(ConnectionFailed)
    ensures s.retrieve(arxivId, 0).Err? && (s.retrieve(arxivId, 0).error.OtherError? || s.retrieve(arxivId, 0) == Err(IndexConnectionError))
            ==> r == Attempt(Err(IndexingFailed("Unhandled exception")), 1)
    ensures r.outcome.Err? && r.outcome.error.Escaped? ==> r.outcome.error.cause == s.retrieve(arxivId, 1).error
  {
    WithOneRetry(n => s.retrieve(arxivId, n), ConnectionFailed, METADATA_UNREACHABLE, MetadataFailure)
  }

  /** `_get_bulk_metadata`: the same retry and classification for `bulk_retrieve`. */
  function GetBulkMetadata(s: Services, arxivIds: seq<string>): (r: Attempt<seq<DocMeta>>)
    ensures r.calls == 1 || r.calls == 2
    ensures r.outcome.Ok? ==> s.bulkRetrieve(arxivIds, r.calls - 1) == Ok(r.outcome.value)
    ensures r.outcome == Err(IndexingFailed(METADATA_UNREACHABLE))
            <==> s.bulkRetrieve(arxivIds, 0) == Err(ConnectionFailed) && s.bulkRetrieve(arxivIds, 1) == Err(ConnectionFailed)
    ensures r.outcome.Err? && r.outcome.error.DocumentFailed?
            <==> s.bulkRetrieve(arxivIds, 0) == Err(RequestFailed) || s.bulkRetrieve(arxivIds, 0) == Err(BadResponse)
    ensures r.outcome.Err? && r.outcome.error.Escaped?
            <==> s.bulkRetrieve(arxivIds, 0) == Err(ConnectionFailed)
                 && s.bulkRetrieve(arxivIds, 1).Err? && s.bulkRetrieve(arxivIds, 1) != Err(ConnectionFailed)
    ensures r.calls == 2 <==> s.bulkRetrieve(arxivIds, 0) == Err(ConnectionFailed)
    ensures s.bulkRetrieve(arxivIds, 0).Err? && (s.bulkRetrieve(arxivIds, 0).error.OtherError? || s.bulkRetrieve(arxivIds, 0) == Err(IndexConnectionError))
            ==> r == Attempt(Err(IndexingFailed("Unhandled exception")), 1)
    ensures r.outcome.Err? && r.outcome.error.Escaped? ==> r.outcome.error.cause == s.bulkRetrieve(arxivIds, 1).error
  {
    WithOneRetry(n => s.bulkRetrieve(arxivIds, n), ConnectionFailed, METADATA_UNREACHABLE, MetadataFailure)
  }

  /** `_transform_to_document`: any exception of the transform is a document failure. */
  function TransformToDocument(s: Services, docmeta: DocMeta): (r: Result<Document, Raised>)
    ensures r.Ok? <==> s.transform(docmeta).Ok?
    ensures r.Ok? ==> r.value == s.transform(docmeta).value
    ensures r.Err? ==> r.error.DocumentFailed?
  {
    match s.transform(docmeta)
    case Ok(d) => Ok(d)
    case Err(_) => Err(DocumentFailed("Could not transform document"))
  }

  /** Any first exception of an index write other than a connection error. */
  function IndexFailure(e: ServiceError): (r: Raised)
    ensures r.IndexingFailed?
  {
    IndexingFailed("Unhandled exception")
  }

  /** `_add_to_index`: one write, retried once on a connection error. */
  function AddToIndex(s: Services, document: Document): (r: Attempt<()>)
    ensures r.calls == 1 || r.calls == 2
    ensures r.calls == 1 <==> s.addDocument(document, 0) != Err(IndexConnectionError)
    ensures r.outcome.Ok? <==> s.addDocument(document, r.calls - 1).Ok?
    ensures r.outcome.Err? ==> r.outcome.error.IndexingFailed? || (r.calls == 2 && r.outcome.error.Escaped?)
    ensures r.outcome == Err(IndexingFailed("Could not index document"))
            <==> s.addDocument(document, 0) == Err(IndexConnectionError) && s.addDocument(document, 1) == Err(IndexConnectionError)
    ensures r.outcome.Err? && r.outcome.error.Escaped?
            <==> s.addDocument(document, 0) == Err(IndexConnectionError) && s.addDocument(document, 1).Err? && s.addDocument(document, 1) != Err(IndexConnectionError)
    ensures r.outcome.Err? && r.outcome.error.Escaped? ==> r.outcome.error.cause == s.addDocument(document, 1).error
    ensures s.addDocument(document, 0).Err? && s.addDocument(document, 0) != Err(IndexConnectionError)
            ==> r == Attempt(Err(IndexingFailed("Unhandled exception")), 1)
  {
    WithOneRetry(n => s.addDocument(document, n), IndexConnectionError, "Could not index document", IndexFailure)
  }

  /** `_bulk_add_to_index`: the same for a bulk write. */
  function BulkAddToIndex(s: Services, documents: seq<Document>): (r: Attempt<()>)
    ensures r.calls == 1 || r.calls == 2
    ensures r.calls == 1 <==> s.bulkAddDocuments(documents, 0) != Err(IndexConnectionError)
    ensures r.outcome.Ok? <==> s.bulkAddDocuments(documents, r.calls - 1).Ok?
    ensures r.outcome.Err? ==> r.outcome.error.IndexingFailed? || (r.calls == 2 && r.outcome.error.Escaped?)
    ensures r.outcome == Err(IndexingFailed("Could not bulk index documents"))
            <==> s.bulkAddDocuments(documents, 0) == Err(IndexConnectionError) && s.bulkAddDocuments(documents, 1) == Err(IndexConnectionError)
    ensures r.outcome.Err? && r.outcome.error.Escaped?
            <==> s.bulkAddDocuments(documents, 0) == Err(IndexConnectionError) && s.bulkAddDocuments(documents, 1).Err? && s.bulkAddDocuments(documents, 1) != Err(IndexConnectionError)
    ensures r.outcome.Err? && r.outcome.error.Escaped? ==> r.outcome.error.cause == s.bulkAddDocuments(documents, 1).error
    ensures s.bulkAddDocuments(documents, 0).Err? && s.bulkAddDocuments(documents, 0) != Err(IndexConnectionError)
            ==> r == Attempt(Err(IndexingFailed("Unhandled exception")), 1)
  {
    WithOneRetry(n => s.bulkAddDocuments(documents, n), IndexConnectionError,
                 "Could not bulk index documents", IndexFailure)
  }

  /** Transforms `metas` in order, stopping at the first failure; the count is
      the number of transform calls made. */
  function TransformAll(s: Services, metas: seq<DocMeta>): (r: (Result<seq<Document>, Raised>, nat))
    ensures r.1 <= |metas|
    ensures r.0.Ok? ==> r.1 == |metas| && |r.0.value| == |metas|
                        && forall i :: 0 <= i < |metas| ==> s.transform(metas[i]) == Ok(r.0.value[i])
    ensures r.0.Err? ==> r.1 >= 1 && r.0.error.DocumentFailed? && s.transform(metas[r.1 - 1]).Err?
                         && forall i :: 0 <= i < r.1 - 1 ==> s.transform(metas[i]).Ok?
    decreases |metas|
  {
    if metas == [] then (Ok([]), 0)
    else
      var prefix := TransformAll(s, metas[..|metas| - 1]);
      if prefix.0.Err? then prefix
      else match TransformToDocument(s, metas[|metas| - 1])
        case Ok(d) => (Ok(prefix.0.value + [d]), |metas|)
        case Err(e) => (Err(e), |metas|)
  }

  /** A failure among the first `k` records is the failure of the whole list:
      the transforms after it never run. */
  lemma {:induction false} TransformAllStopsAtFailure(s: Services, metas: seq<DocMeta>, k: nat)
    requires k <= |metas|
    requires TransformAll(s, metas[..k]).0.Err?
    ensures TransformAll(s, metas) == TransformAll(s, metas[..k])
    decreases |metas|
  {
    if k < |metas| {
      var shorter := metas[..|metas| - 1];
      assert shorter[..k] == metas[..k];
      TransformAllStopsAtFailure(s, shorter, k);
    } else {
      assert metas[..k] == metas;
    }
  }

  /** One more record: its transform is appended, or its failure ends the list. */
  lemma TransformAllSnoc(s: Services, metas: seq<DocMeta>, i: nat, documents: seq<Document>)
    requires i < |metas| && TransformAll(s, metas[..i]) == (Ok(documents), i)
    ensures TransformToDocument(s, metas[i]).Ok? ==>
              TransformAll(s, metas[..i + 1]) == (Ok(documents + [TransformToDocument(s, metas[i]).value]), i + 1)
    ensures TransformToDocument(s, metas[i]).Err? ==>
              TransformAll(s, metas[..i + 1]) == (Err(TransformToDocument(s, metas[i]).error), i + 1)
  {
    assert metas[..i + 1][..i] == metas[..i];
  }

  /** What `index_papers` did besides its outcome. */
  datatype Trace = Trace(bulkRetrieveCalls: nat, transformCalls: nat,
                         bulkWriteCalls: nat, written: Option<seq<Document>>)

  /** `index_papers` as a function: one bulk fetch, the transforms, one bulk write. */
  function IndexPapersSpec(s: Services, arxivIds: seq<string>): (r: (Result<(), Raised>, Trace))
  {
    var meta := GetBulkMetadata(s, arxivIds);
    match meta.outcome
    case Err(e) => (Err(e), Trace(meta.calls, 0, 0, None))
    case Ok(metas) =>
      var (docs, transformCalls) := TransformAll(s, metas);
      match docs
      case Err(e) => (Err(e), Trace(meta.calls, transformCalls, 0, None))
      case Ok(documents) =>
        var write := BulkAddToIndex(s, documents);
        (write.outcome, Trace(meta.calls, transformCalls, write.calls, Some(documents)))
  }

  /** On success every returned record was transformed, in order, and exactly
      that list (duplicates and all) went to the bulk write. */
  lemma IndexPapersWritesTransformedInOrder(s: Services, arxivIds: seq<string>)
    ensures var (r, t) := IndexPapersSpec(s, arxivIds);
            r.Ok? ==>
              var metas := GetBulkMetadata(s, arxivIds).outcome.value;
              t.written.Some? && |t.written.value| == |metas| && t.transformCalls == |metas|
              && forall i :: 0 <= i < |metas| ==> s.transform(metas[i]) == Ok(t.written.value[i])
  {
  }

  /** A failed fetch or transform means no write was attempted, and the
      failure passes through unchanged. */
  lemma IndexPapersNoWriteOnEarlyFailure(s: Services, arxivIds: seq<string>)
    ensures var (r, t) := IndexPapersSpec(s, arxivIds);
            var meta := GetBulkMetadata(s, arxivIds);
            (meta.outcome.Err? ==> r == Err(meta.outcome.error) && t.bulkWriteCalls == 0 && t.transformCalls == 0)
            && (meta.outcome.Ok? && TransformAll(s, meta.outcome.value).0.Err?
                ==> r == Err(TransformAll(s, meta.outcome.value).0.error) && t.bulkWriteCalls == 0 && t.written.None?)
  {
  }

  /** What a record's payload turns out to be: bytes that are not UTF-8, text
      that is not JSON, JSON that is not an object (so it has no `get`), or an
      object carrying a `document_id`. */
  datatype Payload =
    | InvalidUtf8
    | InvalidJson
    | NotAnObject
    | DocumentId(id: string)

  /** A record from the stream. */
  datatype Record = Record(sequenceNumber: string, data: Payload)

  /** `process_record` as a function of the error count before the record:
      the outcome and the error count after it. Only a JSON decoding error is
      turned into `DocumentFailed`; a decoding error of the bytes and a
      missing `get` escape unclassified. */
  function ProcessStep(s: Services, errorCount: nat, record: Record): (r: (Result<(), Raised>, nat))
    ensures errorCount > MAX_ERRORS ==> r == (Err(IndexingFailed("Too many errors")), errorCount)
    ensures errorCount <= MAX_ERRORS && record.data == InvalidJson
            ==> r == (Err(DocumentFailed("Could not deserialize record data")), errorCount)
    ensures errorCount <= MAX_ERRORS && record.data == InvalidUtf8
            ==> r == (Err(Escaped(OtherError("UnicodeDecodeError"))), errorCount)
    ensures errorCount <= MAX_ERRORS && record.data == NotAnObject
            ==> r == (Err(Escaped(OtherError("AttributeError"))), errorCount)
    ensures r.1 == errorCount || r.1 == errorCount + 1
    ensures r.1 == errorCount + 1
            <==> errorCount <= MAX_ERRORS && record.data.DocumentId?
                 && IndexPapersSpec(s, [record.data.id]).0.Err?
                 && IndexPapersSpec(s, [record.data.id]).0.error.DocumentFailed?
    ensures r.1 == errorCount + 1 ==> r.0 == Ok(())
    ensures r.0.Err? && r.0.error.DocumentFailed? ==> record.data == InvalidJson
    ensures errorCount <= MAX_ERRORS && record.data.DocumentId? && r.1 == errorCount
            ==> r.0 == IndexPapersSpec(s, [record.data.id]).0
  {
    if errorCount > MAX_ERRORS then (Err(IndexingFailed("Too many errors")), errorCount)
    else match record.data
      case InvalidUtf8 => (Err(Escaped(OtherError("UnicodeDecodeError"))), errorCount)
      case InvalidJson => (Err(DocumentFailed("Could not deserialize record data")), errorCount)
      case NotAnObject => (Err(Escaped(OtherError("AttributeError"))), errorCount)
      case DocumentId(arxivId) =>
        var (outcome, _) := IndexPapersSpec(s, [arxivId]);
        if outcome.Err? && outcome.error.DocumentFailed? then (Ok(()), errorCount + 1)
        else (outcome, errorCount)
  }

  /** The error count after processing `records` one after the other. */
  function ErrorCountAfter(s: Services, errorCount: nat, records: seq<Record>): nat
    decreases |records|
  {
    if records == [] then errorCount
    else ErrorCountAfter(s, ProcessStep(s, errorCount, records[0]).1, records[1..])
  }

  /** The error budget: starting within it, the count never passes
      `MAX_ERRORS + 1`, because a record is refused before it can count. */
  lemma {:induction false} ErrorCountBounded(s: Services, errorCount: nat, records: seq<Record>)
    requires errorCount <= MAX_ERRORS + 1
    ensures ErrorCountAfter(s, errorCount, records) <= MAX_ERRORS + 1
    ensures ErrorCountAfter(s, errorCount, records) >= errorCount
    decreases |records|
  {
    if records != [] {
      ErrorCountBounded(s, ProcessStep(s, errorCount, records[0]).1, records[1..]);
    }
  }

  /** Once over budget, every later record is refused with `IndexingFailed`. */
  lemma {:induction false} OverBudgetRefusesAll(s: Services, errorCount: nat, records: seq<Record>)
    requires errorCount > MAX_ERRORS
    ensures ErrorCountAfter(s, errorCount, records) == errorCount
    ensures forall i :: 0 <= i < |records| ==> ProcessStep(s, errorCount, records[i]).0 == Err(IndexingFailed("Too many errors"))
    decreases |records|
  {
    if records != [] {
      OverBudgetRefusesAll(s, errorCount, records[1..]);
      assert forall i :: 1 <= i < |records| ==> records[i] == records[1..][i - 1];
    }
  }

  /** The processor: a counter of document failures seen so far. */
  class MetadataRecordProcessor {
    var errorCount: nat
    const services: Services

    constructor (services: Services)
      ensures errorCount == 0 && this.services == services
    {
      this.services := services;
      errorCount := 0;
    }

    /** `index_papers`: fetch once, transform each record in order into
        `documents`, write that list once. */
    method IndexPapers(arxivIds: seq<string>) returns (r: Result<(), Raised>, trace: Trace)
      ensures (r, trace) == IndexPapersSpec(services, arxivIds)
    {
      var meta := GetBulkMetadata(services, arxivIds);
      if meta.outcome.Err? {
        return Err(meta.outcome.error), Trace(meta.calls, 0, 0, None);
      }
      var metas := meta.outcome.value;
      var documents: seq<Document> := [];
      var i := 0;
      while i < |metas|
        invariant 0 <= i <= |metas|
        invariant TransformAll(services, metas[..i]) == (Ok(documents), i)
      {
        var document := TransformToDocument(services, metas[i]);
        TransformAllSnoc(services, metas, i, documents);
        if document.Err? {
          TransformAllStopsAtFailure(services, metas, i + 1);
          return Err(document.error), Trace(meta.calls, i + 1, 0, None);
        }
        documents := documents + [document.value];
        i := i + 1;
      }
      assert metas[..i] == metas;
      var write := BulkAddToIndex(services, documents);
      return write.outcome, Trace(meta.calls, |metas|, write.calls, Some(documents));
    }

    /** `index_paper`: always the bulk path, with a one-element list. */
    method IndexPaper(arxivId: string) returns (r: Result<(), Raised>)
      ensures r == IndexPapersSpec(services, [arxivId]).0
    {
      var trace;
      r, trace := IndexPapers([arxivId]);
    }

    /** `process_record`: refuse when over budget, count document failures and
        swallow them, pass indexing failures on. */
    method ProcessRecord(record: Record) returns (r: Result<(), Raised>)
      modifies this
      ensures (r, errorCount) == ProcessStep(services, old(errorCount), record)
    {
      if errorCount > MAX_ERRORS {
        return Err(IndexingFailed("Too many errors"));
      }
      match record.data {
        case InvalidUtf8 => return Err(Escaped(OtherError("UnicodeDecodeError")));
        case InvalidJson => return Err(DocumentFailed("Could not deserialize record data"));
        case NotAnObject => return Err(Escaped(OtherError("AttributeError")));
        case DocumentId(_) =>
      }
      r := IndexPaper(record.data.id);
      if r.Err? && r.error.DocumentFailed? {
        errorCount := errorCount + 1;
        r := Ok(());
      }
    }
  }
}
