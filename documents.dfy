/** Result sets built directly from a list of documents
    (search/domain/documents.py), as when the documents were fetched by id
    rather than found by a search: everything is on one page. */
module DomainDocuments {
  import opened Wrappers
  import IndexResults
  import DomainBase

  /** The metadata of a result set, page counters included. */
  datatype SetMetadata = SetMetadata(
    size: int, end: int, total: int, start: int,
    maxPages: int, currentPage: int, totalPages: int)

  datatype DocumentSet<D> = DocumentSet(results: seq<D>, metadata: SetMetadata)

  /** `metadata_from_documents`: the page starts at the first document and
      holds all of them, and it is the only page. */
  function MetadataFromDocuments<D>(documents: seq<D>): (m: SetMetadata)
    ensures m.end - m.start == m.size == m.total == |documents|
    ensures m.currentPage == m.totalPages == m.maxPages == 1
    ensures documents == [] ==> m.size == 0 && m.end == 0 && m.total == 0
  {
    SetMetadata(|documents|, |documents|, |documents|, 0, 1, 1, 1)
  }

  /** `document_set_from_documents`: the documents, unchanged, with their
      metadata. */
  function DocumentSetFromDocuments<D>(documents: seq<D>): (r: DocumentSet<D>)
    ensures r.results == documents
    ensures r.metadata.total == |r.results| && r.metadata.start == 0
  {
    DocumentSet(documents, MetadataFromDocuments(documents))
  }

  /** The offsets agree with those a search would report for a first page
      as large as the whole set: its start, end, size and total. */
  lemma AgreesWithFirstFullPage<D>(query: DomainBase.Query, documents: seq<D>)
    requires query.pageStart == 0 && query.size == |documents| > 0
    ensures var searched := IndexResults.ToDocumentSet(query, documents, |documents|, (d: D) => d);
            var m := MetadataFromDocuments(documents);
            searched.Ok? && searched.value.results == documents
            && searched.value.metadata.start == m.start && searched.value.metadata.end == m.end
            && searched.value.metadata.size == m.size && searched.value.metadata.total == m.total
  {
    var searched := IndexResults.ToDocumentSet(query, documents, |documents|, (d: D) => d);
    assert searched.value.results == documents;
  }
}
