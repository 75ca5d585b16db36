/** `ClassicAPIQuery`, the query object of the classic arXiv API
    (search/domain/classic_api/classic_query.py): its defaults, the
    validation its `__post_init__` performs after construction, and its
    `to_query_string` rendering. The sort enums it names are imported from
    a module that is not part of this model; their values are the classic
    API's `sortBy` and `sortOrder` parameter values. */
module ClassicQuery {
  import opened Wrappers
  import opened Strings
  import opened Phrases
  import ClassicQueryParser

  datatype SortBy = Relevance | LastUpdatedDate | SubmittedDate
  datatype SortOrder = Ascending | Descending

  function SortByText(s: SortBy): string
  {
    match s
    case Relevance => "relevance"
    case LastUpdatedDate => "lastUpdatedDate"
    case SubmittedDate => "submittedDate"
  }

  function SortOrderText(s: SortOrder): string
  {
    match s
    case Ascending => "ascending"
    case Descending => "descending"
  }

  /** `SortBy(value)`; `None` stands for the `ValueError`. */
  function SortByOf(value: string): (r: Option<SortBy>)
    ensures r.Some? ==> SortByText(r.value) == value
    ensures r.None? ==> forall s :: SortByText(s) != value
  {
    if value == "relevance" then Some(Relevance)
    else if value == "lastUpdatedDate" then Some(LastUpdatedDate)
    else if value == "submittedDate" then Some(SubmittedDate)
    else None
  }

  /** `SortOrder(value)`; `None` stands for the `ValueError`. */
  function SortOrderOf(value: string): (r: Option<SortOrder>)
    ensures r.Some? ==> SortOrderText(r.value) == value
    ensures r.None? ==> forall s :: SortOrderText(s) != value
  {
    if value == "ascending" then Some(Ascending)
    else if value == "descending" then Some(Descending)
    else None
  }

  const DEFAULT_SIZE: int := 10

  /** What `__post_init__` raises: the phrase parser's `BadRequest`, or the
      `ValueError` for a query with neither a phrase nor an id list. */
  datatype InitError =
    | ParseFailed
    | NeitherPhraseNorIdList

  /** The phrase after `__post_init__`, or the exception it raises: a
      search query, when there is one, is parsed and replaces the phrase;
      then a phrase or an id list must be present. */
  function InitPhrase(
    searchQuery: Option<string>, phrase: Option<Phrase>, idList: Option<seq<string>>,
    parse: string -> Result<Option<Phrase>, ClassicQueryParser.ParseError>
  ): (r: Result<Option<Phrase>, InitError>)
    ensures r.Ok? ==> r.value.Some? || idList.Some?
    ensures r.Ok? && searchQuery.Some? ==> parse(searchQuery.value) == Ok(r.value)
    ensures r.Ok? && searchQuery.None? ==> r.value == phrase
    ensures r == Err(ParseFailed) <==> searchQuery.Some? && parse(searchQuery.value).Err?
  {
    var parsed := if searchQuery.Some? then parse(searchQuery.value) else Ok(phrase);
    match parsed
    case Err(_) => Err(ParseFailed)
    case Ok(p) => if p.None? && idList.None? then Err(NeitherPhraseNorIdList) else Ok(p)
  }

  /** `self.search_query or ''`. */
  function OrEmpty(s: Option<string>): string
  {
    if s.Some? then s.value else ""
  }

  /** `','.join(self.id_list) if self.id_list else ''`. */
  function JoinedIds(ids: Option<seq<string>>): string
  {
    if ids.Some? && ids.value != [] then Join(",", ids.value) else ""
  }

  class ClassicAPIQuery {
    var searchQuery: Option<string>
    var phrase: Option<Phrase>
    var idList: Option<seq<string>>
    var size: int
    var pageStart: int
    var sortBy: SortBy
    var sortOrder: SortOrder

    /** The dataclass constructor with every field given. */
    constructor (searchQuery: Option<string>, phrase: Option<Phrase>, idList: Option<seq<string>>,
                 size: int, pageStart: int, sortBy: SortBy, sortOrder: SortOrder)
      ensures this.searchQuery == searchQuery && this.phrase == phrase && this.idList == idList
      ensures this.size == size && this.pageStart == pageStart
      ensures this.sortBy == sortBy && this.sortOrder == sortOrder
    {
      this.searchQuery := searchQuery;
      this.phrase := phrase;
      this.idList := idList;
      this.size := size;
      this.pageStart := pageStart;
      this.sortBy := sortBy;
      this.sortOrder := sortOrder;
    }

    /** The dataclass constructor with every field left at its default:
        size 10, offset 0, relevance, descending, no search query, phrase
        or id list. */
    constructor Defaults()
      ensures searchQuery.None? && phrase.None? && idList.None?
      ensures size == DEFAULT_SIZE && pageStart == 0
      ensures sortBy == Relevance && sortOrder == Descending
    {
      searchQuery := None;
      phrase := None;
      idList := None;
      size := DEFAULT_SIZE;
      pageStart := 0;
      sortBy := Relevance;
      sortOrder := Descending;
    }

    /** `__post_init__`: parses the search query into the phrase and
        rejects a query with neither phrase nor id list. A parse failure
        leaves the phrase as it was; the `ValueError` is raised after the
        phrase has been replaced. */
    method PostInit(parse: string -> Result<Option<Phrase>, ClassicQueryParser.ParseError>)
      returns (r: Result<(), InitError>)
      modifies this
      ensures r.Ok? <==> InitPhrase(old(searchQuery), old(phrase), old(idList), parse).Ok?
      ensures r.Err? ==> r.error == InitPhrase(old(searchQuery), old(phrase), old(idList), parse).error
      ensures r.Ok? ==> phrase == InitPhrase(old(searchQuery), old(phrase), old(idList), parse).value
      ensures r == Err(NeitherPhraseNorIdList) && searchQuery.Some? ==> Ok(phrase) == parse(searchQuery.value)
      ensures r == Err(ParseFailed) ==> phrase == old(phrase)
      ensures searchQuery == old(searchQuery) && idList == old(idList)
      ensures size == old(size) && pageStart == old(pageStart)
      ensures sortBy == old(sortBy) && sortOrder == old(sortOrder)
    {
      if searchQuery.Some? {
        var parsed := parse(searchQuery.value);
        if parsed.Err? {
          return Err(ParseFailed);
        }
        phrase := parsed.value;
      }
      if phrase.None? && idList.None? {
        return Err(NeitherPhraseNorIdList);
      }
      return Ok(());
    }

    /** `to_query_string`. */
    function ToQueryString(): (r: string)
      reads this
    {
      "search_query=" + OrEmpty(searchQuery) + "&" + "id_list=" + JoinedIds(idList)
      + "&" + "start=" + IntToString(pageStart) + "&" + "max_results=" + IntToString(size)
    }
  }

  /** The query string reads back field by field: split on `&` it gives
      exactly the four `name=value` pairs, in order, when neither the
      search query nor any id contains `&`. */
  lemma ToQueryStringFields(q: ClassicAPIQuery)
    requires '&' !in OrEmpty(q.searchQuery)
    requires q.idList.Some? ==> forall i :: 0 <= i < |q.idList.value| ==> '&' !in q.idList.value[i]
    ensures Split(q.ToQueryString(), '&') == QueryFields(q.searchQuery, q.idList, q.pageStart, q.size)
  {
    var parts := QueryFields(q.searchQuery, q.idList, q.pageStart, q.size);
    JoinFour(parts[0], parts[1], parts[2], parts[3]);
    assert q.ToQueryString() == Join("&", parts);
    FieldsWithoutAmpersand(q.searchQuery, q.idList, q.pageStart, q.size);
    SplitJoin(parts, '&');
  }

  /** The four `name=value` pairs of the query string. */
  function QueryFields(sq: Option<string>, ids: Option<seq<string>>, start: int, size: int): (r: seq<string>)
    ensures |r| == 4
  {
    ["search_query=" + OrEmpty(sq), "id_list=" + JoinedIds(ids),
     "start=" + IntToString(start), "max_results=" + IntToString(size)]
  }

  lemma FieldsWithoutAmpersand(sq: Option<string>, ids: Option<seq<string>>, start: int, size: int)
    requires '&' !in OrEmpty(sq)
    requires ids.Some? ==> forall i :: 0 <= i < |ids.value| ==> '&' !in ids.value[i]
    ensures forall i :: 0 <= i < 4 ==> '&' !in QueryFields(sq, ids, start, size)[i]
  {
    if ids.Some? && ids.value != [] {
      JoinAvoids(",", ids.value, '&');
    }
    NoAmpersandInNumber(start);
    NoAmpersandInNumber(size);
    assert '&' !in "search_query=" && '&' !in "id_list=";
    assert '&' !in "start=" && '&' !in "max_results=";
  }

  lemma JoinFour(a: string, b: string, c: string, d: string)
    ensures Join("&", [a, b, c, d]) == a + "&" + b + "&" + c + "&" + d
  {
    assert [a, b, c, d][1..] == [b, c, d];
    assert [b, c, d][1..] == [c, d];
    assert [c, d][1..] == [d];
    assert Join("&", [c, d]) == c + "&" + d;
    assert Join("&", [b, c, d]) == b + "&" + (c + "&" + d);
  }

  lemma NoAmpersandInNumber(n: int)
    ensures '&' !in IntToString(n)
    decreases if n < 0 then 1 else 0
  {
    if n < 0 {
      NoAmpersandInNumber(-n);
    }
  }

  /** A search query always replaces the phrase with its parse, whatever
      phrase the query was constructed with. */
  lemma SearchQueryReplacesPhrase(
    sq: string, phrase: Option<Phrase>, idList: Option<seq<string>>,
    parse: string -> Result<Option<Phrase>, ClassicQueryParser.ParseError>)
    requires parse(sq).Ok?
    ensures InitPhrase(Some(sq), phrase, idList, parse).Ok? <==> parse(sq).value.Some? || idList.Some?
    ensures InitPhrase(Some(sq), phrase, idList, parse).Ok?
            ==> InitPhrase(Some(sq), phrase, idList, parse).value == parse(sq).value
  {
  }
}
