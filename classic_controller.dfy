/** The legacy classic API controller (search/controllers/classic/__init__.py),
    which parses its parameters leniently: malformed counts fall back to
    their defaults instead of raising. Its phrase parser,
    `search.controllers.classic.classic_parser`, is not part of this model:
    it is passed in as `parse`, `None` standing for the exception it raises. */
module LegacyClassicController {
  import opened Wrappers
  import opened Strings
  import opened Phrases
  import opened ClassicQuery
  import ClassicQueryParser
  import ApiController

  type MultiDict = ApiController.MultiDict

  /** What the controller raises. */
  datatype LegacyError =
    | ParserRaised
    | BadRequest(message: string)

  const DEFAULT_MAX_RESULTS: int := 50

  /** The phrase: parsed only from a non-empty `search_query`. */
  function PhraseParam(params: MultiDict, parse: string -> Option<Phrase>): (r: Option<Option<Phrase>>)
    ensures ApiController.Get(params, "search_query").GetOr("") == "" ==> r == Some(None)
    ensures ApiController.Get(params, "search_query").GetOr("") != "" ==>
              (r.None? <==> parse(ApiController.Get(params, "search_query").value).None?)
    ensures r.Some? && r.value.Some? ==>
              ApiController.Get(params, "search_query").Some?
              && parse(ApiController.Get(params, "search_query").value) == r.value
  {
    var raw := ApiController.Get(params, "search_query").GetOr("");
    if raw == "" then Some(None)
    else
      match parse(raw)
      case None => None
      case Some(p) => Some(Some(p))
  }

  /** The id list: `id_list` split on commas when non-empty, else none. */
  function IdListParam(params: MultiDict): (r: Option<seq<string>>)
    ensures r.None? <==> ApiController.Get(params, "id_list").GetOr("") == ""
    ensures r.Some? ==> Join(",", r.value) == ApiController.Get(params, "id_list").value
  {
    var raw := ApiController.Get(params, "id_list").GetOr("");
    if raw == "" then None
    else
      JoinSplit(raw, ',');
      Some(Split(raw, ','))
  }

  /** An integer parameter read leniently: the default when absent or when
      `int()` rejects the value, which is otherwise kept even if negative. */
  function LenientInt(params: MultiDict, name: string, default: int): (r: int)
    ensures ApiController.Get(params, name).Some? && ParseInt(ApiController.Get(params, name).value).Some? ==>
              r == ParseInt(ApiController.Get(params, name).value).value
    ensures ApiController.Get(params, name).None? || ParseInt(ApiController.Get(params, name).value).None? ==>
              r == default
  {
    match ApiController.Get(params, name)
    case None => default
    case Some(s) =>
      match ParseInt(s)
      case None => default
      case Some(n) => n
  }

  /** Any integer written as `str(n)`, negative ones included, is kept. */
  lemma LenientIntOfNumber(params: MultiDict, name: string, default: int, n: int)
    requires ApiController.Get(params, name) == Some(IntToString(n))
    ensures LenientInt(params, name, default) == n
  {
    ParseIntOfIntToString(n);
  }

  const NEITHER_MESSAGE: string := "Either a search_query or id_list must be specified for the classic API."

  /** `query`: the phrase, id list and page parameters, then the
      `ClassicAPIQuery` with relevance order; a query with neither a phrase
      nor an id list becomes a `BadRequest`. The search itself is left to
      the index service and is not modelled; a built query is answered with
      status 200. */
  method Query(params: MultiDict, parse: string -> Option<Phrase>)
    returns (r: Result<ClassicAPIQuery, LegacyError>, status: int)
    ensures PhraseParam(params, parse).None? ==> r == Err(ParserRaised)
    ensures PhraseParam(params, parse) == Some(None) && IdListParam(params).None? ==>
              r == Err(BadRequest(NEITHER_MESSAGE))
    ensures r.Ok? <==> PhraseParam(params, parse).Some? && (PhraseParam(params, parse).value.Some? || IdListParam(params).Some?)
    ensures r.Ok? ==>
              fresh(r.value) && status == 200
              && r.value.phrase == PhraseParam(params, parse).value && r.value.searchQuery.None?
              && r.value.idList == IdListParam(params)
              && r.value.size == LenientInt(params, "max_results", DEFAULT_MAX_RESULTS)
              && r.value.pageStart == LenientInt(params, "start", 0)
              && r.value.sortBy == Relevance && r.value.sortOrder == Descending
  {
    status := 0;
    var phrase := PhraseParam(params, parse);
    if phrase.None? {
      return Err(ParserRaised), status;
    }
    var idList := IdListParam(params);
    var size := LenientInt(params, "max_results", DEFAULT_MAX_RESULTS);
    var pageStart := LenientInt(params, "start", 0);
    var query := new ClassicAPIQuery(None, phrase.value, idList, size, pageStart, Relevance, Descending);
    var init := query.PostInit((s: string) => Ok(None));
    if init.Err? {
      return Err(BadRequest(NEITHER_MESSAGE)), status;
    }
    return Ok(query), 200;
  }
}
