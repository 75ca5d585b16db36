/** The classic arXiv API controller (search/controllers/classic_api/__init__.py):
    validation of the request parameters, in the order the controller checks
    them, and construction of the `ClassicAPIQuery`. Whether an id is a
    well-formed arXiv identifier is decided by `parse_arxiv_id`, which is not
    part of this model: it is passed in as `validId`. */
module ClassicApiController {
  import opened Wrappers
  import opened Strings
  import opened Phrases
  import opened ClassicQuery
  import ClassicQueryParser
  import ApiController

  type MultiDict = ApiController.MultiDict

  /** What the controller raises: a `ValidationError` with its message and
      link, a `BadRequest`, or the phrase parser's own `BadRequest`. */
  datatype QueryError =
    | ValidationError(message: string, link: string)
    | BadRequest(message: string)
    | InvalidPhrase

  const ERRORS_URL: string := "http://arxiv.org/api/errors#"
  const SORT_HELP_URL: string := "https://arxiv.org/help/api/user-manual#sort"

  /** The offset of the first id `validId` rejects, if any. */
  function FirstInvalid(ids: seq<string>, validId: string -> bool): (r: Option<nat>)
    ensures r.Some? ==> r.value < |ids| && !validId(ids[r.value])
    ensures r.Some? ==> forall i :: 0 <= i < r.value ==> validId(ids[i])
    ensures r.None? ==> forall i :: 0 <= i < |ids| ==> validId(ids[i])
  {
    if ids == [] then None
    else if !validId(ids[0]) then Some(0)
    else
      var rest := FirstInvalid(ids[1..], validId);
      assert forall i :: 1 <= i < |ids| ==> ids[i] == ids[1..][i - 1];
      if rest.Some? then Some(rest.value + 1) else None
  }

  /** The `id_list` parameter: absent or empty gives no id list; otherwise
      its comma-separated ids, the first one `validId` rejects raising a
      `ValidationError` that names it. */
  function IdListParam(params: MultiDict, validId: string -> bool): (r: Result<Option<seq<string>>, QueryError>)
    ensures ApiController.Get(params, "id_list").GetOr("") == "" ==> r == Ok(None)
    ensures r.Ok? && r.value.Some? ==>
              Join(",", r.value.value) == ApiController.Get(params, "id_list").value
              && forall i :: 0 <= i < |r.value.value| ==> validId(r.value.value[i])
    ensures r.Err? ==>
              var ids := Split(ApiController.Get(params, "id_list").value, ',');
              exists i :: 0 <= i < |ids| && !validId(ids[i]) && (forall j :: 0 <= j < i ==> validId(ids[j]))
                && r.error == ValidationError("incorrect id format for " + ids[i], ERRORS_URL + "incorrect_id_format_for_" + ids[i])
  {
    var raw := ApiController.Get(params, "id_list").GetOr("");
    if raw == "" then Ok(None)
    else
      var ids := Split(raw, ',');
      JoinSplit(raw, ',');
      match FirstInvalid(ids, validId)
      case Some(i) =>
        var id := ids[i];
        Err(ValidationError("incorrect id format for " + id, ERRORS_URL + "incorrect_id_format_for_" + id))
      case None => Ok(Some(ids))
  }

  /** A non-negative integer parameter (`max_results`, `start`): its
      default when absent, else `int()` of its value, which must succeed
      and must not be negative. */
  function CountParam(params: MultiDict, name: string, default: nat): (r: Result<int, QueryError>)
    ensures r.Ok? ==> r.value >= 0
    ensures ApiController.Get(params, name).None? ==> r == Ok(default)
    ensures r.Ok? && ApiController.Get(params, name).Some? ==>
              ParseInt(ApiController.Get(params, name).value) == Some(r.value)
    ensures r.Err? <==>
              ApiController.Get(params, name).Some? &&
              (ParseInt(ApiController.Get(params, name).value).None? || ParseInt(ApiController.Get(params, name).value).value < 0)
    ensures r.Err? ==>
              if ParseInt(ApiController.Get(params, name).value).None? then
                r.error == ValidationError(name + " must be an integer", ERRORS_URL + name + "_must_be_an_integer")
              else r.error == ValidationError(name + " must be non-negative", ERRORS_URL + name + "_must_be_non-negative")
  {
    match ApiController.Get(params, name)
    case None => Ok(default)
    case Some(s) =>
      match ParseInt(s)
      case None => Err(ValidationError(name + " must be an integer", ERRORS_URL + name + "_must_be_an_integer"))
      case Some(n) =>
        if n < 0 then Err(ValidationError(name + " must be non-negative", ERRORS_URL + name + "_must_be_non-negative"))
        else Ok(n)
  }

  /** Any count written as `str(n)` is accepted as `n`. */
  lemma CountParamOfNumber(params: MultiDict, name: string, default: nat, n: nat)
    requires ApiController.Get(params, name) == Some(IntToString(n))
    ensures CountParam(params, name, default) == Ok(n)
  {
    ParseIntOfIntToString(n);
  }

  /** `sortBy`: relevance when absent, else one of the enum's values. */
  function SortByParam(params: MultiDict): (r: Result<SortBy, QueryError>)
    ensures ApiController.Get(params, "sortBy").None? ==> r == Ok(Relevance)
    ensures ApiController.Get(params, "sortBy").Some? ==>
              (r.Ok? <==> exists s :: SortByText(s) == ApiController.Get(params, "sortBy").value)
    ensures r.Ok? && ApiController.Get(params, "sortBy").Some? ==> SortByText(r.value) == ApiController.Get(params, "sortBy").value
    ensures r.Err? ==> r.error == ValidationError("sortBy must be in: relevance, lastUpdatedDate, submittedDate", SORT_HELP_URL)
  {
    match ApiController.Get(params, "sortBy")
    case None => Ok(Relevance)
    case Some(v) =>
      match SortByOf(v)
      case Some(s) => Ok(s)
      case None =>
        Err(ValidationError("sortBy must be in: relevance, lastUpdatedDate, submittedDate", SORT_HELP_URL))
  }

  /** `sortOrder`: descending when absent, else one of the enum's values. */
  function SortOrderParam(params: MultiDict): (r: Result<SortOrder, QueryError>)
    ensures ApiController.Get(params, "sortOrder").None? ==> r == Ok(Descending)
    ensures ApiController.Get(params, "sortOrder").Some? ==>
              (r.Ok? <==> exists s :: SortOrderText(s) == ApiController.Get(params, "sortOrder").value)
    ensures r.Ok? && ApiController.Get(params, "sortOrder").Some? ==> SortOrderText(r.value) == ApiController.Get(params, "sortOrder").value
    ensures r.Err? ==> r.error == ValidationError("sortOrder must be in: ascending, descending", SORT_HELP_URL)
  {
    match ApiController.Get(params, "sortOrder")
    case None => Ok(Descending)
    case Some(v) =>
      match SortOrderOf(v)
      case Some(s) => Ok(s)
      case None =>
        Err(ValidationError("sortOrder must be in: ascending, descending", SORT_HELP_URL))
  }

  /** The validated arguments of the query. */
  datatype QueryArgs = QueryArgs(
    searchQuery: Option<string>, idList: Option<seq<string>>,
    size: int, pageStart: int, sortBy: SortBy, sortOrder: SortOrder)

  /** The checks in the controller's order, ids, `max_results`, `start`,
      `sortBy`, `sortOrder`: the first that fails decides the error. */
  function ValidateParams(params: MultiDict, validId: string -> bool): (r: Result<QueryArgs, QueryError>)
    ensures r.Ok? <==>
              IdListParam(params, validId).Ok? && CountParam(params, "max_results", DEFAULT_SIZE).Ok?
              && CountParam(params, "start", 0).Ok? && SortByParam(params).Ok? && SortOrderParam(params).Ok?
    ensures IdListParam(params, validId).Err? ==> r == Err(IdListParam(params, validId).error)
    ensures IdListParam(params, validId).Ok? && CountParam(params, "max_results", DEFAULT_SIZE).Err? ==>
              r == Err(CountParam(params, "max_results", DEFAULT_SIZE).error)
    ensures IdListParam(params, validId).Ok? && CountParam(params, "max_results", DEFAULT_SIZE).Ok?
            && CountParam(params, "start", 0).Err? ==>
              r == Err(CountParam(params, "start", 0).error)
    ensures IdListParam(params, validId).Ok? && CountParam(params, "max_results", DEFAULT_SIZE).Ok?
            && CountParam(params, "start", 0).Ok? && SortByParam(params).Err? ==>
              r == Err(SortByParam(params).error)
    ensures IdListParam(params, validId).Ok? && CountParam(params, "max_results", DEFAULT_SIZE).Ok?
            && CountParam(params, "start", 0).Ok? && SortByParam(params).Ok? && SortOrderParam(params).Err? ==>
              r == Err(SortOrderParam(params).error)
    ensures r.Ok? ==> r.value.sortBy == SortByParam(params).value && r.value.sortOrder == SortOrderParam(params).value
    ensures r.Ok? ==> r.value.searchQuery == ApiController.Get(params, "search_query")
    ensures r.Ok? ==> r.value.idList == IdListParam(params, validId).value
    ensures r.Ok? ==> r.value.size == CountParam(params, "max_results", DEFAULT_SIZE).value
    ensures r.Ok? ==> r.value.pageStart == CountParam(params, "start", 0).value
  {
    match IdListParam(params, validId)
    case Err(e) => Err(e)
    case Ok(ids) =>
      match CountParam(params, "max_results", DEFAULT_SIZE)
      case Err(e) => Err(e)
      case Ok(size) =>
        match CountParam(params, "start", 0)
        case Err(e) => Err(e)
        case Ok(start) =>
          match SortByParam(params)
          case Err(e) => Err(e)
          case Ok(sortBy) =>
            match SortOrderParam(params)
            case Err(e) => Err(e)
            case Ok(sortOrder) =>
              Ok(QueryArgs(ApiController.Get(params, "search_query"), ids, size, start, sortBy, sortOrder))
  }

  const NEITHER_MESSAGE: string := "Either a search_query or id_list must be specified for the classic API."

  /** `query`: validates the parameters, then builds the `ClassicAPIQuery`,
      whose construction parses the search query; a query with neither a
      phrase nor an id list becomes a `BadRequest`. The search itself is
      left to the index service and is not modelled; a built query is
      answered with status 200. */
  method Query(params: MultiDict, validId: string -> bool,
               parse: string -> Result<Option<Phrase>, ClassicQueryParser.ParseError>)
    returns (r: Result<ClassicAPIQuery, QueryError>, status: int)
    ensures ValidateParams(params, validId).Err? ==> r == Err(ValidateParams(params, validId).error)
    ensures ValidateParams(params, validId).Ok? ==>
              var args := ValidateParams(params, validId).value;
              var init := InitPhrase(args.searchQuery, None, args.idList, parse);
              && (init == Err(ParseFailed) ==> r == Err(InvalidPhrase))
              && (init == Err(NeitherPhraseNorIdList) ==> r == Err(BadRequest(NEITHER_MESSAGE)))
              && (init.Ok? ==>
                    (r.Ok? && fresh(r.value) && status == 200
                     && r.value.phrase == init.value && r.value.searchQuery == args.searchQuery
                     && r.value.idList == args.idList && r.value.size == args.size
                     && r.value.pageStart == args.pageStart
                     && r.value.sortBy == args.sortBy && r.value.sortOrder == args.sortOrder))
  {
    status := 0;
    var validated := ValidateParams(params, validId);
    if validated.Err? {
      return Err(validated.error), status;
    }
    var args := validated.value;
    var query := new ClassicAPIQuery(args.searchQuery, None, args.idList, args.size, args.pageStart,
                                     args.sortBy, args.sortOrder);
    var init := query.PostInit(parse);
    if init.Err? {
      if init.error == ParseFailed {
        return Err(InvalidPhrase), status;
      }
      return Err(BadRequest(NEITHER_MESSAGE)), status;
    }
    return Ok(query), 200;
  }
}
