/** The request and response hooks of the search user interface
    (search/routes/ui.py): some search parameters persist in a cookie and
    fill in for parameters the next request leaves out; every response gets
    the anti-framing headers; and the simple search route turns the
    controller's status code into a page, a redirect or a server error.
    The cookie's JSON encoding and decoding are parameters. */
module UiRoutes {
  import opened Wrappers
  import ApiController

  type MultiDict = ApiController.MultiDict

  /** The parameters kept in the cookie. */
  const PARAMS_TO_PERSIST: seq<string> := ["order", "size", "abstracts", "date-date_type"]

  /** The name of the cookie holding them. */
  const PARAMS_COOKIE_NAME: string := "arxiv-search-parameters"

  /** The status codes the route tells apart. */
  const HTTP_200_OK: int := 200
  const HTTP_301_MOVED_PERMANENTLY: int := 301
  const HTTP_303_SEE_OTHER: int := 303

  /** A werkzeug multi-dictionary holds at least one value for each of its
      keys. */
  predicate WellFormed(args: MultiDict)
  {
    forall k :: k in args ==> args[k] != []
  }

  /** The request: its query arguments, which the hook below replaces by a
      mutable copy, and its cookies. */
  class Request {
    var args: MultiDict
    var cookies: map<string, string>

    constructor (args: MultiDict, cookies: map<string, string>)
      ensures this.args == args && this.cookies == cookies
    {
      this.args := args;
      this.cookies := cookies;
    }
  }

  /** The response: its status code, headers and cookies. */
  class Response {
    var statusCode: int
    var headers: map<string, string>
    var cookies: map<string, string>

    /** `make_response(content)`: a page with status 200. */
    constructor ()
      ensures statusCode == HTTP_200_OK && headers == map[] && cookies == map[]
    {
      statusCode := HTTP_200_OK;
      headers := map[];
      cookies := map[];
    }

    /** `response.headers[key] = value` for every header of `hdrs`. */
    method SetHeaders(hdrs: map<string, string>)
      modifies this
      ensures headers == old(headers) + hdrs
      ensures statusCode == old(statusCode) && cookies == old(cookies)
    {
      var todo := hdrs.Keys;
      while todo != {}
        invariant todo <= hdrs.Keys
        invariant statusCode == old(statusCode) && cookies == old(cookies)
        invariant headers == old(headers) + map k | k in hdrs.Keys - todo :: hdrs[k]
        decreases todo
      {
        var key :| key in todo;
        headers := headers[key := hdrs[key]];
        todo := todo - {key};
      }
      assert hdrs.Keys - todo == hdrs.Keys;
      assert (map k | k in hdrs.Keys :: hdrs[k]) == hdrs;
    }
  }

  // ---------------------------------------------------------------------
  // get_parameters_from_cookie

  /** The arguments after the cookie's values have filled in the first
      parameters of `params`: each one the request leaves out and the cookie
      holds is set to the cookie's value alone. */
  function WithDefaults(args: MultiDict, data: map<string, string>, params: seq<string>): MultiDict
  {
    if params == [] then args
    else
      var before := WithDefaults(args, data, params[..|params| - 1]);
      var p := params[|params| - 1];
      if p !in before && p in data then before[p := [data[p]]] else before
  }

  /** The cookie never overrides a parameter the request gives, and it
      supplies exactly the persisted parameters it holds that the request
      lacks. */
  lemma {:induction false} WithDefaultsMeaning(args: MultiDict, data: map<string, string>, params: seq<string>)
    ensures var r := WithDefaults(args, data, params);
            && (forall k :: k in args ==> k in r && r[k] == args[k])
            && (forall k :: k !in args ==> (k in r <==> k in params && k in data))
            && (forall k :: k !in args && k in r ==> r[k] == [data[k]])
    decreases |params|
  {
    if params != [] {
      var init := params[..|params| - 1];
      WithDefaultsMeaning(args, data, init);
      assert forall k :: k in params <==> k in init || k == params[|params| - 1];
    }
  }

  /** `get_parameters_from_cookie`: with the cookie set, each persisted
      parameter the request leaves out takes the cookie's value; without it
      nothing changes. */
  method GetParametersFromCookie(request: Request, decode: string -> map<string, string>)
    modifies request
    ensures request.cookies == old(request.cookies)
    ensures PARAMS_COOKIE_NAME !in old(request.cookies) ==> request.args == old(request.args)
    ensures PARAMS_COOKIE_NAME in old(request.cookies) ==>
              request.args == WithDefaults(old(request.args), decode(old(request.cookies)[PARAMS_COOKIE_NAME]), PARAMS_TO_PERSIST)
  {
    if PARAMS_COOKIE_NAME !in request.cookies {
      return;
    }
    var data := decode(request.cookies[PARAMS_COOKIE_NAME]);
    for i := 0 to |PARAMS_TO_PERSIST|
      invariant request.cookies == old(request.cookies)
      invariant request.args == WithDefaults(old(request.args), data, PARAMS_TO_PERSIST[..i])
    {
      var param := PARAMS_TO_PERSIST[i];
      assert PARAMS_TO_PERSIST[..i + 1][..i] == PARAMS_TO_PERSIST[..i];
      if param !in request.args && param in data {
        request.args := request.args[param := [data[param]]];
      }
    }
    assert PARAMS_TO_PERSIST[..|PARAMS_TO_PERSIST|] == PARAMS_TO_PERSIST;
  }

  // ---------------------------------------------------------------------
  // set_parameters_in_cookie

  /** The cookie's contents: the first value of each persisted parameter
      the request has. */
  function Persisted(args: MultiDict): (data: map<string, string>)
    requires WellFormed(args)
    ensures forall k :: k in data <==> k in PARAMS_TO_PERSIST && k in args
    ensures forall k :: k in data ==> data[k] == args[k][0]
  {
    map k | k in PARAMS_TO_PERSIST && k in args :: args[k][0]
  }

  /** `set_parameters_in_cookie`: a successful response stores the
      persisted parameters; any other leaves the cookies alone. */
  method SetParametersInCookie(response: Response, args: MultiDict, encode: map<string, string> -> string)
    requires WellFormed(args)
    modifies response
    ensures response.statusCode == old(response.statusCode) && response.headers == old(response.headers)
    ensures response.cookies ==
              if old(response.statusCode) == HTTP_200_OK
              then old(response.cookies)[PARAMS_COOKIE_NAME := encode(Persisted(args))]
              else old(response.cookies)
  {
    if response.statusCode == HTTP_200_OK {
      var data := Persisted(args);
      response.cookies := response.cookies[PARAMS_COOKIE_NAME := encode(data)];
    }
  }

  /** The cookie a successful search sets restores its persisted parameters
      (their first values) on a later request that leaves them out, and
      leaves the later request's other parameters as they are. */
  lemma CookieRestoresParameters(earlier: MultiDict, later: MultiDict)
    requires WellFormed(earlier)
    requires forall p :: p in PARAMS_TO_PERSIST ==> p !in later
    ensures var r := WithDefaults(later, Persisted(earlier), PARAMS_TO_PERSIST);
            && (forall p :: p in PARAMS_TO_PERSIST ==> (p in r <==> p in earlier))
            && (forall p :: p in PARAMS_TO_PERSIST && p in r ==> r[p] == [earlier[p][0]])
            && (forall k :: k in later ==> k in r && r[k] == later[k])
  {
    WithDefaultsMeaning(later, Persisted(earlier), PARAMS_TO_PERSIST);
  }

  // ---------------------------------------------------------------------
  // apply_response_headers

  /** The headers with the two anti-framing headers set. */
  function Secured(headers: map<string, string>): (r: map<string, string>)
    ensures r.Keys == headers.Keys + {"Content-Security-Policy", "X-Frame-Options"}
    ensures r["Content-Security-Policy"] == "frame-ancestors 'none'" && r["X-Frame-Options"] == "SAMEORIGIN"
    ensures forall k :: k in headers && k != "Content-Security-Policy" && k != "X-Frame-Options" ==> r[k] == headers[k]
  {
    headers["Content-Security-Policy" := "frame-ancestors 'none'"]["X-Frame-Options" := "SAMEORIGIN"]
  }

  /** Applying the headers twice is applying them once. */
  lemma SecuredIdempotent(headers: map<string, string>)
    ensures Secured(Secured(headers)) == Secured(headers)
  {
    var once := Secured(headers);
    var twice := Secured(once);
    assert twice.Keys == once.Keys;
    assert forall k :: k in once ==> twice[k] == once[k];
  }

  /** `apply_response_headers`: no page may be framed by another site. */
  method ApplyResponseHeaders(response: Response)
    modifies response
    ensures response.headers == Secured(old(response.headers))
    ensures response.statusCode == old(response.statusCode) && response.cookies == old(response.cookies)
  {
    response.headers := response.headers["Content-Security-Policy" := "frame-ancestors 'none'"];
    response.headers := response.headers["X-Frame-Options" := "SAMEORIGIN"];
  }

  // ---------------------------------------------------------------------
  // search

  /** What the simple search route answers with. */
  datatype Outcome =
    | Page(headers: map<string, string>)
    | Redirect(location: string, code: int)

  datatype RouteError = KeyError(key: string) | InternalServerError(message: string)

  /** `search`: a page carrying the controller's headers on 200, a redirect
      to the controller's `Location` on 301 or 303, and a server error on
      any other code. */
  method Search(code: int, hdrs: map<string, string>) returns (r: Result<Outcome, RouteError>)
    ensures r.Ok? && r.value.Page? <==> code == HTTP_200_OK
    ensures r.Ok? && r.value.Page? ==> r.value.headers == hdrs
    ensures r.Ok? && r.value.Redirect? <==> (code == HTTP_301_MOVED_PERMANENTLY || code == HTTP_303_SEE_OTHER) && "Location" in hdrs
    ensures r.Ok? && r.value.Redirect? ==> r.value.location == hdrs["Location"] && r.value.code == code
    ensures (code == HTTP_301_MOVED_PERMANENTLY || code == HTTP_303_SEE_OTHER) && "Location" !in hdrs ==> r == Err(KeyError("Location"))
    ensures code != HTTP_200_OK && code != HTTP_301_MOVED_PERMANENTLY && code != HTTP_303_SEE_OTHER ==>
              r == Err(InternalServerError("Unexpected error"))
  {
    if code == HTTP_200_OK {
      var response := new Response();
      response.SetHeaders(hdrs);
      assert map[] + hdrs == hdrs;
      return Ok(Page(response.headers));
    } else if code == HTTP_301_MOVED_PERMANENTLY || code == HTTP_303_SEE_OTHER {
      if "Location" !in hdrs {
        return Err(KeyError("Location"));
      }
      return Ok(Redirect(hdrs["Location"], code));
    }
    r := Err(InternalServerError("Unexpected error"));
  }
}
