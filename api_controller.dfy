/** The search API controller of `search/controllers/api/__init__.py`: the
    `query=` mini-language, the fielded terms and include fields read from
    the request, classification terms, and the id handling of the classic
    endpoint. Request parameters are a multi-dictionary: each name maps to
    its values in order. */
module ApiController {
  import opened Wrappers
  import opened Strings
  import Phrases
  import ApiClassicParser
  import opened DomainBase
  import opened DomainAdvanced

  /** The exceptions the controller raises or lets escape. */
  datatype ApiError =
    | BadRequest(message: string)
    | ValueError
    | KeyError(key: string)
    | ParseFailure(error: ApiClassicParser.ParseError)
    | NotFound(message: string)
    | Unhandled(name: string)

  /** A werkzeug `MultiDict`: every parameter name with its values. */
  type MultiDict = map<string, seq<string>>

  /** `params.getlist(name)`. */
  function GetList(params: MultiDict, name: string): seq<string>
  {
    if name in params then params[name] else []
  }

  /** `params.get(name)`: the first value, if any. */
  function Get(params: MultiDict, name: string): Option<string>
  {
    var vs := GetList(params, name);
    if vs == [] then None else Some(vs[0])
  }

  // ---------------------------------------------------------------------
  // _parse_search_query

  /** The parameter each query prefix stands for (`SEARCH_QUERY_FIELDS`). */
  function ParamName(f: Phrases.Field): string
  {
    match f
    case Title => "title"
    case Author => "author"
    case Abstract => "abstract"
    case Comment => "comments"
    case JournalReference => "journal_ref"
    case SubjectCategory => "primary_classification"
    case ReportNumber => "report_number"
    case Identifier => "paper_id"
    case All => "all"
  }

  /** `SEARCH_QUERY_FIELDS[prefix]`; `None` is the `KeyError`. */
  function SearchQueryField(prefix: string): (r: Option<string>)
    ensures r.Some? <==> Phrases.FieldOf(prefix).Some?
  {
    match Phrases.FieldOf(prefix)
    case None => None
    case Some(f) => Some(ParamName(f))
  }

  predicate IsOperatorWord(term: string)
  {
    term == "AND" || term == "OR" || term == "ANDNOT" || term == "NOT"
  }

  /** A value that opens a quote it does not close in the same word. */
  predicate OpensQuote(value: string)
  {
    StartsWith(value, "\"") && !EndsWith(value, "\"")
  }

  /** The loop's variables between two words: `expect_new`, `next_operator`,
      the parameter the last field word named (the loop keeps that word's
      prefix and looks it up again for each continuation word, which comes
      to the same) and the two dictionaries. */
  datatype QueryState = QueryState(
    expectNew: bool,
    nextOperator: string,
    field: string,
    params: map<string, string>,
    operators: map<string, string>)

  const InitialState: QueryState := QueryState(true, "AND", "", map[], map[])

  /** Inside a quote the last field word named a known field whose value
      has been recorded, so the continuation can extend it. */
  predicate Consistent(st: QueryState)
  {
    !st.expectNew ==> st.field in st.params
  }

  /** One turn of the loop of `_parse_search_query`. */
  function Step(st: QueryState, term: string): (r: Result<QueryState, ApiError>)
    requires Consistent(st)
    ensures r.Ok? ==> Consistent(r.value)
    ensures r.Err? ==> r.error.ValueError? || r.error.KeyError?
  {
    if st.expectNew && IsOperatorWord(term) then
      Ok(st.(nextOperator := if term == "ANDNOT" then "NOT" else term))
    else if st.expectNew then
      var parts := Split(term, ':');
      if |parts| != 2 then Err(ValueError)
      else
        match SearchQueryField(parts[0])
        case None => Err(KeyError(parts[0]))
        case Some(name) =>
          Ok(QueryState(!OpensQuote(parts[1]), st.nextOperator, name,
                        st.params[name := Remove(parts[1], '"')],
                        st.operators[name := st.nextOperator]))
    else
      var name := st.field;
      var closes := EndsWith(term, "\"");
      var piece := if closes then Remove(term, '"') else term;
      Ok(st.(expectNew := closes, params := st.params[name := st.params[name] + " " + piece]))
  }

  /** The loop run over `terms` from state `st`; the first exception ends it. */
  function Run(st: QueryState, terms: seq<string>): (r: Result<QueryState, ApiError>)
    requires Consistent(st)
    ensures r.Ok? ==> Consistent(r.value)
    ensures r.Err? ==> r.error.ValueError? || r.error.KeyError?
    decreases |terms|
  {
    if terms == [] then Ok(st)
    else
      match Run(st, terms[..|terms| - 1])
      case Err(e) => Err(e)
      case Ok(s) => Step(s, terms[|terms| - 1])
  }

  /** `_parse_search_query(query)`: the operators and the parameters. The
      source's operator `defaultdict` also holds the plain key
      `default_factory`, mapped to its lambda, because the factory went in
      as a keyword; that key is left out of the operator map here, and no
      field of `SEARCH_QUERY_FIELDS` or `SUPPORTED_FIELDS` is named so. */
  function SearchQueryOf(query: string): (r: Result<(map<string, string>, map<string, string>), ApiError>)
    ensures r.Err? ==> r.error.ValueError? || r.error.KeyError?
  {
    match Run(InitialState, SplitWs(query))
    case Err(e) => Err(e)
    case Ok(st) => Ok((st.operators, st.params))
  }

  lemma {:induction false} RunFailurePersists(st: QueryState, terms: seq<string>, k: nat)
    requires Consistent(st) && k <= |terms| && Run(st, terms[..k]).Err?
    ensures Run(st, terms) == Run(st, terms[..k])
    decreases |terms| - k
  {
    if k < |terms| {
      assert terms[..k + 1][..k] == terms[..k];
      RunFailurePersists(st, terms, k + 1);
    } else {
      assert terms[..k] == terms;
    }
  }

  /** `_parse_search_query`: a loop over the whitespace-separated words. */
  method ParseSearchQuery(query: string) returns (r: Result<(map<string, string>, map<string, string>), ApiError>)
    ensures r == SearchQueryOf(query)
  {
    var terms := SplitWs(query);
    var expectNew := true;
    var nextOperator := "AND";
    var field := "";
    var params: map<string, string> := map[];
    var operators: map<string, string> := map[];
    var k := 0;
    ghost var st := InitialState;
    ghost var done: seq<string> := [];
    while k < |terms|
      invariant k <= |terms| && done == terms[..k]
      invariant st == QueryState(expectNew, nextOperator, field, params, operators)
      invariant Consistent(st) && Run(InitialState, done) == Ok(st)
    {
      var term := terms[k];
      ghost var before := st;
      RunSnoc(terms, k);
      if expectNew && IsOperatorWord(term) {
        nextOperator := if term == "ANDNOT" then "NOT" else term;
      } else if expectNew {
        var parts := Split(term, ':');
        if |parts| != 2 {
          r := Err(ValueError);
          assert Step(before, term).Err?;
          RunFailurePersists(InitialState, terms, k + 1);
          return;
        }
        var prefix := parts[0];
        var value := parts[1];
        if OpensQuote(value) {
          expectNew := false;
        } else {
          expectNew := true;
        }
        value := Remove(value, '"');
        var name := SearchQueryField(prefix);
        if name.None? {
          r := Err(KeyError(prefix));
          assert Step(before, term).Err?;
          RunFailurePersists(InitialState, terms, k + 1);
          return;
        }
        field := name.value;
        params := params[field := value];
        operators := operators[field := nextOperator];
      } else {
        if EndsWith(term, "\"") {
          expectNew := true;
          term := Remove(term, '"');
        }
        params := params[field := params[field] + " " + term];
      }
      st := QueryState(expectNew, nextOperator, field, params, operators);
      assert Step(before, terms[k]) == Ok(st);
      done := terms[..k + 1];
      k := k + 1;
    }
    assert done == terms;
    r := Ok((operators, params));
  }

  /** One more word is one more step of the loop. */
  lemma RunSnoc(terms: seq<string>, k: nat)
    requires k < |terms| && Run(InitialState, terms[..k]).Ok?
    ensures Run(InitialState, terms[..k + 1]) == Step(Run(InitialState, terms[..k]).value, terms[k])
  {
    assert terms[..k + 1][..k] == terms[..k] && terms[..k + 1][k] == terms[k];
  }

  /** Running over two stretches of words is running over the first and then
      over the second from where the first left off. */
  lemma {:induction false} RunConcat(st: QueryState, a: seq<string>, b: seq<string>)
    requires Consistent(st)
    ensures Run(st, a + b) == match Run(st, a) case Err(e) => Err(e) case Ok(s) => Run(s, b)
    decreases |b|
  {
    if b == [] {
      assert a + b == a;
    } else {
      var n := |b| - 1;
      assert (a + b)[..|a + b| - 1] == a + b[..n];
      assert (a + b)[|a + b| - 1] == b[n];
      RunConcat(st, a, b[..n]);
    }
  }

  predicate NormalOperator(op: string)
  {
    op == "AND" || op == "OR" || op == "NOT"
  }

  /** The pending operator and every recorded operator is `AND`, `OR` or
      `NOT`: `ANDNOT` never survives. */
  predicate Normalised(st: QueryState)
  {
    NormalOperator(st.nextOperator) && forall k :: k in st.operators ==> NormalOperator(st.operators[k])
  }

  /** Parsing keeps operators normalised, so `ANDNOT` is always read as
      `NOT`. */
  lemma {:induction false} RunNormalises(st: QueryState, terms: seq<string>)
    requires Consistent(st) && Normalised(st) && Run(st, terms).Ok?
    ensures Normalised(Run(st, terms).value)
    decreases |terms|
  {
    if terms != [] {
      RunNormalises(st, terms[..|terms| - 1]);
    }
  }

  /** Every operator parsed from a query is `AND`, `OR` or `NOT`, and every
      parameter the query sets has its operator recorded. */
  lemma ParsedOperators(query: string)
    requires SearchQueryOf(query).Ok?
    ensures forall k :: k in SearchQueryOf(query).value.0 ==> NormalOperator(SearchQueryOf(query).value.0[k])
    ensures SearchQueryOf(query).value.1.Keys == SearchQueryOf(query).value.0.Keys
  {
    RunNormalises(InitialState, SplitWs(query));
    RunKeys(InitialState, SplitWs(query));
  }

  lemma {:induction false} RunKeys(st: QueryState, terms: seq<string>)
    requires Consistent(st) && st.params.Keys == st.operators.Keys && Run(st, terms).Ok?
    ensures Run(st, terms).value.params.Keys == Run(st, terms).value.operators.Keys
    decreases |terms|
  {
    if terms != [] {
      RunKeys(st, terms[..|terms| - 1]);
    }
  }

  /** The pending operator persists until an operator word replaces it. */
  lemma {:induction false} OperatorPersists(st: QueryState, terms: seq<string>)
    requires Consistent(st) && Run(st, terms).Ok?
    requires forall k :: 0 <= k < |terms| ==> !IsOperatorWord(terms[k])
    ensures Run(st, terms).value.nextOperator == st.nextOperator
    decreases |terms|
  {
    if terms != [] {
      OperatorPersists(st, terms[..|terms| - 1]);
    }
  }

  /** An operator word outside a quote sets the pending operator, `ANDNOT`
      as `NOT`, and changes nothing else. */
  lemma OperatorWordSets(st: QueryState, w: string)
    requires Consistent(st) && st.expectNew && IsOperatorWord(w)
    ensures Step(st, w) == Ok(st.(nextOperator := if w == "ANDNOT" then "NOT" else w))
    ensures NormalOperator(Step(st, w).value.nextOperator)
  {
  }

  /** A `prefix:value` word outside a quote, with a known prefix, records
      the prefix's parameter with the value's quotes removed and the pending
      operator, and opens a quote exactly when the value starts with `"` and
      does not end with one. */
  lemma FieldWordRecords(st: QueryState, p: string, v: string)
    requires Consistent(st) && st.expectNew && ':' !in p && ':' !in v
    requires SearchQueryField(p).Some?
    ensures Step(st, p + ":" + v) == Ok(QueryState(
      !OpensQuote(v), st.nextOperator, SearchQueryField(p).value,
      st.params[SearchQueryField(p).value := Remove(v, '"')],
      st.operators[SearchQueryField(p).value := st.nextOperator]))
  {
    FieldWordSplits(p, v);
  }

  /** A `prefix:value` word with one colon is no operator word and splits
      into its prefix and its value. */
  lemma FieldWordSplits(p: string, v: string)
    requires ':' !in p && ':' !in v
    ensures Split(p + ":" + v, ':') == [p, v]
    ensures !IsOperatorWord(p + ":" + v)
  {
    var t := p + ":" + v;
    assert t == p + [':'] + v;
    SplitAfter(p, ':', v);
    SplitNone(v, ':');
    assert t[|p|] == ':';
    assert ':' !in "AND" && ':' !in "OR" && ':' !in "ANDNOT" && ':' !in "NOT";
  }

  /** The words appended inside a quote, each after a space. */
  function Spaced(words: seq<string>): string
  {
    if words == [] then "" else Spaced(words[..|words| - 1]) + " " + words[|words| - 1]
  }

  /** No word ends in `"`. */
  predicate NoneCloses(words: seq<string>)
  {
    forall k :: 0 <= k < |words| ==> !EndsWith(words[k], "\"")
  }

  /** The state after `words` continue the quoted value of `st`. */
  function Continued(st: QueryState, words: seq<string>): QueryState
    requires st.field in st.params
  {
    st.(params := st.params[st.field := st.params[st.field] + Spaced(words)])
  }

  /** Inside a quote, words that do not end in `"` are appended verbatim to
      the quoted field's value, separated by spaces, and the quote stays
      open; nothing else changes. */
  lemma {:induction false} QuoteContinues(st: QueryState, words: seq<string>)
    requires Consistent(st) && !st.expectNew
    requires NoneCloses(words)
    ensures Run(st, words) == Ok(Continued(st, words))
    decreases |words|
  {
    if words == [] {
      QuoteNoWords(st);
    } else {
      var n := |words| - 1;
      assert NoneCloses(words[..n]) by {
        assert forall k :: 0 <= k < n ==> words[..n][k] == words[k];
      }
      QuoteContinues(st, words[..n]);
      QuoteSnoc(st, words);
    }
  }

  /** One more word inside the quote is appended after a space. */
  lemma QuoteSnoc(st: QueryState, words: seq<string>)
    requires Consistent(st) && !st.expectNew && words != []
    requires !EndsWith(words[|words| - 1], "\"")
    requires Run(st, words[..|words| - 1]) == Ok(Continued(st, words[..|words| - 1]))
    ensures Run(st, words) == Ok(Continued(st, words))
  {
    var n := |words| - 1;
    var name := st.field;
    var a := st.params[name];
    var b := Spaced(words[..n]);
    var s := st.(params := st.params[name := a + b]);
    assert Run(st, words) == Step(s, words[n]);
    ContinueStep(s, words[n]);
    assert Spaced(words) == b + " " + words[n];
    AppendWord(a, b, words[n]);
    Overwrite(st.params, name, a + b, a + Spaced(words));
  }

  /** No more words inside the quote leave the state as it is. */
  lemma QuoteNoWords(st: QueryState)
    requires Consistent(st) && !st.expectNew
    ensures Run(st, []) == Ok(Continued(st, []))
  {
    assert st.params[st.field] + "" == st.params[st.field];
    Rewrite(st.params, st.field);
  }

  /** Setting a key to the value it has changes nothing. */
  lemma Rewrite(m: map<string, string>, k: string)
    requires k in m
    ensures m[k := m[k]] == m
  {
  }

  /** Setting a key twice keeps the second value. */
  lemma Overwrite(m: map<string, string>, k: string, x: string, y: string)
    ensures m[k := x][k := y] == m[k := y]
  {
  }

  /** Appending a word after a space to a concatenation. */
  lemma AppendWord(a: string, b: string, w: string)
    ensures a + b + " " + w == a + (b + " " + w)
  {
    AppendAssoc(a + b, " ", w);
    AppendAssoc(a, b, " " + w);
    AppendAssoc(b, " ", w);
  }

  lemma ContinueStep(s: QueryState, w: string)
    requires Consistent(s) && !s.expectNew && !EndsWith(w, "\"")
    ensures Step(s, w) == Ok(s.(params := s.params[s.field
                                 := s.params[s.field] + " " + w]))
  {
  }

  /** A word ending in `"` closes the quote: it is appended with its quotes
      removed. */
  lemma QuoteCloses(st: QueryState, w: string)
    requires Consistent(st) && !st.expectNew && EndsWith(w, "\"")
    ensures Step(st, w) == Ok(st.(expectNew := true, params := st.params[st.field
                                   := st.params[st.field] + " " + Remove(w, '"')]))
  {
  }

  /** Outside a quote, a word that is not an operator raises `ValueError`
      exactly when it does not hold exactly one `:`, and `KeyError` when it
      does but its prefix is no known field. */
  lemma WordErrors(st: QueryState, w: string)
    requires Consistent(st) && st.expectNew && !IsOperatorWord(w)
    ensures Step(st, w) == Err(ValueError) <==> Count(w, ':') != 1
    ensures Step(st, w).Err? <==> Count(w, ':') != 1 || Phrases.FieldOf(Split(w, ':')[0]).None?
  {
    SplitCount(w, ':');
  }

  /** An empty query sets nothing: no parameters and no operators. */
  lemma EmptyQueryParsesEmpty()
    ensures SearchQueryOf("") == Ok((map[], map[]))
  {
    assert LStrip("") == "";
  }

  /** `search()`'s handling of the `query` parameter: a `ValueError` becomes
      `BadRequest`, any other exception escapes; the parsed values are added
      to the request's parameters. */
  function SearchParams(params: MultiDict): (r: Result<(map<string, string>, MultiDict), ApiError>)
    ensures r.Err? ==> r.error != ValueError
    ensures (SearchQueryOf(Get(params, "query").GetOr("")) == Err(ValueError))
      <==> r == Err(ImproperSyntax(Get(params, "query").GetOr("None")))
    ensures var parsed := SearchQueryOf(Get(params, "query").GetOr(""));
            parsed.Ok? ==> r == Ok((parsed.value.0, WithTerms(params, parsed.value.1)))
    ensures var parsed := SearchQueryOf(Get(params, "query").GetOr(""));
            parsed.Err? && parsed.error != ValueError ==> r == Err(parsed.error)
  {
    match SearchQueryOf(Get(params, "query").GetOr(""))
    case Err(ValueError) => Err(ImproperSyntax(Get(params, "query").GetOr("None")))
    case Err(e) => Err(e)
    case Ok((ops, terms)) => Ok((ops, WithTerms(params, terms)))
  }

  /** The `BadRequest` for a query that does not parse. */
  function ImproperSyntax(query: string): (e: ApiError)
    ensures e.BadRequest?
  {
    BadRequest("Improper syntax in query: " + query)
  }

  /** The request's parameters with one more value for each parsed term. */
  function WithTerms(params: MultiDict, terms: map<string, string>): (r: MultiDict)
    ensures r.Keys == params.Keys + terms.Keys
    ensures forall k :: k in r ==> r[k] == GetList(params, k) + if k in terms then [terms[k]] else []
  {
    map k | k in params.Keys + terms.Keys :: GetList(params, k) + if k in terms then [terms[k]] else []
  }

  // ---------------------------------------------------------------------
  // query_terms, _get_fielded_terms, _get_include_fields

  /** One `{'parameter': ..., 'value': ...}` entry of `query_terms`. */
  datatype QueryTerm = QueryTerm(parameter: string, value: string)

  /** The `(field, value)` pairs of the named fields, field by field in the
      given order and each field's values in request order. */
  function FieldPairs(params: MultiDict, fields: seq<string>): (r: seq<(string, string)>)
    decreases |fields|
  {
    if fields == [] then []
    else
      var init := FieldPairs(params, fields[..|fields| - 1]);
      var f := fields[|fields| - 1];
      init + ValuePairs(f, GetList(params, f))
  }

  function ValuePairs(f: string, values: seq<string>): (r: seq<(string, string)>)
    ensures |r| == |values|
    decreases |values|
  {
    if values == [] then []
    else ValuePairs(f, values[..|values| - 1]) + [(f, values[|values| - 1])]
  }

  /** Each value is paired with its field, in order. */
  lemma {:induction false} ValuePairsPrefix(f: string, values: seq<string>, j: nat)
    requires j < |values|
    ensures ValuePairs(f, values)[..j] == ValuePairs(f, values[..j])
    ensures ValuePairs(f, values)[j] == (f, values[j])
    decreases |values|
  {
    var init := values[..|values| - 1];
    if j < |init| {
      ValuePairsPrefix(f, init, j);
      assert init[..j] == values[..j];
    } else {
      assert init == values[..j];
    }
  }

  /** `FieldedSearchTerm(operator=operators[field], ...)`. */
  function TermMaker(operators: map<string, string>): ((string, string)) -> Result<FieldedSearchTerm, ApiError>
  {
    (p: (string, string)) => if p.0 in operators then Ok(FieldedSearchTerm(operators[p.0], p.0, p.1)) else Err(KeyError(p.0))
  }

  /** The operators `_get_fielded_terms` looks up: without parsed
      operators, a `defaultdict` whose factory went in as a keyword, so the
      only key it has is `default_factory`, which is no field. That key,
      which maps to the factory itself, is left out of the map; since no
      field is named `default_factory`, no lookup can reach it. */
  function EffectiveOperators(operators: Option<map<string, string>>): map<string, string>
  {
    match operators
    case Some(m) => m
    case None => map[]
  }

  /** `_get_fielded_terms`: the terms, `None` when there are none. The
      controller reads the fields of `Query.SUPPORTED_FIELDS`
      (`DomainBase.SupportedFields`); the model takes the field list as a
      parameter so that its proofs hold for any list. */
  function FieldedTerms(params: MultiDict, operators: Option<map<string, string>>, fields: seq<string>): Result<Option<seq<FieldedSearchTerm>>, ApiError>
  {
    match MapResult(FieldPairs(params, fields), TermMaker(EffectiveOperators(operators)))
    case Err(e) => Err(e)
    case Ok(ts) => Ok(if ts == [] then None else Some(ts))
  }

  /** The entries `_get_fielded_terms` appends to `query_terms`: one per
      value looked at, the value that raised included. */
  function FieldedEntries(params: MultiDict, operators: Option<map<string, string>>, fields: seq<string>): seq<QueryTerm>
  {
    var pairs := FieldPairs(params, fields);
    Logged(pairs[..MapResultCalls(pairs, TermMaker(EffectiveOperators(operators)))])
  }

  /** One term per value of a supported field, in `SUPPORTED_FIELDS` order,
      with that field's operator; `None` exactly when there is no value; a
      `KeyError` exactly when some such field has no operator. */
  lemma FieldedTermsMeaning(params: MultiDict, operators: Option<map<string, string>>, fields: seq<string>)
    ensures var pairs := FieldPairs(params, fields);
            var ops := EffectiveOperators(operators);
            var r := FieldedTerms(params, operators, fields);
            && (r.Ok? <==> forall k :: 0 <= k < |pairs| ==> pairs[k].0 in ops)
            && (r.Ok? ==> (r.value.None? <==> pairs == []))
            && (r.Ok? && r.value.Some? ==>
                  && |r.value.value| == |pairs|
                  && forall k :: 0 <= k < |pairs| ==> r.value.value[k] == FieldedSearchTerm(ops[pairs[k].0], pairs[k].0, pairs[k].1))
  {
    var pairs := FieldPairs(params, fields);
    var f := TermMaker(EffectiveOperators(operators));
    MapResultElementwise(pairs, f);
  }

  /** A failing call logs every value up to the one whose field has no
      operator, and raises `KeyError` for that field. */
  lemma FieldedEntriesOnError(params: MultiDict, operators: Option<map<string, string>>, fields: seq<string>)
    requires FieldedTerms(params, operators, fields).Err?
    ensures var pairs := FieldPairs(params, fields);
            var n := |FieldedEntries(params, operators, fields)|;
            && 1 <= n <= |pairs|
            && FieldedTerms(params, operators, fields) == Err(KeyError(pairs[n - 1].0))
            && pairs[n - 1].0 !in EffectiveOperators(operators)
            && forall k :: 0 <= k < n - 1 ==> pairs[k].0 in EffectiveOperators(operators)
  {
    var pairs := FieldPairs(params, fields);
    var f := TermMaker(EffectiveOperators(operators));
    MapResultCallsStop(pairs, f);
    var n := MapResultCalls(pairs, f);
    assert f(pairs[n - 1]).Err?;
  }

  /** Without a `query` parameter `search()` passes an operator dictionary
      with no field in it, so any value of a supported field given directly
      as a request parameter raises `KeyError`. */
  lemma DirectFieldParamRaises(params: MultiDict, fields: seq<string>)
    requires Get(params, "query") == None
    requires FieldPairs(params, fields) != []
    ensures SearchParams(params).Ok?
    ensures FieldedTerms(SearchParams(params).value.1, Some(SearchParams(params).value.0), fields)
      == Err(KeyError(FieldPairs(params, fields)[0].0))
  {
    MergeNothing(params);
    var merged := SearchParams(params).value.1;
    FieldPairsSame(params, merged, fields);
    var pairs := FieldPairs(params, fields);
    MapResultFirstError(pairs, TermMaker(map[]), 0);
  }

  /** Without a `query` parameter nothing is parsed: no operators, and every
      parameter keeps its values. */
  lemma MergeNothing(params: MultiDict)
    requires Get(params, "query") == None
    ensures SearchParams(params).Ok?
    ensures SearchParams(params).value.0 == map[]
    ensures forall k :: GetList(SearchParams(params).value.1, k) == GetList(params, k)
  {
    assert SearchParams(params) == Ok((map[], WithTerms(params, map[]))) by {
      EmptyQueryParsesEmpty();
    }
    NoTermsAdded(params);
  }

  /** Adding no terms leaves every parameter's values as they are. */
  lemma NoTermsAdded(params: MultiDict)
    ensures forall k :: GetList(WithTerms(params, map[]), k) == GetList(params, k)
  {
    var w := WithTerms(params, map[]);
    forall k
      ensures GetList(w, k) == GetList(params, k)
    {
      if k in params {
        assert w[k] == params[k] + [];
      }
    }
  }

  lemma {:induction false} FieldPairsSame(a: MultiDict, b: MultiDict, fields: seq<string>)
    requires forall k :: GetList(a, k) == GetList(b, k)
    ensures FieldPairs(a, fields) == FieldPairs(b, fields)
    decreases |fields|
  {
    if fields != [] {
      FieldPairsSame(a, b, fields[..|fields| - 1]);
    }
  }

  /** The pairs of the first fields come first. */
  lemma {:induction false} FieldPairsPrefix(params: MultiDict, fields: seq<string>, i: nat)
    requires i <= |fields|
    ensures |FieldPairs(params, fields[..i])| <= |FieldPairs(params, fields)|
    ensures FieldPairs(params, fields)[..|FieldPairs(params, fields[..i])|] == FieldPairs(params, fields[..i])
    decreases |fields| - i
  {
    if i < |fields| {
      FieldPairsPrefix(params, fields, i + 1);
      assert fields[..i + 1][..i] == fields[..i];
    } else {
      assert fields[..i] == fields;
    }
  }

  /** The shared `query_terms` list the request handlers append to. */
  class QueryTerms {
    var entries: seq<QueryTerm>

    constructor ()
      ensures entries == []
    {
      entries := [];
    }

    /** `_get_fielded_terms`. */
    method GetFieldedTerms(params: MultiDict, operators: Option<map<string, string>>, fields: seq<string>)
      returns (r: Result<Option<seq<FieldedSearchTerm>>, ApiError>)
      modifies this
      ensures r == FieldedTerms(params, operators, fields)
      ensures entries == old(entries) + FieldedEntries(params, operators, fields)
    {
      var ops := EffectiveOperators(operators);
      var terms: seq<FieldedSearchTerm> := [];
      assert fields[..0] == [];
      for i := 0 to |fields|
        invariant MapResult(FieldPairs(params, fields[..i]), TermMaker(ops)) == Ok(terms)
        invariant entries == old(entries) + Logged(FieldPairs(params, fields[..i]))
      {
        var added := AddField(params, operators, fields, i, terms, old(entries));
        if added.Err? {
          return Err(added.error);
        }
        terms := added.value;
      }
      r := if terms == [] then Ok(None) else Ok(Some(terms));
      assert r == FieldedTerms(params, operators, fields)
             && entries == old(entries) + FieldedEntries(params, operators, fields) by {
        assert fields[..|fields|] == fields;
        OkFinish(params, operators, fields, terms);
      }
    }

    /** One pass of the outer loop of `_get_fielded_terms`: the values of
        `fields[i]` become terms, or the field's missing operator ends the
        whole call with its error and its log. */
    method AddField(params: MultiDict, operators: Option<map<string, string>>, fields: seq<string>, i: nat,
                    terms: seq<FieldedSearchTerm>, ghost log0: seq<QueryTerm>)
      returns (r: Result<seq<FieldedSearchTerm>, ApiError>)
      modifies this
      requires i < |fields|
      requires MapResult(FieldPairs(params, fields[..i]), TermMaker(EffectiveOperators(operators))) == Ok(terms)
      requires entries == log0 + Logged(FieldPairs(params, fields[..i]))
      ensures r.Ok? ==> && MapResult(FieldPairs(params, fields[..i + 1]), TermMaker(EffectiveOperators(operators))) == r
                        && entries == log0 + Logged(FieldPairs(params, fields[..i + 1]))
      ensures r.Err? ==> && FieldedTerms(params, operators, fields) == Err(r.error)
                         && entries == log0 + FieldedEntries(params, operators, fields)
    {
      var field := fields[i];
      var values := GetList(params, field);
      FieldsStep(params, fields, i);
      r := AddValues(field, values, EffectiveOperators(operators), FieldPairs(params, fields[..i]), terms);
      if r.Err? {
        ErrorAtField(params, operators, fields, i, log0, entries);
      } else {
        FieldLogged(params, fields, i, log0, entries);
      }
    }

    /** The inner loop of `_get_fielded_terms`: one field's values, each
        logged before its operator is looked up. The lookup depends on the
        field alone, so it fails on the first value or never. */
    method AddValues(field: string, values: seq<string>, ops: map<string, string>,
                     ghost before: seq<(string, string)>, terms0: seq<FieldedSearchTerm>)
      returns (r: Result<seq<FieldedSearchTerm>, ApiError>)
      modifies this
      requires MapResult(before, TermMaker(ops)) == Ok(terms0)
      ensures r.Ok? ==> && MapResult(before + ValuePairs(field, values), TermMaker(ops)) == r
                        && entries == old(entries) + Logged(ValuePairs(field, values))
      ensures r.Err? ==> && r == Err(KeyError(field)) && field !in ops && values != []
                         && entries == old(entries) + [QueryTerm(field, values[0])]
    {
      var terms := terms0;
      var j := 0;
      assert values[..0] == [] && before + [] == before;
      while j < |values|
        invariant j <= |values|
        invariant j > 0 ==> field in ops
        invariant MapResult(before + ValuePairs(field, values[..j]), TermMaker(ops)) == Ok(terms)
        invariant entries == old(entries) + Logged(ValuePairs(field, values[..j]))
      {
        ghost var sofar := ValuePairs(field, values[..j]);
        AppendAssoc(old(entries), Logged(sofar), [QueryTerm(field, values[j])]);
        entries := entries + [QueryTerm(field, values[j])];
        if field !in ops {
          assert values[..0] == [] && old(entries) + [] == old(entries);
          r := Err(KeyError(field));
          return;
        }
        PairsStep(field, values, j);
        LogStep(sofar, (field, values[j]));
        TermStep(before + sofar, terms, ops, field, values[j]);
        AppendAssoc(before, sofar, [(field, values[j])]);
        terms := terms + [FieldedSearchTerm(ops[field], field, values[j])];
        j := j + 1;
      }
      assert values[..j] == values;
      r := Ok(terms);
    }

    /** `_get_include_fields`: the `include` values, each logged. */
    method GetIncludeFields(params: MultiDict) returns (fields: seq<string>)
      modifies this
      ensures fields == GetList(params, "include")
      ensures entries == old(entries) + seq(|fields|, k requires 0 <= k < |fields| => QueryTerm("include", fields[k]))
    {
      var requested := GetList(params, "include");
      fields := [];
      var k := 0;
      while k < |requested|
        invariant k <= |requested|
        invariant entries == old(entries) + seq(k, m requires 0 <= m < k => QueryTerm("include", requested[m]))
      {
        entries := entries + [QueryTerm("include", requested[k])];
        k := k + 1;
      }
      fields := requested;
    }

    /** `_get_classification`. */
    method GetClassification(value: string, field: string, tax: Taxonomy)
      returns (r: Result<seq<Classification>, ApiError>)
      modifies this
      ensures r == ClassificationOf(value, field, tax)
      ensures entries == old(entries) + if r.Ok? then [QueryTerm(field, value)] else []
    {
      var c := ToClassification(value, tax);
      if c.None? {
        r := Err(BadRequest("Not a valid classification term: " + field + "=" + value));
        return;
      }
      entries := entries + [QueryTerm(field, value)];
      r := Ok(c.value);
    }
  }

  /** The entries logged for some pairs. */
  function Logged(pairs: seq<(string, string)>): (r: seq<QueryTerm>)
    ensures |r| == |pairs|
    decreases |pairs|
  {
    if pairs == [] then []
    else
      var p := pairs[|pairs| - 1];
      Logged(pairs[..|pairs| - 1]) + [QueryTerm(p.0, p.1)]
  }

  lemma FieldsStep(params: MultiDict, fields: seq<string>, i: nat)
    requires i < |fields|
    ensures FieldPairs(params, fields[..i + 1])
      == FieldPairs(params, fields[..i]) + ValuePairs(fields[i], GetList(params, fields[i]))
  {
    assert fields[..i + 1][..i] == fields[..i];
  }

  lemma PairsStep(field: string, values: seq<string>, j: nat)
    requires j < |values|
    ensures ValuePairs(field, values[..j + 1]) == ValuePairs(field, values[..j]) + [(field, values[j])]
  {
    assert values[..j + 1][..j] == values[..j];
  }

  lemma LogStep(done: seq<(string, string)>, p: (string, string))
    ensures Logged(done + [p]) == Logged(done) + [QueryTerm(p.0, p.1)]
  {
    assert (done + [p])[..|done|] == done;
  }

  lemma {:induction false} LoggedConcat(a: seq<(string, string)>, b: seq<(string, string)>)
    ensures Logged(a + b) == Logged(a) + Logged(b)
    decreases |b|
  {
    if b == [] {
      assert a + b == a;
    } else {
      var init, last := b[..|b| - 1], b[|b| - 1];
      assert b == init + [last];
      AppendAssoc(a, init, [last]);
      LoggedConcat(a, init);
      LogStep(a + init, last);
      LogStep(init, last);
      AppendAssoc(Logged(a), Logged(init), [QueryTerm(last.0, last.1)]);
    }
  }

  lemma TermStep(done: seq<(string, string)>, terms: seq<FieldedSearchTerm>, ops: map<string, string>, field: string, v: string)
    requires MapResult(done, TermMaker(ops)) == Ok(terms) && field in ops
    ensures MapResult(done + [(field, v)], TermMaker(ops)) == Ok(terms + [FieldedSearchTerm(ops[field], field, v)])
  {
    assert (done + [(field, v)])[..|done|] == done;
  }

  /** The success path of `GetFieldedTerms`: every value is logged. */
  lemma OkFinish(params: MultiDict, operators: Option<map<string, string>>, fields: seq<string>, terms: seq<FieldedSearchTerm>)
    requires MapResult(FieldPairs(params, fields), TermMaker(EffectiveOperators(operators))) == Ok(terms)
    ensures FieldedTerms(params, operators, fields) == if terms == [] then Ok(None) else Ok(Some(terms))
    ensures FieldedEntries(params, operators, fields) == Logged(FieldPairs(params, fields))
  {
    var pairs := FieldPairs(params, fields);
    assert pairs[..|pairs|] == pairs;
  }

  /** One more field's values logged extend the log of the first fields. */
  lemma FieldLogged(params: MultiDict, fields: seq<string>, i: nat, log0: seq<QueryTerm>, log: seq<QueryTerm>)
    requires i < |fields|
    requires log == log0 + Logged(FieldPairs(params, fields[..i])) + Logged(ValuePairs(fields[i], GetList(params, fields[i])))
    ensures log == log0 + Logged(FieldPairs(params, fields[..i + 1]))
  {
    var done := FieldPairs(params, fields[..i]);
    var more := ValuePairs(fields[i], GetList(params, fields[i]));
    FieldsStep(params, fields, i);
    LoggedConcat(done, more);
    AppendAssoc(log0, Logged(done), Logged(more));
  }

  /** The error path of `GetFieldedTerms` as the loop meets it: the first
      value of a field without an operator has just been logged. */
  lemma ErrorAtField(params: MultiDict, operators: Option<map<string, string>>, fields: seq<string>, i: nat,
                     log0: seq<QueryTerm>, log: seq<QueryTerm>)
    requires i < |fields| && GetList(params, fields[i]) != []
    requires fields[i] !in EffectiveOperators(operators)
    requires MapResult(FieldPairs(params, fields[..i]), TermMaker(EffectiveOperators(operators))).Ok?
    requires log == log0 + Logged(FieldPairs(params, fields[..i])) + [QueryTerm(fields[i], GetList(params, fields[i])[0])]
    ensures FieldedTerms(params, operators, fields) == Err(KeyError(fields[i]))
    ensures log == log0 + FieldedEntries(params, operators, fields)
  {
    var done := FieldPairs(params, fields[..i]);
    var values := GetList(params, fields[i]);
    assert values[..0] == [] && done + [] == done;
    ErrorStopsLog(params, operators, fields, i, 0);
    AppendAssoc(log0, Logged(done), [QueryTerm(fields[i], values[0])]);
  }

  /** The error path of `GetFieldedTerms`: the value that raised is the
      last one logged. */
  lemma ErrorStopsLog(params: MultiDict, operators: Option<map<string, string>>, fields: seq<string>, i: nat, j: nat)
    requires i < |fields| && j < |GetList(params, fields[i])|
    requires fields[i] !in EffectiveOperators(operators)
    requires MapResult(FieldPairs(params, fields[..i]) + ValuePairs(fields[i], GetList(params, fields[i])[..j]),
                       TermMaker(EffectiveOperators(operators))).Ok?
    ensures var done := FieldPairs(params, fields[..i]) + ValuePairs(fields[i], GetList(params, fields[i])[..j]);
            && FieldedTerms(params, operators, fields) == Err(KeyError(fields[i]))
            && FieldedEntries(params, operators, fields) == Logged(done) + [QueryTerm(fields[i], GetList(params, fields[i])[j])]
  {
    var field := fields[i];
    var values := GetList(params, field);
    var before := FieldPairs(params, fields[..i]);
    var done := before + ValuePairs(field, values[..j]);
    var all := FieldPairs(params, fields);
    FieldPairsPrefix(params, fields, i + 1);
    FieldsStep(params, fields, i);
    var n := |done|;
    var upto := FieldPairs(params, fields[..i + 1]);
    var vs := ValuePairs(field, values);
    ValuePairsPrefix(field, values, j);
    assert upto == before + vs;
    assert n < |upto| <= |all| && all[..|upto|] == upto;
    SplicePrefix(all, upto, before, vs, j);
    FirstMissing(all, EffectiveOperators(operators), n);
    LogStep(done, (field, values[j]));
  }

  lemma SplicePrefix<T>(all: seq<T>, upto: seq<T>, before: seq<T>, vs: seq<T>, j: nat)
    requires upto == before + vs && j < |vs|
    requires |upto| <= |all| && all[..|upto|] == upto
    ensures all[..|before| + j] == before + vs[..j]
    ensures all[|before| + j] == vs[j]
  {
    assert all[..|before| + j] == upto[..|before| + j];
  }

  /** Over any pairs: when the first `n` have operators and the next does
      not, that one raises and is the last looked at. */
  lemma FirstMissing(all: seq<(string, string)>, ops: map<string, string>, n: nat)
    requires n < |all| && all[n].0 !in ops
    requires MapResult(all[..n], TermMaker(ops)).Ok?
    ensures MapResult(all, TermMaker(ops)) == Err(KeyError(all[n].0))
    ensures MapResultCalls(all, TermMaker(ops)) == n + 1
    ensures all[..n + 1] == all[..n] + [all[n]]
  {
    var f := TermMaker(ops);
    assert all[..n + 1] == all[..n] + [all[n]];
    assert all[..n + 1][..n] == all[..n];
    FailsAtLast(all[..n + 1], ops);
    MapResultFailurePersists(all, f, n + 1);
    MapResultCallsPersist(all, f, n + 1);
  }

  /** Terms for pairs whose last field has no operator: the lookup of that
      field is the error, and the call that raises it the last one. */
  lemma FailsAtLast(pairs: seq<(string, string)>, ops: map<string, string>)
    requires pairs != [] && pairs[|pairs| - 1].0 !in ops
    requires MapResult(pairs[..|pairs| - 1], TermMaker(ops)).Ok?
    ensures MapResult(pairs, TermMaker(ops)) == Err(KeyError(pairs[|pairs| - 1].0))
    ensures MapResultCalls(pairs, TermMaker(ops)) == |pairs|
  {
  }

  // ---------------------------------------------------------------------
  // _to_classification, _get_classification

  /** The slice of the taxonomy the controller consults: the known ids of
      each level, each id's unaliased form and its canonical form. */
  datatype Taxonomy = Taxonomy(
    groups: set<string>,
    archives: set<string>,
    categories: set<string>,
    unalias: (Level, string) -> string,
    canonical: (Level, string) -> string)

  /** The level a value is tried at: group, then archive, then category. */
  function LevelOf(value: string, tax: Taxonomy): (r: Option<Level>)
    ensures r.None? <==> value !in tax.groups && value !in tax.archives && value !in tax.categories
    ensures r == Some(GroupLevel) <==> value in tax.groups
  {
    if value in tax.groups then Some(GroupLevel)
    else if value in tax.archives then Some(ArchiveLevel)
    else if value in tax.categories then Some(CategoryLevel)
    else None
  }

  /** The ids `_to_classification` emits: the value, then its unaliased form
      and its canonical form, each only when distinct from those before. */
  function ClassificationIds(level: Level, value: string, tax: Taxonomy): (ids: seq<string>)
    ensures 1 <= |ids| <= 3 && ids[0] == value
    ensures tax.unalias(level, value) in ids && tax.canonical(level, value) in ids
    ensures forall a, b :: 0 <= a < b < |ids| ==> ids[a] != ids[b]
    ensures forall k :: 0 <= k < |ids| ==> ids[k] in {value, tax.unalias(level, value), tax.canonical(level, value)}
  {
    var u := tax.unalias(level, value);
    var c := tax.canonical(level, value);
    [value] + (if u != value then [u] else []) + (if c != value && c != u then [c] else [])
  }

  /** `Classification(**{field: {'id': id}})`. */
  function AtLevel(level: Level, id: string): Classification
  {
    var d := Some(map["id" := id]);
    match level
    case GroupLevel => Classification(d, None, None)
    case ArchiveLevel => Classification(None, d, None)
    case CategoryLevel => Classification(None, None, d)
  }

  /** `_to_classification`; `None` is its `ValueError`. */
  function ToClassification(value: string, tax: Taxonomy): (r: Option<seq<Classification>>)
    ensures r.None? <==> LevelOf(value, tax).None?
    ensures r.Some? ==> |r.value| >= 1 && r.value[0] == AtLevel(LevelOf(value, tax).value, value)
    ensures r.Some? ==> var ids := ClassificationIds(LevelOf(value, tax).value, value, tax);
                        |r.value| == |ids| && forall k :: 0 <= k < |ids| ==> r.value[k] == AtLevel(LevelOf(value, tax).value, ids[k])
  {
    match LevelOf(value, tax)
    case None => None
    case Some(level) =>
      var ids := ClassificationIds(level, value, tax);
      Some(seq(|ids|, k requires 0 <= k < |ids| => AtLevel(level, ids[k])))
  }

  /** `_get_classification`: the `ValueError` becomes a `BadRequest` naming
      the parameter and the value. */
  function ClassificationOf(value: string, field: string, tax: Taxonomy): (r: Result<seq<Classification>, ApiError>)
    ensures r.Err? <==> value !in tax.groups && value !in tax.archives && value !in tax.categories
    ensures r.Err? ==> r.error == BadRequest("Not a valid classification term: " + field + "=" + value)
    ensures r.Ok? ==> |r.value| >= 1 && r.value[0] == AtLevel(LevelOf(value, tax).value, value)
  {
    match ToClassification(value, tax)
    case None => Err(BadRequest("Not a valid classification term: " + field + "=" + value))
    case Some(cs) => Ok(cs)
  }

  // ---------------------------------------------------------------------
  // classic_query

  /** The `id_list` parameter split on commas; empty when absent or empty. */
  function ClassicIds(params: MultiDict): (ids: seq<string>)
    ensures Get(params, "id_list").GetOr("") != "" ==> ids == Split(Get(params, "id_list").value, ',')
    ensures ids == [] <==> Get(params, "id_list").GetOr("") == ""
  {
    var raw := Get(params, "id_list").GetOr("");
    if raw == "" then [] else Split(raw, ',')
  }

  /** What `classic_query` does with a request: search with the parsed
      `search_query`, keeping only the listed ids when there are some, or
      fetch each listed paper. */
  datatype ClassicPlan =
    | SearchPlan(phrase: ApiClassicParser.Node, ids: seq<string>)
    | PaperPlan(ids: seq<string>)

  const NeitherMessage: string := "Either a search_query or id_list must be specified for the classic API."

  /** The decision part of `classic_query`. */
  function ClassicQueryPlan(params: MultiDict): (r: Result<ClassicPlan, ApiError>)
    ensures r == Err(BadRequest(NeitherMessage))
      <==> ClassicIds(params) == [] && Get(params, "search_query").GetOr("") == ""
    ensures r.Ok? && r.value.SearchPlan? <==>
      Get(params, "search_query").GetOr("") != "" && ApiClassicParser.Parse(Get(params, "search_query").value).Ok?
    ensures r.Ok? && r.value.PaperPlan? ==> Get(params, "search_query").GetOr("") == "" && r.value.ids != []
    ensures r.Ok? ==> r.value.ids == ClassicIds(params)
    ensures r.Ok? && r.value.SearchPlan? ==> r.value.phrase == ApiClassicParser.Parse(Get(params, "search_query").value).value
    ensures var raw := Get(params, "search_query").GetOr("");
            raw != "" && ApiClassicParser.Parse(raw).Err? ==> r == Err(ParseFailure(ApiClassicParser.Parse(raw).error))
  {
    var raw := Get(params, "search_query").GetOr("");
    var ids := ClassicIds(params);
    if ids == [] && raw == "" then Err(BadRequest(NeitherMessage))
    else if raw != "" then
      match ApiClassicParser.Parse(raw)
      case Err(e) => Err(ParseFailure(e))
      case Ok(phrase) => Ok(SearchPlan(phrase, ids))
    else Ok(PaperPlan(ids))
  }

  /** A search hit, by the two ids `classic_query` filters on. */
  datatype Paper = Paper(paperId: string, paperIdV: string)

  /** A paper is listed when its `paper_id` or its `paper_id_v` is. */
  predicate Listed(p: Paper, ids: seq<string>)
  {
    p.paperId in ids || p.paperIdV in ids
  }

  /** The papers whose `paper_id` or `paper_id_v` is listed, in result order. */
  function FilterByIds(results: seq<Paper>, ids: seq<string>): (r: seq<Paper>)
    ensures |r| <= |results|
  {
    if results == [] then []
    else
      var rest := FilterByIds(results[..|results| - 1], ids);
      var p := results[|results| - 1];
      if Listed(p, ids) then rest + [p] else rest
  }

  /** Filtering keeps exactly the listed papers among the results. */
  lemma {:induction false} FilterByIdsMembers(results: seq<Paper>, ids: seq<string>)
    ensures forall p :: p in FilterByIds(results, ids) <==> p in results && Listed(p, ids)
    decreases |results|
  {
    if results != [] {
      var init := results[..|results| - 1];
      FilterByIdsMembers(init, ids);
      assert results == init + [results[|results| - 1]];
    }
  }

  /** Filtering keeps order: the kept papers are the results with the
      others taken out, so filtering by every result's id keeps them all. */
  lemma {:induction false} FilterKeepsAll(results: seq<Paper>, ids: seq<string>)
    requires forall k :: 0 <= k < |results| ==> Listed(results[k], ids)
    ensures FilterByIds(results, ids) == results
    decreases |results|
  {
    if results != [] {
      var init := results[..|results| - 1];
      assert forall k :: 0 <= k < |init| ==> Listed(init[k], ids) by {
        forall k | 0 <= k < |init| ensures Listed(init[k], ids) {
          assert init[k] == results[k];
        }
      }
      FilterKeepsAll(init, ids);
      assert init + [results[|results| - 1]] == results;
    }
  }

  /** What the index's `get_document` reports for an id: the paper,
      `DocumentNotFound`, or another exception, named. */
  datatype Lookup = Found(paper: Paper) | DocumentNotFound | LookupFailed(name: string)

  /** `paper()`: the document, `NotFound` when the index has none, and any
      other exception of the lookup escaping as it is. */
  function PaperOf(id: string, lookup: string -> Lookup): (r: Result<Paper, ApiError>)
    ensures r.Ok? <==> lookup(id).Found?
    ensures r.Ok? ==> r.value == lookup(id).paper
    ensures lookup(id) == DocumentNotFound ==> r == Err(NotFound("No such document"))
    ensures lookup(id).LookupFailed? ==> r == Err(Unhandled(lookup(id).name))
  {
    match lookup(id)
    case Found(p) => Ok(p)
    case DocumentNotFound => Err(NotFound("No such document"))
    case LookupFailed(name) => Err(Unhandled(name))
  }

  /** `[paper(paper_id) for paper_id in id_list]`: the papers in id order,
      the first failing lookup's error ending the comprehension. */
  function FetchAll(ids: seq<string>, lookup: string -> Lookup): (r: Result<seq<Paper>, ApiError>)
    ensures r.Ok? <==> forall k :: 0 <= k < |ids| ==> PaperOf(ids[k], lookup).Ok?
    ensures r.Ok? ==> |r.value| == |ids| && forall k :: 0 <= k < |ids| ==> r.value[k] == PaperOf(ids[k], lookup).value
    decreases |ids|
  {
    if ids == [] then Ok([])
    else
      match PaperOf(ids[0], lookup)
      case Err(e) => Err(e)
      case Ok(p) =>
        match FetchAll(ids[1..], lookup)
        case Err(e) => Err(e)
        case Ok(rest) =>
          assert forall k :: 1 <= k < |ids| ==> ids[1..][k - 1] == ids[k];
          Ok([p] + rest)
  }

  /** The error of the lookups is that of the first id whose lookup fails:
      one bad id fails the whole request. */
  lemma {:induction false} FetchAllFirstError(ids: seq<string>, lookup: string -> Lookup, i: nat)
    requires i < |ids| && PaperOf(ids[i], lookup).Err?
    requires forall j :: 0 <= j < i ==> PaperOf(ids[j], lookup).Ok?
    ensures FetchAll(ids, lookup) == Err(PaperOf(ids[i], lookup).error)
    decreases i
  {
    if i > 0 {
      assert ids[1..][i - 1] == ids[i];
      forall j | 0 <= j < i - 1
        ensures PaperOf(ids[1..][j], lookup).Ok?
      {
        assert ids[1..][j] == ids[j + 1];
      }
      FetchAllFirstError(ids[1..], lookup, i - 1);
    }
  }

  /** The results `classic_query` answers with, given the search's results
      for a search plan and the index's lookup for the id-only plan: the
      search results, kept to the listed ids when there are some, or the
      listed papers. */
  function ClassicResults(plan: ClassicPlan, searchResults: seq<Paper>, lookup: string -> Lookup): (r: Result<seq<Paper>, ApiError>)
    ensures plan.PaperPlan? ==> r == FetchAll(plan.ids, lookup)
    ensures plan.SearchPlan? && plan.ids == [] ==> r == Ok(searchResults)
    ensures plan.SearchPlan? && plan.ids != [] ==> r == Ok(FilterByIds(searchResults, plan.ids))
    ensures plan.SearchPlan? ==> r.Ok? && forall p :: p in r.value ==> p in searchResults
  {
    match plan
    case SearchPlan(_, ids) =>
      FilterByIdsMembers(searchResults, ids);
      if ids == [] then Ok(searchResults) else Ok(FilterByIds(searchResults, ids))
    case PaperPlan(ids) => FetchAll(ids, lookup)
  }

  /** `classic_query` as written: with a search query and an id list, the
      filter reads `document_set.results` from the plain dictionary that
      `to_documentset` returns, which raises `AttributeError`. */
  function ClassicResultsAsWritten(plan: ClassicPlan, searchResults: seq<Paper>, lookup: string -> Lookup): (r: Result<seq<Paper>, ApiError>)
    ensures plan.SearchPlan? && plan.ids != [] ==> r == Err(Unhandled("AttributeError"))
    ensures !(plan.SearchPlan? && plan.ids != []) ==> r == ClassicResults(plan, searchResults, lookup)
  {
    if plan.SearchPlan? && plan.ids != [] then Err(Unhandled("AttributeError"))
    else ClassicResults(plan, searchResults, lookup)
  }

  /** Every search restricted to listed ids is lost as written: the intended
      code answers with the listed papers among the results, even when there
      are none, while the code as written raises. */
  lemma SearchWithIdsRaisesAsWritten(phrase: ApiClassicParser.Node, ids: seq<string>, searchResults: seq<Paper>,
                                     lookup: string -> Lookup)
    requires ids != []
    ensures ClassicResults(SearchPlan(phrase, ids), searchResults, lookup).Ok?
    ensures ClassicResultsAsWritten(SearchPlan(phrase, ids), searchResults, lookup) == Err(Unhandled("AttributeError"))
    ensures searchResults == [] ==> ClassicResults(SearchPlan(phrase, ids), searchResults, lookup) == Ok([])
  {
  }
}
