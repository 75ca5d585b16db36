/** The simple search form's query field (search/controllers/simple/forms.py):
    the value is whitespace-stripped by its filter, then checked by the
    wildcard and quote validators and by the form's own `validate_query`.
    As in wtforms, every validator of the chain runs and each failure adds
    its message to the field's errors, in chain order. */
module SimpleForms {
  import opened Wrappers
  import opened Strings
  import opened ControllerUtil

  const TOO_SHORT: string := "Field must be at least 1 character long."

  /** `validate_query`: nothing to check while no search type is chosen
      (missing, or the string "None"); otherwise an empty query is an error. */
  function ValidateQuery(searchtype: Option<string>, data: Option<string>): (r: Option<string>)
    ensures r.Some? <==> searchtype.Some? && searchtype.value != "None" && (data.None? || data.value == [])
    ensures r.Some? ==> r.value == TOO_SHORT
  {
    if searchtype.None? || searchtype.value == "None" then None
    else if data.None? || data.value == [] then Some(TOO_SHORT)
    else None
  }

  /** The messages of the failing checks among `checks`, in order. */
  function Failures(checks: seq<Option<string>>): (errors: seq<string>)
    ensures |errors| <= |checks|
    ensures errors == [] <==> forall i :: 0 <= i < |checks| ==> checks[i].None?
    ensures forall m :: m in errors <==> Some(m) in checks
  {
    if checks == [] then []
    else
      var rest := Failures(checks[1..]);
      assert forall c :: c in checks <==> c == checks[0] || c in checks[1..];
      if checks[0].Some? then [checks[0].value] + rest else rest
  }

  /** The query field's data after its filter: the submitted value stripped. */
  function QueryData(raw: Option<string>): (r: Option<string>)
    ensures r.None? <==> raw.None?
    ensures r.Some? ==> r.value == Strip(raw.value)
  {
    StripWhiteSpace(raw)
  }

  /** The query field's errors: the wildcard validator, the quote validator,
      then `validate_query`, each run on the filtered data. */
  function QueryErrors(searchtype: Option<string>, raw: Option<string>): (errors: seq<string>)
    ensures errors == [] <==>
              DoesNotStartWithWildcard(QueryData(raw)).None? && HasBalancedQuotes(QueryData(raw)).None?
              && ValidateQuery(searchtype, QueryData(raw)).None?
    ensures TOO_SHORT in errors <==> ValidateQuery(searchtype, QueryData(raw)).Some?
    ensures MISSING_QUOTE in errors <==> HasBalancedQuotes(QueryData(raw)).Some?
  {
    var data := QueryData(raw);
    var checks := [DoesNotStartWithWildcard(data), HasBalancedQuotes(data), ValidateQuery(searchtype, data)];
    assert Some(TOO_SHORT) in checks <==> checks[2].Some?;
    assert Some(MISSING_QUOTE) in checks <==> checks[1].Some?;
    Failures(checks)
  }

  /** With a search type chosen, a query of nothing but whitespace is
      stripped to the empty string and fails with exactly the length error. */
  lemma WhitespaceOnlyIsTooShort(searchtype: string, raw: string)
    requires searchtype != "None"
    requires forall i :: 0 <= i < |raw| ==> IsSpace(raw[i])
    ensures QueryErrors(Some(searchtype), Some(raw)) == [TOO_SHORT]
  {
    var data := QueryData(Some(raw));
    assert data == Some([]);
    var checks := [DoesNotStartWithWildcard(data), HasBalancedQuotes(data), ValidateQuery(Some(searchtype), data)];
    assert checks == [None, None, Some(TOO_SHORT)];
    assert checks[1..][1..] == [Some(TOO_SHORT)];
    assert Failures(checks) == [TOO_SHORT];
  }

  /** Without a chosen search type, the query's errors are exactly those
      of the wildcard and quote validators. */
  lemma NoSearchTypeSkipsLength(searchtype: Option<string>, raw: Option<string>)
    requires searchtype.None? || searchtype.value == "None"
    ensures TOO_SHORT !in QueryErrors(searchtype, raw)
    ensures QueryErrors(searchtype, raw) == [] <==>
              DoesNotStartWithWildcard(QueryData(raw)).None? && HasBalancedQuotes(QueryData(raw)).None?
  {
  }

  /** Surrounding whitespace never decides the outcome: the errors of a value
      and of its stripped form agree. */
  lemma StrippingFirstChangesNothing(searchtype: Option<string>, raw: string)
    ensures QueryErrors(searchtype, Some(Strip(raw))) == QueryErrors(searchtype, Some(raw))
  {
    StripWhiteSpaceIdempotent(Some(raw));
  }
}
