/** The search application's own exceptions (search/errors.py): a generic
    `SearchError` carrying a message, and the `ValidationError` the API
    raises for a bad request, which also carries a link to the error
    documentation. */
module SearchErrors {

  /** The documentation link a `ValidationError` carries when none is given. */
  const DEFAULT_LINK: string := "http://arxiv.org/api/errors"

  datatype SearchError =
    | SearchError(message: string)
    | ValidationError(message: string, link: string)

  /** `ValidationError(message, link=...)`: the default link unless another
      is given. */
  function NewValidationError(message: string, link: string := DEFAULT_LINK): (e: SearchError)
    ensures e.ValidationError? && e.message == message && e.link == link
  {
    ValidationError(message, link)
  }

  /** `name`: the name of the error's class. */
  function Name(e: SearchError): (r: string)
    ensures r == (if e.SearchError? then "SearchError" else "ValidationError")
  {
    match e
    case SearchError(_) => "SearchError"
    case ValidationError(_, _) => "ValidationError"
  }

  /** `__str__`, which `__repr__` is: the class name, then the message in
      parentheses. */
  function Str(e: SearchError): string
  {
    Name(e) + "(" + e.message + ")"
  }

  /** `__repr__` is the same method as `__str__`. */
  function Repr(e: SearchError): (r: string)
    ensures r == Str(e)
  {
    Str(e)
  }

  /** The rendering starts with the class name and an opening parenthesis,
      ends with a closing one, and holds the message in between. */
  lemma StrFrames(e: SearchError)
    ensures var s := Str(e);
            var n := |Name(e)|;
            |s| == n + |e.message| + 2
            && s[..n] == Name(e) && s[n] == '('
            && s[n + 1..|s| - 1] == e.message && s[|s| - 1] == ')'
  {
  }

  /** The rendering tells apart the class and the message: two errors render
      alike exactly when they have the same class and message (the link is
      not shown). */
  lemma StrDistinguishes(a: SearchError, b: SearchError)
    ensures Str(a) == Str(b) <==> a.SearchError? == b.SearchError? && a.message == b.message
  {
    StrFrames(a);
    StrFrames(b);
    if Str(a) == Str(b) {
      if a.SearchError? == b.SearchError? {
        assert Name(a) == Name(b);
      }
    }
  }

  /** A validation error built without a link points at the API's error
      documentation. */
  lemma DefaultLink(message: string)
    ensures NewValidationError(message).link == DEFAULT_LINK
    ensures Str(NewValidationError(message)) == "ValidationError(" + message + ")"
  {
  }
}
