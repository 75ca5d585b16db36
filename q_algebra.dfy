/** The Elasticsearch query objects (`elasticsearch_dsl.Q`) the index
    service builds, as an abstract algebra: the leaf queries the service
    names, combined with `&`, `|` and `~`. How Elasticsearch scores or
    executes them is not modelled; `Matches` gives the boolean reading of a
    query over an arbitrary verdict for its leaves. */
module QueryAlgebra {
  import opened Wrappers
  import opened DomainBase

  /** A date bound rendered with `strftime(format)`. */
  datatype DateBound = DateBound(date: DateTime, format: string)

  datatype Q =
    /** `Q()` and `Q("match_all")`: every document. */
    | MatchAll
    /** `SEARCH_FIELDS[field](term)`: the field's own query for the term. */
    | FieldQuery(field: string, term: string)
    /** `query_any_subject_exact_raw(term)`: primary or secondary category. */
    | AnySubject(term: string)
    /** `Q("term", field=value)`. */
    | TermFilter(field: string, value: string)
    /** `Q("terms", field=values)`. */
    | TermsFilter(field: string, values: seq<string>)
    /** `Q("range", field={"gte": ..., "lt": ...})`, absent bounds left out. */
    | Range(field: string, gte: Option<DateBound>, lt: Option<DateBound>)
    /** `limit_by_classification(classifications, field)`. */
    | ClassificationLimit(field: string, classifications: seq<Classification>)
    /** `Q("function_score", query=..., boost=..., functions=[SF({"weight": ..., "filter": ...})])`. */
    | FunctionScore(query: Q, boost: int, weight: int, filter: Q)
    | And(left: Q, right: Q)
    | Or(left: Q, right: Q)
    | Not(operand: Q)

  /** The `is_current=True` term filter. */
  const CurrentOnly: Q := TermFilter("is_current", "True")

  /** Whether a document matches `q`, given whether it matches each leaf
      query; scoring wraps do not change which documents match. */
  function Matches(q: Q, leaf: Q -> bool): bool
  {
    match q
    case MatchAll => true
    case And(a, b) => Matches(a, leaf) && Matches(b, leaf)
    case Or(a, b) => Matches(a, leaf) || Matches(b, leaf)
    case Not(a) => !Matches(a, leaf)
    case FunctionScore(a, _, _, _) => Matches(a, leaf)
    case _ => leaf(q)
  }

  /** The field queries of `q`, left to right. */
  function FieldQueries(q: Q): seq<Q>
  {
    match q
    case FieldQuery(_, _) => [q]
    case And(a, b) => FieldQueries(a) + FieldQueries(b)
    case Or(a, b) => FieldQueries(a) + FieldQueries(b)
    case Not(a) => FieldQueries(a)
    case FunctionScore(a, _, _, _) => FieldQueries(a)
    case _ => []
  }
}
