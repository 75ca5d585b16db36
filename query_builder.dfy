/** The classic API's translation of a parsed phrase into an index query
    (search/services/index/classic_api/query_builder.py): each term through
    the field's query, operators through `&`, `|` and `~`. */
module ClassicQueryBuilder {
  import opened Wrappers
  import opened Phrases
  import QA = QueryAlgebra

  /** What the translation raises: `FIELD_TERM_MAPPING[field]` for a field
      with no entry, and `term.is_empty` on an operand that is not a term. */
  datatype BuildError = KeyError(field: Field) | AttributeError

  /** `FIELD_TERM_MAPPING[field](value)`: the field's query for the value;
      `None` for the one field without an entry. */
  function FieldTermMapping(f: Field, value: string): (r: Option<QA.Q>)
  {
    match f
    case Author => Some(QA.FieldQuery("author", value))
    case Comment => Some(QA.FieldQuery("comments", value))
    case Identifier => Some(QA.FieldQuery("paper_id", value))
    case JournalReference => Some(QA.FieldQuery("journal_ref", value))
    case ReportNumber => Some(QA.FieldQuery("report_num", value))
    case SubjectCategory => Some(QA.AnySubject(value))
    case Title => Some(QA.FieldQuery("title", value))
    case All => Some(QA.FieldQuery("all", value))
    case Abstract => None
  }

  /** The mapping covers every field but `Abstract`, and sends different
      fields to different queries. */
  lemma FieldTermMappingCoverage(f: Field, g: Field, value: string)
    ensures FieldTermMapping(f, value).Some? <==> f != Abstract
    ensures FieldTermMapping(f, value).Some? && FieldTermMapping(g, value).Some? && f != g ==>
              FieldTermMapping(f, value) != FieldTermMapping(g, value)
  {
  }

  /** `Term.is_empty`: a term with no value. */
  predicate IsEmpty(t: Term)
  {
    t.value == ""
  }

  /** `term_to_query`: an empty term matches everything, checked before the
      field is looked up. */
  function TermToQuery(t: Term): (r: Result<QA.Q, BuildError>)
    ensures IsEmpty(t) ==> r == Ok(QA.MatchAll)
    ensures !IsEmpty(t) ==> (r.Ok? <==> t.field != Abstract)
    ensures r.Err? ==> r.error == KeyError(t.field)
  {
    if IsEmpty(t) then Ok(QA.MatchAll)
    else
      match FieldTermMapping(t.field, t.value)
      case Some(q) => Ok(q)
      case None => Err(KeyError(t.field))
  }

  /** `query_builder`: a term through `term_to_query`; a unary phrase to
      the negation of its operand, which must be a term; a binary phrase
      with both sides translated, AND to `q1 & q2`, OR to `q1 | q2`, ANDNOT
      to `q1 & ~q2`. */
  function QueryBuilder(p: Phrase): Result<QA.Q, BuildError>
  {
    match p
    case Leaf(t) => TermToQuery(t)
    case Unary(_, operand) =>
      if operand.Leaf? then
        match TermToQuery(operand.term)
        case Err(e) => Err(e)
        case Ok(q) => Ok(QA.Not(q))
      else Err(AttributeError)
    case Binary(op, l, r) =>
      match QueryBuilder(l)
      case Err(e) => Err(e)
      case Ok(q1) =>
        match QueryBuilder(r)
        case Err(e) => Err(e)
        case Ok(q2) =>
          match op
          case And => Ok(QA.And(q1, q2))
          case Or => Ok(QA.Or(q1, q2))
          case AndNot => Ok(QA.And(q1, QA.Not(q2)))
  }

  /** The phrases the builder translates: no non-empty `Abstract` term, and
      every unary operand a term. */
  predicate Translatable(p: Phrase)
  {
    match p
    case Leaf(t) => IsEmpty(t) || t.field != Abstract
    case Unary(_, operand) => operand.Leaf? && Translatable(operand)
    case Binary(_, l, r) => Translatable(l) && Translatable(r)
  }

  /** What a phrase means for a document, given which terms it matches: an
      empty term matches everything, `ANDNOT` is conjunction with a
      negation, and a unary phrase negates its operand. */
  predicate PhraseHolds(p: Phrase, matches: Term -> bool)
  {
    match p
    case Leaf(t) => IsEmpty(t) || matches(t)
    case Unary(_, operand) => !PhraseHolds(operand, matches)
    case Binary(op, l, r) =>
      match op
      case And => PhraseHolds(l, matches) && PhraseHolds(r, matches)
      case Or => PhraseHolds(l, matches) || PhraseHolds(r, matches)
      case AndNot => PhraseHolds(l, matches) && !PhraseHolds(r, matches)
  }

  /** The builder fails exactly on the phrases it cannot translate, and
      otherwise builds a query that a document matches exactly when the
      phrase holds of it, each term standing for its field's query. */
  lemma {:induction false} QueryBuilderMeaning(p: Phrase, leaf: QA.Q -> bool)
    ensures QueryBuilder(p).Ok? <==> Translatable(p)
    ensures QueryBuilder(p).Ok? ==>
              (QA.Matches(QueryBuilder(p).value, leaf) <==>
               PhraseHolds(p, (t: Term) => t.field != Abstract && leaf(FieldTermMapping(t.field, t.value).value)))
  {
    match p
    case Leaf(t) =>
      if !IsEmpty(t) && t.field != Abstract {
        assert QA.Matches(FieldTermMapping(t.field, t.value).value, leaf) == leaf(FieldTermMapping(t.field, t.value).value);
      }
    case Unary(_, operand) =>
      if operand.Leaf? {
        QueryBuilderMeaning(operand, leaf);
      }
    case Binary(op, l, r) =>
      QueryBuilderMeaning(l, leaf);
      QueryBuilderMeaning(r, leaf);
  }

  /** An empty term in a conjunction changes nothing: `(AND, empty, p)`
      matches exactly the documents `p` matches. */
  lemma EmptyTermInConjunction(f: Field, p: Phrase, leaf: QA.Q -> bool)
    requires QueryBuilder(p).Ok?
    ensures QueryBuilder(Binary(And, Leaf(Term(f, "")), p)).Ok?
    ensures QA.Matches(QueryBuilder(Binary(And, Leaf(Term(f, "")), p)).value, leaf) == QA.Matches(QueryBuilder(p).value, leaf)
  {
  }
}
