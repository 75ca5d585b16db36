/** The vocabulary of the classic arXiv query language: the field prefixes
    (`ti:`, `au:`, ...), the boolean operators and the parsed phrase tree.
    The repository imports `Field`, `Operator`, `Term` and `Phrase` without
    defining them; they are defined here from their uses: the prefix table of
    `search/controllers/api/__init__.py` and the operator names `AND`, `OR`,
    `ANDNOT`. */
module Phrases {
  import opened Wrappers

  datatype Field =
    | Title | Author | Abstract | Comment | JournalReference
    | SubjectCategory | ReportNumber | Identifier | All

  /** The enum value of a field, which is also how it prints. */
  function Prefix(f: Field): (s: string)
    ensures 2 <= |s| <= 3 && ':' !in s
  {
    match f
    case Title => "ti"
    case Author => "au"
    case Abstract => "abs"
    case Comment => "co"
    case JournalReference => "jr"
    case SubjectCategory => "cat"
    case ReportNumber => "rn"
    case Identifier => "id"
    case All => "all"
  }

  /** `Field(s)`: the field whose value is `s`; `None` stands for the
      `ValueError` the enum raises on any other string. */
  function FieldOf(s: string): (r: Option<Field>)
    ensures r.Some? ==> Prefix(r.value) == s
  {
    if s == "ti" then Some(Title)
    else if s == "au" then Some(Author)
    else if s == "abs" then Some(Abstract)
    else if s == "co" then Some(Comment)
    else if s == "jr" then Some(JournalReference)
    else if s == "cat" then Some(SubjectCategory)
    else if s == "rn" then Some(ReportNumber)
    else if s == "id" then Some(Identifier)
    else if s == "all" then Some(All)
    else None
  }

  /** Every field is recognised by its own prefix, so `FieldOf` fails exactly
      on strings that are no field's prefix. */
  lemma FieldOfPrefix(f: Field)
    ensures FieldOf(Prefix(f)) == Some(f)
  {
  }

  datatype Operator = And | Or | AndNot

  /** The enum value of an operator. */
  function OpText(o: Operator): (s: string)
    ensures 2 <= |s| && ' ' !in s && ':' !in s
  {
    match o
    case And => "AND"
    case Or => "OR"
    case AndNot => "ANDNOT"
  }

  /** `Operator(s)`; `None` stands for the `ValueError`. */
  function OperatorOf(s: string): (r: Option<Operator>)
    ensures r.Some? ==> OpText(r.value) == s
  {
    if s == "AND" then Some(And)
    else if s == "OR" then Some(Or)
    else if s == "ANDNOT" then Some(AndNot)
    else None
  }

  lemma OperatorOfText(o: Operator)
    ensures OperatorOf(OpText(o)) == Some(o)
  {
  }

  datatype Term = Term(field: Field, value: string)

  /** A parsed classic query: a term, a unary `(op, operand)` pair or a
      binary `(op, left, right)` triple. */
  datatype Phrase =
    | Leaf(term: Term)
    | Unary(op: Operator, operand: Phrase)
    | Binary(op: Operator, left: Phrase, right: Phrase)
}
