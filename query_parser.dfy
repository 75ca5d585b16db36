/** The classic-query serialiser `phrase_to_query_string` and the token
    actions of the `QueryTransformer` that turns a parse tree into a
    `Phrase` (search/domain/classic_api/query_parser.py). The LALR parser
    that drives the actions is a library and is taken as a parameter. */
module ClassicQueryParser {
  import opened Wrappers
  import opened Strings
  import opened Phrases

  /** `re.search(r"\s", s) is not None`. */
  predicate HasWhitespace(s: string)
  {
    exists i :: 0 <= i < |s| && IsSpace(s[i])
  }

  /** A term prints as `field:value`, the value double-quoted when it holds
      whitespace. */
  function TermString(t: Term): (r: string)
  {
    Prefix(t.field) + ":" + ValueString(t.value)
  }

  /** The value part of a printed term. */
  function ValueString(v: string): string
  {
    if HasWhitespace(v) then "\"" + v + "\"" else v
  }

  /** Wraps a rendered compound phrase in parentheses unless it is at the
      top level. */
  function Enclose(value: string, depth: nat): string
  {
    if depth != 0 then "(" + value + ")" else value
  }

  /** `phrase_to_query_string(phrase, depth)` for a phrase that is not
      `None`. */
  function Render(p: Phrase, depth: nat): (r: string)
    ensures p.Leaf? ==> r == TermString(p.term)
  {
    match p
    case Leaf(t) => TermString(t)
    case Unary(op, e) => Enclose(OpText(op) + " " + Render(e, depth + 1), depth)
    case Binary(op, a, b) =>
      Enclose(Render(a, depth + 1) + " " + OpText(op) + " " + Render(b, depth + 1), depth)
  }

  /** `phrase_to_query_string(phrase)`: `None` prints as the empty string. */
  function PhraseToQueryString(p: Option<Phrase>): (r: string)
    ensures p.None? ==> r == ""
    ensures p.Some? ==> r != []
  {
    match p
    case None => ""
    case Some(q) =>
      RenderNonEmpty(q, 0);
      Render(q, 0)
  }

  lemma RenderNonEmpty(p: Phrase, depth: nat)
    ensures Render(p, depth) != []
  {
    match p
    case Leaf(t) =>
    case Unary(op, e) =>
    case Binary(op, a, b) =>
  }

  /** Below the top level the depth no longer matters. */
  lemma {:induction false} RenderDeep(p: Phrase, depth: nat)
    ensures Render(p, depth + 1) == Render(p, 1)
  {
    match p
    case Leaf(t) =>
    case Unary(op, e) =>
      RenderDeep(e, depth + 1);
      RenderDeep(e, 1);
    case Binary(op, a, b) =>
      RenderDeep(a, depth + 1);
      RenderDeep(a, 1);
      RenderDeep(b, depth + 1);
      RenderDeep(b, 1);
  }

  /** Depth only decides the outer parentheses: a phrase nested at any
      depth prints as its top-level rendering, parenthesised unless it is a
      term. */
  lemma RenderNested(p: Phrase, depth: nat)
    ensures Render(p, depth + 1) == if p.Leaf? then Render(p, 0) else "(" + Render(p, 0) + ")"
  {
    RenderDeep(p, depth);
    match p
    case Leaf(t) =>
    case Unary(op, e) =>
      RenderDeep(e, 1);
    case Binary(op, a, b) =>
      RenderDeep(a, 1);
      RenderDeep(b, 1);
  }

  /** The top level is never parenthesised, and every operand that is
      itself compound is. */
  lemma RenderBinary(op: Operator, a: Phrase, b: Phrase)
    ensures Render(Binary(op, a, b), 0)
         == Operand(a) + " " + OpText(op) + " " + Operand(b)
  {
    var x, o, y := Render(a, 1), OpText(op), Render(b, 1);
    assert Render(Binary(op, a, b), 0) == x + " " + o + " " + y;
    RenderNested(a, 0);
    RenderNested(b, 0);
    assert x == Operand(a) && y == Operand(b);
  }

  lemma RenderUnary(op: Operator, e: Phrase)
    ensures Render(Unary(op, e), 0) == OpText(op) + " " + Operand(e)
  {
    RenderNested(e, 0);
  }

  /** How a phrase prints as an operand: terms bare, compounds in
      parentheses. */
  function Operand(p: Phrase): string
  {
    if p.Leaf? then Render(p, 0) else "(" + Render(p, 0) + ")"
  }

  // ---------------------------------------------------------------------
  // Transformer actions

  /** The `string` action: one surrounding pair of double quotes is removed
      (`s[1:-1]`, empty for a lone `"`), then surrounding whitespace. */
  function StringAction(s: string): (r: string)
    ensures |r| <= |s|
    ensures r == [] || (!IsSpace(r[0]) && !IsSpace(r[|r| - 1]))
  {
    var inner := if |s| >= 1 && s[0] == '"' && s[|s| - 1] == '"'
                 then (if |s| >= 2 then s[1..|s| - 1] else [])
                 else s;
    Strip(inner)
  }

  /** Errors the actions raise: an unknown field or operator name. */
  datatype ActionError = NotAField(name: string) | NotAnOperator(name: string)

  /** The `field` action, `Field(str(f))`. */
  function FieldAction(f: string): (r: Result<Field, ActionError>)
    ensures r.Ok? ==> Prefix(r.value) == f
    ensures r.Err? ==> r.error == NotAField(f)
  {
    match FieldOf(f)
    case Some(field) => Ok(field)
    case None => Err(NotAField(f))
  }

  /** The `unary_operator` and `binary_operator` actions, `Operator(str(b))`. */
  function OperatorAction(b: string): (r: Result<Operator, ActionError>)
    ensures r.Ok? ==> OpText(r.value) == b
    ensures r.Err? ==> r.error == NotAnOperator(b)
  {
    match OperatorOf(b)
    case Some(op) => Ok(op)
    case None => Err(NotAnOperator(b))
  }

  /** The `term` action, `Term(*tokens)`, on a field token and a string
      token. */
  function TermAction(field: Field, value: string): Phrase
  {
    Leaf(Term(field, value))
  }

  /** The `unary_expression` action: `(operator, operand)`. */
  function UnaryExpression(op: Operator, operand: Phrase): Phrase
  {
    Unary(op, operand)
  }

  /** The `binary_expression` action: the tokens arrive as
      `left, operator, right` and are reordered to `(operator, left, right)`. */
  function BinaryExpression(left: Phrase, op: Operator, right: Phrase): Phrase
  {
    Binary(op, left, right)
  }

  /** The reordering keeps the source order for the serialiser: a binary
      expression prints its operands back on the sides of its operator. */
  lemma BinaryExpressionPrintsInSourceOrder(left: Phrase, op: Operator, right: Phrase)
    ensures PhraseToQueryString(Some(BinaryExpression(left, op, right)))
         == Operand(left) + " " + OpText(op) + " " + Operand(right)
  {
    RenderBinary(op, left, right);
  }

  lemma UnaryExpressionPrintsInSourceOrder(op: Operator, operand: Phrase)
    ensures PhraseToQueryString(Some(UnaryExpression(op, operand)))
         == OpText(op) + " " + Operand(operand)
  {
    RenderUnary(op, operand);
  }

  /** A printed value is read back by the `string` action when it has no
      surrounding whitespace and is not itself wrapped in quotes. */
  lemma ValueRoundTrip(v: string)
    requires v == [] || (!IsSpace(v[0]) && !IsSpace(v[|v| - 1]))
    requires !(|v| >= 1 && v[0] == '"' && v[|v| - 1] == '"')
    ensures StringAction(ValueString(v)) == v
  {
    var s := ValueString(v);
    if HasWhitespace(v) {
      assert s[1..|s| - 1] == v;
    }
  }

  /** A term the serialiser prints is read back by the `field` and `string`
      actions, under the same conditions on its value. */
  lemma TermRoundTrip(t: Term)
    requires t.value == [] || (!IsSpace(t.value[0]) && !IsSpace(t.value[|t.value| - 1]))
    requires !(|t.value| >= 1 && t.value[0] == '"' && t.value[|t.value| - 1] == '"')
    ensures var s := TermString(t);
            var k := |Prefix(t.field)|;
            s[k] == ':' && FieldAction(s[..k]) == Ok(t.field) && StringAction(s[k + 1..]) == t.value
  {
    var pre := Prefix(t.field);
    var rest := ValueString(t.value);
    var s := pre + ":" + rest;
    assert s[..|pre|] == pre;
    assert s[|pre| + 1..] == rest;
    FieldOfPrefix(t.field);
    ValueRoundTrip(t.value);
  }

  /** The `query` action on an empty query gives `None`; any phrase the
      parser yields is kept. */
  datatype ParseError = BadRequest

  /** `parse_classic_query`: whatever the library parser raises surfaces
      as `BadRequest`. */
  function ParseClassicQuery<E>(parsed: Result<Option<Phrase>, E>): (r: Result<Option<Phrase>, ParseError>)
    ensures r.Err? <==> parsed.Err?
    ensures r.Ok? ==> r.value == parsed.value
  {
    match parsed
    case Ok(p) => Ok(p)
    case Err(_) => Err(BadRequest)
  }
}
