/** The hand-written scanner behind the `query=` classic syntax of the
    search API (search/controllers/api/classic_parser.py). One pass over
    the characters keeps a stack of open-parenthesis offsets, a quote flag
    and the start of the current token; closed top-level groups are parsed
    recursively. The tokens are then classed as fielded terms or operators,
    and a pending operator is attached to every later operand. */
module ApiClassicParser {
  import opened Wrappers
  import opened Strings
  import opened Phrases

  /** What `parse_classic_query` raises: `BadRequest` with its message,
      the `IndexError` of popping an empty stack, and the `TypeError` of
      `tuple(*phrases)` with two or more phrases. */
  datatype ParseError = BadRequest(message: string) | IndexError | TypeError

  /** The phrases this parser builds: a `(Field, value)` pair, an
      `(operator, phrase)` pair, or the empty tuple. */
  datatype Node =
    | FieldValue(field: Field, value: string)
    | Prefixed(op: Operator, node: Node)
    | EmptyTuple

  /** A token of the first pass: raw text or an already parsed group. */
  datatype Raw = Text(s: string) | Group(node: Node)

  /** A classed token. */
  datatype Classed = OpToken(op: Operator) | Operand(node: Node)

  /** Where the first pass ends: at the end of the text with the tokens it
      collected and the start of the unfinished token, or early, with the
      value or exception that leaves the function. */
  datatype Scan = Finished(tokens: seq<Raw>, tokenStart: nat) | Early(result: Result<Node, ParseError>)

  /** The stack holds offsets of open parentheses already passed. */
  predicate StackBelow(stack: seq<nat>, i: nat)
  {
    forall k :: 0 <= k < |stack| ==> stack[k] < i
  }

  /** `parse_classic_query(query)`. */
  function Parse(q: string): Result<Node, ParseError>
    decreases |q|, 1
  {
    match ScanFrom(q, 0, 0, [], false, [])
    case Early(r) => r
    case Finished(tokens, ts) => Finish(WithTail(q, tokens, ts))
  }

  /** The character loop from offset `i` on, with the loop's state. */
  function ScanFrom(q: string, i: nat, ts: nat, stack: seq<nat>, inQuote: bool, tokens: seq<Raw>): (r: Scan)
    requires i <= |q| && ts <= i && StackBelow(stack, i)
    ensures r.Finished? ==> r.tokenStart <= |q|
    decreases |q|, 0, |q| - i
  {
    if i == |q| then Finished(tokens, ts)
    else
      var c := q[i];
      if c == '(' then
        ScanFrom(q, i + 1, ts, stack + [i], inQuote, tokens)
      else if c == ')' then
        if stack == [] then Early(Err(IndexError))
        else
          var start := stack[|stack| - 1];
          var rest := stack[..|stack| - 1];
          if rest == [] && start == 0 && i + 1 == |q| then Early(Parse(q[1..i]))
          else if rest == [] then
            match Parse(q[start + 1..i])
            case Err(e) => Early(Err(e))
            case Ok(n) => ScanFrom(q, i + 1, i + 1, rest, inQuote, tokens + [Group(n)])
          else ScanFrom(q, i + 1, ts, rest, inQuote, tokens)
      else if c == '"' then
        ScanFrom(q, i + 1, ts, stack, !inQuote, tokens)
      else if c == ' ' then
        if inQuote then ScanFrom(q, i + 1, ts, stack, inQuote, tokens)
        else if stack == [] && ts != i then
          ScanFrom(q, i + 1, i + 1, stack, inQuote, tokens + [Text(q[ts..i])])
        else if ts == i then ScanFrom(q, i + 1, i + 1, stack, inQuote, tokens)
        else ScanFrom(q, i + 1, ts, stack, inQuote, tokens)
      else
        ScanFrom(q, i + 1, ts, stack, inQuote, tokens)
  }

  /** The tokens with the final-position token appended when it is not
      empty. */
  function WithTail(q: string, tokens: seq<Raw>, ts: nat): seq<Raw>
    requires ts <= |q|
  {
    if ts < |q| then tokens + [Text(q[ts..])] else tokens
  }

  /** Classing, grouping and the final wrapping. */
  function Finish(tokens: seq<Raw>): Result<Node, ParseError>
  {
    match MapResult(tokens, ClassifyOne)
    case Err(e) => Err(e)
    case Ok(classed) => Wrap(GroupAll(classed).phrases)
  }

  /** One phrase is returned as it is; otherwise `tuple(*phrases)`, which
      is the empty tuple for none and a `TypeError` for two or more. */
  function Wrap(phrases: seq<Node>): (r: Result<Node, ParseError>)
    ensures r.Ok? <==> |phrases| <= 1
    ensures |phrases| == 1 ==> r.value == phrases[0]
    ensures |phrases| == 0 ==> r == Ok(EmptyTuple)
    ensures |phrases| >= 2 <==> r == Err(TypeError)
  {
    if |phrases| == 1 then Ok(phrases[0])
    else if |phrases| == 0 then Ok(EmptyTuple)
    else Err(TypeError)
  }

  /** `_parse_operator`: the stripped text must be an operator name. */
  function ParseOperator(characters: string): (r: Result<Operator, ParseError>)
    ensures r.Ok? ==> OpText(r.value) == Strip(characters)
    ensures r.Err? ==> r.error == BadRequest("Cannot parse fragment: " + characters)
  {
    match OperatorOf(Strip(characters))
    case Some(op) => Ok(op)
    case None => Err(BadRequest("Cannot parse fragment: " + characters))
  }

  /** `value[1:-1]` when the value is wrapped in double quotes. */
  function Unquote(value: string): (r: string)
    ensures |r| <= |value|
  {
    if |value| >= 1 && value[0] == '"' && value[|value| - 1] == '"' then
      (if |value| >= 2 then value[1..|value| - 1] else [])
    else value
  }

  /** `_parse_field_query`: split at the first `:`, the name must be a
      field, and one pair of surrounding quotes is removed from the value. */
  function ParseFieldQuery(part: string): (r: Result<Node, ParseError>)
    requires ':' in part
    ensures r.Ok? ==> r.value.FieldValue?
    ensures var k := IndexOf(part, ':');
            r.Ok? ==> Prefix(r.value.field) == part[..k] && r.value.value == Unquote(part[k + 1..])
    ensures var k := IndexOf(part, ':');
            r.Err? ==> r.error == BadRequest("Invalid field: " + part[..k])
  {
    var k := IndexOf(part, ':');
    var name := part[..k];
    var value := part[k + 1..];
    match FieldOf(name)
    case None => Err(BadRequest("Invalid field: " + name))
    case Some(f) => Ok(FieldValue(f, Unquote(value)))
  }

  function ClassifyOne(t: Raw): (r: Result<Classed, ParseError>)
    ensures t.Group? ==> r == Ok(Operand(t.node))
  {
    match t
    case Group(n) => Ok(Operand(n))
    case Text(s) =>
      if ':' in s then
        match ParseFieldQuery(s)
        case Err(e) => Err(e)
        case Ok(n) => Ok(Operand(n))
      else
        match ParseOperator(s)
        case Err(e) => Err(e)
        case Ok(op) => Ok(OpToken(op))
  }

  datatype Grouping = Grouping(phrases: seq<Node>, current: Option<Operator>)

  /** The grouping loop over the classed tokens. */
  function GroupAll(cs: seq<Classed>): Grouping
  {
    if cs == [] then Grouping([], None)
    else
      var g := GroupAll(cs[..|cs| - 1]);
      match cs[|cs| - 1]
      case OpToken(op) => Grouping(g.phrases, Some(op))
      case Operand(n) =>
        Grouping(g.phrases + [if g.current.Some? then Prefixed(g.current.value, n) else n], g.current)
  }

  // ---------------------------------------------------------------------
  // The parser as written: three loops and a recursive call per group.

  method ParseClassicQuery(q: string) returns (r: Result<Node, ParseError>)
    ensures r == Parse(q)
    decreases |q|
  {
    var tokens: seq<Raw> := [];
    var ts: nat := 0;
    var stack: seq<nat> := [];
    var inQuote := false;
    var i: nat := 0;
    while i < |q|
      invariant i <= |q| && ts <= i && StackBelow(stack, i)
      invariant ScanFrom(q, i, ts, stack, inQuote, tokens) == ScanFrom(q, 0, 0, [], false, [])
      decreases |q| - i
    {
      var c := q[i];
      if c == '(' {
        stack := stack + [i];
      } else if c == ')' {
        if stack == [] {
          return Err(IndexError);
        }
        var start := stack[|stack| - 1];
        stack := stack[..|stack| - 1];
        if stack == [] && start == 0 && i + 1 == |q| {
          r := ParseClassicQuery(q[1..i]);
          return;
        } else if stack == [] {
          var inner := ParseClassicQuery(q[start + 1..i]);
          if inner.Err? {
            return Err(inner.error);
          }
          tokens := tokens + [Group(inner.value)];
          ts := i + 1;
        }
      } else if c == '"' {
        inQuote := !inQuote;
      } else if c == ' ' {
        if inQuote {
        } else if stack == [] && ts != i {
          tokens := tokens + [Text(q[ts..i])];
          ts := i + 1;
        } else if ts == i {
          ts := i + 1;
        }
      }
      i := i + 1;
    }
    if ts < |q| {
      tokens := tokens + [Text(q[ts..])];
    }
    var classed := ClassifyTokens(tokens);
    if classed.Err? {
      return Err(classed.error);
    }
    var phrases := GroupTokens(classed.value);
    if |phrases| == 1 {
      r := Ok(phrases[0]);
    } else if |phrases| == 0 {
      r := Ok(EmptyTuple);
    } else {
      r := Err(TypeError);
    }
  }

  /** The classing loop. */
  method ClassifyTokens(tokens: seq<Raw>) returns (r: Result<seq<Classed>, ParseError>)
    ensures r == MapResult(tokens, ClassifyOne)
  {
    var classed: seq<Classed> := [];
    var k := 0;
    while k < |tokens|
      invariant k <= |tokens|
      invariant MapResult(tokens[..k], ClassifyOne) == Ok(classed)
    {
      var c := ClassifyOne(tokens[k]);
      assert tokens[..k + 1][..k] == tokens[..k];
      if c.Err? {
        MapResultFailurePersists(tokens, ClassifyOne, k + 1);
        return Err(c.error);
      }
      classed := classed + [c.value];
      k := k + 1;
    }
    assert tokens[..k] == tokens;
    return Ok(classed);
  }

  /** The grouping loop: a pending operator, once seen, is attached to
      every later operand and only replaced by the next operator. */
  method GroupTokens(cs: seq<Classed>) returns (phrases: seq<Node>)
    ensures phrases == GroupAll(cs).phrases
  {
    phrases := [];
    var current: Option<Operator> := None;
    var k := 0;
    while k < |cs|
      invariant k <= |cs|
      invariant GroupAll(cs[..k]) == Grouping(phrases, current)
    {
      assert cs[..k + 1][..k] == cs[..k];
      if cs[k].OpToken? {
        current := Some(cs[k].op);
      } else {
        var n := cs[k].node;
        phrases := phrases + [if current.Some? then Prefixed(current.value, n) else n];
      }
      k := k + 1;
    }
    assert cs[..k] == cs;
  }

  // ---------------------------------------------------------------------
  // Properties

  /** A query wrapped whole in one pair of parentheses parses as its
      inside, when the inside holds no parentheses of its own. */
  lemma WholeGroupParsesInside(s: string)
    requires forall j :: 0 <= j < |s| ==> s[j] != '(' && s[j] != ')'
    ensures Parse("(" + s + ")") == Parse(s)
  {
    var q := "(" + s + ")";
    assert q[1..|q| - 1] == s;
    ScanToClose(q, 1, 0, false, []);
    assert q[0] == '(' && [] + [0] == [0];
    assert ScanFrom(q, 0, 0, [], false, []) == ScanFrom(q, 1, 0, [0], false, []);
  }

  /** With only the outermost parenthesis open and no parenthesis before
      the last character, the scan ends by parsing the inside. */
  lemma {:induction false} ScanToClose(q: string, i: nat, ts: nat, inQuote: bool, tokens: seq<Raw>)
    requires 1 <= i < |q| && ts <= i && q[|q| - 1] == ')'
    requires forall j :: i <= j < |q| - 1 ==> q[j] != '(' && q[j] != ')'
    ensures ScanFrom(q, i, ts, [0], inQuote, tokens) == Early(Parse(q[1..|q| - 1]))
    decreases |q| - i
  {
    assert StackBelow([0], i);
    if i < |q| - 1 {
      if q[i] == '"' {
        ScanToClose(q, i + 1, ts, !inQuote, tokens);
      } else if q[i] == ' ' && !inQuote && ts == i {
        ScanToClose(q, i + 1, i + 1, inQuote, tokens);
      } else {
        ScanToClose(q, i + 1, ts, inQuote, tokens);
      }
    } else {
      assert [0][..0] == [];
    }
  }

  /** A closing parenthesis before any opening one pops the empty stack:
      the parser raises `IndexError`. */
  lemma CloseBeforeOpenFails(q: string, j: nat)
    requires j < |q| && q[j] == ')'
    requires forall m :: 0 <= m < j ==> q[m] != '('
    ensures Parse(q) == Err(IndexError)
  {
    ScanUnopened(q, j, 0, 0, false, []);
  }

  lemma {:induction false} ScanUnopened(q: string, j: nat, i: nat, ts: nat, inQuote: bool, tokens: seq<Raw>)
    requires i <= j < |q| && ts <= i && q[j] == ')'
    requires forall m :: i <= m < j ==> q[m] != '('
    ensures ScanFrom(q, i, ts, [], inQuote, tokens) == Early(Err(IndexError))
    decreases j - i
  {
    if q[i] != ')' {
      if q[i] == '"' {
        ScanUnopened(q, j, i + 1, ts, !inQuote, tokens);
      } else if q[i] == ' ' && !inQuote && ts != i {
        ScanUnopened(q, j, i + 1, i + 1, inQuote, tokens + [Text(q[ts..i])]);
      } else if q[i] == ' ' && !inQuote {
        ScanUnopened(q, j, i + 1, i + 1, inQuote, tokens);
      } else {
        ScanUnopened(q, j, i + 1, ts, inQuote, tokens);
      }
    }
  }

  /** A printed term classes back to its field and its value (without
      one pair of surrounding quotes). */
  lemma FieldQueryOfTerm(f: Field, v: string)
    ensures ParseFieldQuery(Prefix(f) + ":" + v) == Ok(FieldValue(f, Unquote(v)))
  {
    var p := Prefix(f);
    var s := p + ":" + v;
    assert s[|p|] == ':';
    var k := IndexOf(s, ':');
    assert s[..k] == p;
    assert s[k + 1..] == v;
    FieldOfPrefix(f);
  }

  /** An operator name surrounded by whitespace classes as that operator. */
  lemma OperatorOfName(op: Operator)
    ensures ParseOperator(OpText(op)) == Ok(op)
  {
    var t := OpText(op);
    assert !IsSpace(t[0]) && !IsSpace(t[|t| - 1]);
    assert Strip(t) == t;
    OperatorOfText(op);
  }

  /** How many operand tokens a classed sequence holds. */
  function Operands(cs: seq<Classed>): (n: nat)
    ensures n <= |cs|
  {
    if cs == [] then 0
    else Operands(cs[..|cs| - 1]) + (if cs[|cs| - 1].Operand? then 1 else 0)
  }

  /** The last operator token of a classed sequence, if any. */
  function LastOperator(cs: seq<Classed>): Option<Operator>
  {
    if cs == [] then None
    else if cs[|cs| - 1].OpToken? then Some(cs[|cs| - 1].op)
    else LastOperator(cs[..|cs| - 1])
  }

  /** An operand with the pending operator, if any, attached. */
  function Attach(op: Option<Operator>, n: Node): Node
  {
    if op.Some? then Prefixed(op.value, n) else n
  }

  /** Grouping yields one phrase per operand, in order; each carries the
      last operator seen before it, which is never reset by an operand. */
  lemma GroupAllOperands(cs: seq<Classed>)
    ensures GroupAll(cs).current == LastOperator(cs)
    ensures |GroupAll(cs).phrases| == Operands(cs)
    ensures forall j :: 0 <= j < |cs| && cs[j].Operand? ==>
              Operands(cs[..j]) < Operands(cs) &&
              GroupAll(cs).phrases[Operands(cs[..j])] == Attach(LastOperator(cs[..j]), cs[j].node)
  {
    GroupAllCounts(cs);
    forall j | 0 <= j < |cs| && cs[j].Operand?
      ensures Operands(cs[..j]) < Operands(cs)
      ensures GroupAll(cs).phrases[Operands(cs[..j])] == Attach(LastOperator(cs[..j]), cs[j].node)
    {
      GroupAllPhrase(cs, j);
    }
  }

  /** The pending operator is the last one seen, and there is one phrase
      per operand. */
  lemma {:induction false} GroupAllCounts(cs: seq<Classed>)
    ensures GroupAll(cs).current == LastOperator(cs)
    ensures |GroupAll(cs).phrases| == Operands(cs)
    decreases |cs|
  {
    if cs != [] {
      GroupAllCounts(cs[..|cs| - 1]);
    }
  }

  /** The phrase of the operand at `j`. */
  lemma {:induction false} GroupAllPhrase(cs: seq<Classed>, j: nat)
    requires j < |cs| && cs[j].Operand?
    ensures Operands(cs[..j]) < Operands(cs)
    ensures Operands(cs[..j]) < |GroupAll(cs).phrases|
    ensures GroupAll(cs).phrases[Operands(cs[..j])] == Attach(LastOperator(cs[..j]), cs[j].node)
    decreases |cs|
  {
    var n := |cs| - 1;
    var init := cs[..n];
    GroupAllCounts(init);
    GroupAllCounts(cs);
    if j == n {
      assert cs[..j] == init;
    } else {
      GroupAllPhrase(init, j);
      assert init[j] == cs[j];
      assert init[..j] == cs[..j];
    }
  }

  /** Every query of two or more operands (two fielded terms joined by an
      operator, say) ends in `tuple(*phrases)` with several arguments,
      which raises `TypeError`. */
  lemma SeveralOperandsFail(tokens: seq<Raw>)
    requires MapResult(tokens, ClassifyOne).Ok? && Operands(MapResult(tokens, ClassifyOne).value) >= 2
    ensures Finish(tokens) == Err(TypeError)
  {
    GroupAllOperands(MapResult(tokens, ClassifyOne).value);
  }

  /** Text without parentheses, quotes or spaces. */
  predicate Plain(s: string)
  {
    forall m :: 0 <= m < |s| ==> s[m] != '(' && s[m] != ')' && s[m] != '"' && s[m] != ' '
  }

  /** Two fielded terms joined by an operator, such as
      `au:del_maestro AND ti:checkerboard`, scan to three tokens and
      raise `TypeError`: every binary query fails. */
  lemma BinaryQueryRaisesTypeError(f: Field, v: string, op: Operator, g: Field, w: string)
    requires Plain(v) && Plain(w)
    ensures Parse(Prefix(f) + ":" + v + " " + OpText(op) + " " + (Prefix(g) + ":" + w)) == Err(TypeError)
  {
    var a, b, c := Prefix(f) + ":" + v, OpText(op), Prefix(g) + ":" + w;
    PlainTerm(f, v);
    PlainTerm(g, w);
    assert Plain(b);
    ClassifyTerm(f, v);
    ClassifyTerm(g, w);
    ClassifyOperator(op);
    ThreeWordQuery(a, b, c);
  }

  /** Two operands around an operator make two phrases. */
  lemma ThreeWordQuery(a: string, b: string, c: string)
    requires Plain(a) && Plain(b) && Plain(c) && a != [] && b != [] && c != []
    requires ClassifyOne(Text(a)).Ok? && ClassifyOne(Text(a)).value.Operand?
    requires ClassifyOne(Text(b)).Ok? && ClassifyOne(Text(b)).value.OpToken?
    requires ClassifyOne(Text(c)).Ok? && ClassifyOne(Text(c)).value.Operand?
    ensures Parse(a + " " + b + " " + c) == Err(TypeError)
  {
    ParseThreeWords(a, b, c);
    var toks := [Text(a), Text(b), Text(c)];
    assert toks[0] == Text(a) && toks[1] == Text(b) && toks[2] == Text(c);
    forall k | 0 <= k < |toks|
      ensures ClassifyOne(toks[k]).Ok?
    {
      if k == 0 {
      } else if k == 1 {
      } else {
        assert k == 2;
      }
    }
    MapResultElementwise(toks, ClassifyOne);
    OperandsOfThree(MapResult(toks, ClassifyOne).value);
    SeveralOperandsFail(toks);
  }

  lemma OperandsOfThree(cs: seq<Classed>)
    requires |cs| == 3 && cs[0].Operand? && cs[1].OpToken? && cs[2].Operand?
    ensures Operands(cs) == 2
  {
    var c1, c2 := cs[..1], cs[..2];
    assert c1[..0] == [] && c1[0] == cs[0];
    assert Operands(c1) == 1;
    assert c2[..1] == c1 && c2[1] == cs[1];
    assert Operands(c2) == 1;
    assert cs[..2] == c2;
  }

  lemma ClassifyTerm(f: Field, v: string)
    ensures ClassifyOne(Text(Prefix(f) + ":" + v)) == Ok(Operand(FieldValue(f, Unquote(v))))
  {
    var a := Prefix(f) + ":" + v;
    assert a[|Prefix(f)|] == ':';
    FieldQueryOfTerm(f, v);
  }

  lemma ClassifyOperator(op: Operator)
    ensures ClassifyOne(Text(OpText(op))) == Ok(OpToken(op))
  {
    OperatorOfName(op);
  }

  /** Three plain words separated by single spaces parse as the three
      tokens. */
  lemma ParseThreeWords(a: string, b: string, c: string)
    requires Plain(a) && Plain(b) && Plain(c) && a != [] && b != [] && c != []
    ensures Parse(a + " " + b + " " + c) == Finish([Text(a), Text(b), Text(c)])
  {
    var q := a + " " + b + " " + c;
    ThreeTokens(a, b, c);
    assert q[|a| + |b| + 2..] == c;
    assert WithTail(q, [Text(a), Text(b)], |a| + |b| + 2) == [Text(a), Text(b), Text(c)];
  }

  lemma PlainTerm(f: Field, v: string)
    requires Plain(v)
    ensures Plain(Prefix(f) + ":" + v)
  {
    var p := Prefix(f);
    assert Plain(p) by {
      match f
      case Title =>
      case Author =>
      case Abstract =>
      case Comment =>
      case JournalReference =>
      case SubjectCategory =>
      case ReportNumber =>
      case Identifier =>
      case All =>
    }
    var s := p + ":" + v;
    forall m | 0 <= m < |s|
      ensures s[m] != '(' && s[m] != ')' && s[m] != '"' && s[m] != ' '
    {
      if m > |p| {
        assert s[m] == v[m - |p| - 1];
      }
    }
  }

  /** Three plain words separated by single spaces scan to the first two
      as tokens, the third left as the final-position token. */
  lemma ThreeTokens(a: string, b: string, c: string)
    requires Plain(a) && Plain(b) && Plain(c) && a != [] && b != []
    ensures var q := a + " " + b + " " + c;
            ScanFrom(q, 0, 0, [], false, []) == Finished([Text(a), Text(b)], |a| + |b| + 2)
  {
    var q := a + " " + b + " " + c;
    var i, j := |a|, |a| + 1 + |b|;
    assert q[..i] == a && q[i] == ' ';
    assert q[i + 1..j] == b && q[j] == ' ';
    assert forall m :: 0 <= m < i ==> q[m] == a[m];
    assert forall m :: i < m < j ==> q[m] == b[m - i - 1];
    assert forall m :: j < m < |q| ==> q[m] == c[m - j - 1];
    assert q[0..i] == a;
    assert [] + [Text(q[0..i])] == [Text(a)];
    assert [Text(a)] + [Text(q[i + 1..j])] == [Text(a), Text(b)];
    PlainRun(q, 0, i, 0, [], false, []);
    assert ScanFrom(q, i, 0, [], false, []) == ScanFrom(q, i + 1, i + 1, [], false, [Text(a)]);
    PlainRun(q, i + 1, j, i + 1, [], false, [Text(a)]);
    assert [Text(a)] + [Text(b)] == [Text(a), Text(b)];
    assert ScanFrom(q, j, i + 1, [], false, [Text(a)]) == ScanFrom(q, j + 1, j + 1, [], false, [Text(a), Text(b)]);
    PlainRun(q, j + 1, |q|, j + 1, [], false, [Text(a), Text(b)]);
  }

  /** Characters other than parentheses, quotes and spaces leave the scan
      state as it is. */
  lemma {:induction false} PlainRun(q: string, i: nat, j: nat, ts: nat, stack: seq<nat>, inQuote: bool, tokens: seq<Raw>)
    requires i <= j <= |q| && ts <= i && StackBelow(stack, i)
    requires forall m :: i <= m < j ==> q[m] != '(' && q[m] != ')' && q[m] != '"' && q[m] != ' '
    ensures StackBelow(stack, j)
    ensures ScanFrom(q, i, ts, stack, inQuote, tokens) == ScanFrom(q, j, ts, stack, inQuote, tokens)
    decreases j - i
  {
    if i < j {
      PlainRun(q, i + 1, j, ts, stack, inQuote, tokens);
    }
  }

  // ---------------------------------------------------------------------
  // How the first pass splits the query, for every query

  /** Raw text tokens, one per word. */
  function Texts(ws: seq<string>): (r: seq<Raw>)
    ensures |r| == |ws| && forall k :: 0 <= k < |ws| ==> r[k] == Text(ws[k])
  {
    if ws == [] then [] else [Text(ws[0])] + Texts(ws[1..])
  }

  /** No raw text token is empty. */
  predicate TextsNonEmpty(tokens: seq<Raw>)
  {
    forall k :: 0 <= k < |tokens| && tokens[k].Text? ==> tokens[k].s != []
  }

  /** The scan only ever adds non-empty text tokens. */
  lemma {:induction false} ScanKeepsTextsNonEmpty(q: string, i: nat, ts: nat, stack: seq<nat>, inQuote: bool, tokens: seq<Raw>)
    requires i <= |q| && ts <= i && StackBelow(stack, i)
    requires TextsNonEmpty(tokens)
    ensures var sc := ScanFrom(q, i, ts, stack, inQuote, tokens);
            sc.Finished? ==> TextsNonEmpty(sc.tokens)
    decreases |q| - i
  {
    if i < |q| {
      var c := q[i];
      if c == '(' {
        ScanKeepsTextsNonEmpty(q, i + 1, ts, stack + [i], inQuote, tokens);
      } else if c == ')' {
        if stack != [] {
          var start, rest := stack[|stack| - 1], stack[..|stack| - 1];
          assert StackBelow(rest, i + 1);
          if rest == [] && start == 0 && i + 1 == |q| {
          } else if rest == [] {
            match Parse(q[start + 1..i])
            case Err(_) =>
            case Ok(n) => ScanKeepsTextsNonEmpty(q, i + 1, i + 1, rest, inQuote, tokens + [Group(n)]);
          } else {
            ScanKeepsTextsNonEmpty(q, i + 1, ts, rest, inQuote, tokens);
          }
        }
      } else if c == '"' {
        ScanKeepsTextsNonEmpty(q, i + 1, ts, stack, !inQuote, tokens);
      } else if c == ' ' && !inQuote && stack == [] && ts != i {
        ScanKeepsTextsNonEmpty(q, i + 1, i + 1, stack, inQuote, tokens + [Text(q[ts..i])]);
      } else if c == ' ' && !inQuote && ts == i {
        ScanKeepsTextsNonEmpty(q, i + 1, i + 1, stack, inQuote, tokens);
      } else {
        ScanKeepsTextsNonEmpty(q, i + 1, ts, stack, inQuote, tokens);
      }
    }
  }

  /** Whatever the query, the first pass never produces an empty text
      token: runs of spaces are skipped, and the final-position token is
      added only when something is left. */
  lemma RawTokensNonEmpty(q: string)
    ensures var sc := ScanFrom(q, 0, 0, [], false, []);
            sc.Finished? ==> TextsNonEmpty(WithTail(q, sc.tokens, sc.tokenStart))
  {
    ScanKeepsTextsNonEmpty(q, 0, 0, [], false, []);
  }

  /** A query of words separated by plain spaces: no parentheses, no
      quotes, and no whitespace other than the space. */
  predicate SpaceSeparated(q: string)
  {
    forall m :: 0 <= m < |q| ==> q[m] != '(' && q[m] != ')' && q[m] != '"' && (IsSpace(q[m]) ==> q[m] == ' ')
  }

  /** One step of the scan over a space-separated query. */
  lemma SpaceSeparatedStep(q: string, i: nat, ts: nat, tokens: seq<Raw>)
    requires SpaceSeparated(q) && ts <= i < |q|
    ensures q[i] == ' ' && ts != i ==>
              ScanFrom(q, i, ts, [], false, tokens) == ScanFrom(q, i + 1, i + 1, [], false, tokens + [Text(q[ts..i])])
    ensures q[i] == ' ' && ts == i ==>
              ScanFrom(q, i, ts, [], false, tokens) == ScanFrom(q, i + 1, i + 1, [], false, tokens)
    ensures q[i] != ' ' ==> !IsSpace(q[i]) && ScanFrom(q, i, ts, [], false, tokens) == ScanFrom(q, i + 1, ts, [], false, tokens)
  {
  }

  /** A word ended by a space: it is the first word, and the words after
      the space follow. */
  lemma WordThenRest(q: string, ts: nat, i: nat)
    requires ts < i < |q| && q[i] == ' ' && NoSpace(q[ts..i])
    ensures SplitWs(q[ts..]) == [q[ts..i]] + SplitWs(q[i + 1..])
  {
    SpaceThenRest(q, i);
    SplitWsWord(q[ts..i], q[i..]);
    SuffixSplit(q, ts, i);
  }

  /** The words from a space on are the words after it. */
  lemma SpaceThenRest(q: string, i: nat)
    requires i < |q| && q[i] == ' '
    ensures SplitWs(q[i..]) == SplitWs(q[i + 1..])
  {
    assert q[i..][0] == ' ' && q[i..][1..] == q[i + 1..];
    SplitWsDropSpace(q[i..]);
  }

  /** At the end of the text the unfinished token is the last word. */
  lemma TailIsLastWord(q: string, ts: nat)
    requires ts <= |q| && NoSpace(q[ts..])
    ensures WithTail(q, [], ts) == Texts(SplitWs(q[ts..]))
  {
    if ts < |q| {
      SplitWsOneWord(q[ts..]);
      assert Texts([q[ts..]]) == [Text(q[ts..])];
    } else {
      assert q[ts..] == [];
      assert LStrip([]) == [];
    }
  }

  lemma TextsCons(w: string, rest: seq<string>)
    ensures Texts([w] + rest) == [Text(w)] + Texts(rest)
  {
  }

  lemma WithTailAppend(q: string, tokens: seq<Raw>, ts: nat)
    requires ts <= |q|
    ensures WithTail(q, tokens, ts) == tokens + WithTail(q, [], ts)
  {
  }

  /** From a token start `ts` whose token so far holds no space, the scan
      of a space-separated query produces the words of the rest. */
  lemma {:induction false} ScanSpaceSeparated(q: string, i: nat, ts: nat, tokens: seq<Raw>)
    requires SpaceSeparated(q) && ts <= i <= |q| && NoSpace(q[ts..i])
    ensures var sc := ScanFrom(q, i, ts, [], false, tokens);
            sc.Finished? && WithTail(q, sc.tokens, sc.tokenStart) == tokens + Texts(SplitWs(q[ts..]))
    decreases |q| - i, 1
  {
    if i == |q| {
      assert q[ts..i] == q[ts..];
      TailIsLastWord(q, ts);
      WithTailAppend(q, tokens, ts);
    } else if q[i] == ' ' && ts != i {
      ScanAfterWord(q, i, ts, tokens);
    } else if q[i] == ' ' {
      ScanAfterSpace(q, i, tokens);
    } else {
      ScanInWord(q, i, ts, tokens);
    }
  }

  /** The step of `ScanSpaceSeparated` at a space that ends no word. */
  lemma {:induction false} ScanAfterSpace(q: string, i: nat, tokens: seq<Raw>)
    requires SpaceSeparated(q) && i < |q| && q[i] == ' '
    ensures var sc := ScanFrom(q, i, i, [], false, tokens);
            sc.Finished? && WithTail(q, sc.tokens, sc.tokenStart) == tokens + Texts(SplitWs(q[i..]))
    decreases |q| - i, 0
  {
    SpaceSeparatedStep(q, i, i, tokens);
    SpaceThenRest(q, i);
    ScanSpaceSeparated(q, i + 1, i + 1, tokens);
  }

  /** The step of `ScanSpaceSeparated` inside a word. */
  lemma {:induction false} ScanInWord(q: string, i: nat, ts: nat, tokens: seq<Raw>)
    requires SpaceSeparated(q) && ts <= i < |q| && q[i] != ' ' && NoSpace(q[ts..i])
    ensures var sc := ScanFrom(q, i, ts, [], false, tokens);
            sc.Finished? && WithTail(q, sc.tokens, sc.tokenStart) == tokens + Texts(SplitWs(q[ts..]))
    decreases |q| - i, 0
  {
    SpaceSeparatedStep(q, i, ts, tokens);
    assert q[ts..i + 1] == q[ts..i] + [q[i]];
    ScanSpaceSeparated(q, i + 1, ts, tokens);
  }

  /** The step of `ScanSpaceSeparated` at a space that ends a word. */
  lemma {:induction false} ScanAfterWord(q: string, i: nat, ts: nat, tokens: seq<Raw>)
    requires SpaceSeparated(q) && ts < i < |q| && q[i] == ' ' && NoSpace(q[ts..i])
    ensures var sc := ScanFrom(q, i, ts, [], false, tokens);
            sc.Finished? && WithTail(q, sc.tokens, sc.tokenStart) == tokens + Texts(SplitWs(q[ts..]))
    decreases |q| - i, 0
  {
    var w := q[ts..i];
    var more := tokens + [Text(w)];
    var rest := SplitWs(q[i + 1..]);
    SpaceSeparatedStep(q, i, ts, tokens);
    ScanSpaceSeparated(q, i + 1, i + 1, more);
    var sc := ScanFrom(q, i + 1, i + 1, [], false, more);
    assert WithTail(q, sc.tokens, sc.tokenStart) == more + Texts(rest);
    WordThenRest(q, ts, i);
    TextsCons(w, rest);
    AppendAssoc(tokens, [Text(w)], Texts(rest));
    assert more + Texts(rest) == tokens + Texts(SplitWs(q[ts..]));
  }

  /** For a query without parentheses or quotes, whose only whitespace is
      the space, the raw tokens are exactly its words (`str.split()`), and
      the parse is the classing of those words. */
  lemma SpaceSeparatedTokens(q: string)
    requires SpaceSeparated(q)
    ensures var sc := ScanFrom(q, 0, 0, [], false, []);
            sc.Finished? && WithTail(q, sc.tokens, sc.tokenStart) == Texts(SplitWs(q))
    ensures Parse(q) == Finish(Texts(SplitWs(q)))
  {
    assert q[0..0] == [] && q[0..] == q;
    ScanSpaceSeparated(q, 0, 0, []);
    assert [] + Texts(SplitWs(q)) == Texts(SplitWs(q));
  }

  /** Inside a quote, spaces and other characters that are not parentheses
      or quotes leave the scan state as it is: a quoted space never ends a
      token. */
  lemma {:induction false} QuotedRun(q: string, i: nat, j: nat, ts: nat, stack: seq<nat>, tokens: seq<Raw>)
    requires i <= j <= |q| && ts <= i && StackBelow(stack, i)
    requires forall m :: i <= m < j ==> q[m] != '(' && q[m] != ')' && q[m] != '"'
    ensures StackBelow(stack, j)
    ensures ScanFrom(q, i, ts, stack, true, tokens) == ScanFrom(q, j, ts, stack, true, tokens)
    decreases j - i
  {
    if i < j {
      QuotedRun(q, i + 1, j, ts, stack, tokens);
    }
  }

  /** A fielded term whose quoted value holds spaces, such as
      `ti:"dark matter"`, stays one token. */
  lemma QuotedValueIsOneToken(f: string, m: string)
    requires f != [] && Plain(f)
    requires forall k :: 0 <= k < |m| ==> m[k] != '(' && m[k] != ')' && m[k] != '"'
    ensures var q := f + "\"" + m + "\"";
            ScanFrom(q, 0, 0, [], false, []) == Finished([], 0) && WithTail(q, [], 0) == [Text(q)]
  {
    var q := f + "\"" + m + "\"";
    var a, b := |f|, |f| + 1 + |m|;
    assert forall k :: 0 <= k < a ==> q[k] == f[k];
    assert q[a] == '"' && q[b] == '"' && |q| == b + 1;
    assert forall k :: a < k < b ==> q[k] == m[k - a - 1];
    PlainRun(q, 0, a, 0, [], false, []);
    QuotedRun(q, a + 1, b, 0, [], []);
    assert q[0..] == q;
  }

  /** Inside an open parenthesis no space splits a token: characters other
      than parentheses and quotes add no token, they at most move the
      token start. */
  lemma {:induction false} NestedRun(q: string, i: nat, j: nat, ts: nat, stack: seq<nat>, inQuote: bool, tokens: seq<Raw>)
    returns (ts': nat)
    requires i <= j <= |q| && ts <= i && StackBelow(stack, i) && stack != []
    requires forall m :: i <= m < j ==> q[m] != '(' && q[m] != ')' && q[m] != '"'
    ensures ts' <= j && StackBelow(stack, j)
    ensures ScanFrom(q, i, ts, stack, inQuote, tokens) == ScanFrom(q, j, ts', stack, inQuote, tokens)
    decreases j - i
  {
    if i == j {
      ts' := ts;
    } else if q[i] == ' ' && !inQuote && ts == i {
      ts' := NestedRun(q, i + 1, j, i + 1, stack, inQuote, tokens);
    } else {
      ts' := NestedRun(q, i + 1, j, ts, stack, inQuote, tokens);
    }
  }
}
