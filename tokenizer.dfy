/** `tokenize` (search/controllers/api/_tokenizer.py), the quote-unaware
    sibling of the classic-query scanner: one pass over the characters
    keeps a stack of open-parenthesis offsets and the start of the current
    token; closed top-level groups are tokenised recursively, and the
    tokens are classed as fielded terms (raw value) or operators. */
module Tokenizer {
  import opened Wrappers
  import opened Strings
  import opened Phrases

  /** What `tokenize` raises: `BadRequest` with its message, or the
      `IndexError` of popping an empty stack. */
  datatype TokenizeError = BadRequest(message: string) | IndexError

  /** What `tokenize` returns: a `(Field, value)` pair, an operator, or a
      tuple of classed tokens. */
  datatype Token =
    | FieldValue(field: Field, value: string)
    | OpToken(op: Operator)
    | Tuple(items: seq<Token>)

  /** A token of the first pass: raw text or an already tokenised group. */
  datatype Raw = Text(s: string) | Group(token: Token)

  datatype Scan = Finished(tokens: seq<Raw>, tokenStart: nat) | Early(result: Result<Token, TokenizeError>)

  predicate StackBelow(stack: seq<nat>, i: nat)
  {
    forall k :: 0 <= k < |stack| ==> stack[k] < i
  }

  /** `tokenize(query)`. */
  function Tokenize(q: string): Result<Token, TokenizeError>
    decreases |q|, 1
  {
    match ScanFrom(q, 0, 0, [], [])
    case Early(r) => r
    case Finished(tokens, ts) => Finish(WithTail(q, tokens, ts))
  }

  /** The character loop from offset `i` on. */
  function ScanFrom(q: string, i: nat, ts: nat, stack: seq<nat>, tokens: seq<Raw>): (r: Scan)
    requires i <= |q| && ts <= i && StackBelow(stack, i)
    ensures r.Finished? ==> r.tokenStart <= |q|
    decreases |q|, 0, |q| - i
  {
    if i == |q| then Finished(tokens, ts)
    else
      var c := q[i];
      if c == '(' then
        ScanFrom(q, i + 1, ts, stack + [i], tokens)
      else if c == ')' then
        if stack == [] then Early(Err(IndexError))
        else
          var start := stack[|stack| - 1];
          var rest := stack[..|stack| - 1];
          if rest == [] && start == 0 && i + 1 == |q| then Early(Tokenize(q[1..i]))
          else if rest == [] then
            match Tokenize(q[start + 1..i])
            case Err(e) => Early(Err(e))
            case Ok(t) => ScanFrom(q, i + 1, i + 1, rest, tokens + [Group(t)])
          else ScanFrom(q, i + 1, ts, rest, tokens)
      else if c == ' ' then
        if stack == [] && ts != i then
          ScanFrom(q, i + 1, i + 1, stack, tokens + [Text(q[ts..i])])
        else if ts == i then ScanFrom(q, i + 1, i + 1, stack, tokens)
        else ScanFrom(q, i + 1, ts, stack, tokens)
      else
        ScanFrom(q, i + 1, ts, stack, tokens)
  }

  /** The tokens with the final-position token appended when it is not
      empty. */
  function WithTail(q: string, tokens: seq<Raw>, ts: nat): seq<Raw>
    requires ts <= |q|
  {
    if ts < |q| then tokens + [Text(q[ts..])] else tokens
  }

  /** Classing and the final wrapping. */
  function Finish(tokens: seq<Raw>): Result<Token, TokenizeError>
  {
    match MapResult(tokens, ClassifyOne)
    case Err(e) => Err(e)
    case Ok(classed) => Ok(Wrap(classed))
  }

  /** One token is returned as it is, otherwise the tuple of all. */
  function Wrap(classed: seq<Token>): (r: Token)
    ensures |classed| == 1 ==> r == classed[0]
    ensures |classed| != 1 ==> r.Tuple? && r.items == classed
  {
    if |classed| == 1 then classed[0] else Tuple(classed)
  }

  /** `_parse_operator`: the stripped text must be an operator name. */
  function ParseOperator(characters: string): (r: Result<Operator, TokenizeError>)
    ensures r.Ok? ==> OpText(r.value) == Strip(characters)
    ensures r.Err? ==> r.error == BadRequest("Cannot parse fragment: " + characters)
  {
    match OperatorOf(Strip(characters))
    case Some(op) => Ok(op)
    case None => Err(BadRequest("Cannot parse fragment: " + characters))
  }

  /** `_parse_field_query`: split at the first `:`; the name must be a
      field and the value is kept as written. */
  function ParseFieldQuery(part: string): (r: Result<Token, TokenizeError>)
    requires ':' in part
    ensures var k := IndexOf(part, ':');
            r.Ok? ==> r.value.FieldValue? && r.value.value == part[k + 1..] && Prefix(r.value.field) == part[..k]
    ensures var k := IndexOf(part, ':');
            r.Err? ==> r.error == BadRequest("Invalid field: " + part[..k])
  {
    var k := IndexOf(part, ':');
    var name := part[..k];
    match FieldOf(name)
    case None => Err(BadRequest("Invalid field: " + name))
    case Some(f) => Ok(FieldValue(f, part[k + 1..]))
  }

  function ClassifyOne(t: Raw): (r: Result<Token, TokenizeError>)
    ensures t.Group? ==> r == Ok(t.token)
  {
    match t
    case Group(n) => Ok(n)
    case Text(s) =>
      if ':' in s then ParseFieldQuery(s)
      else
        match ParseOperator(s)
        case Err(e) => Err(e)
        case Ok(op) => Ok(OpToken(op))
  }

  // ---------------------------------------------------------------------
  // The tokenizer as written: two loops and a recursive call per group.

  method TokenizeQuery(q: string) returns (r: Result<Token, TokenizeError>)
    ensures r == Tokenize(q)
    decreases |q|
  {
    var tokens: seq<Raw> := [];
    var ts: nat := 0;
    var stack: seq<nat> := [];
    var i: nat := 0;
    while i < |q|
      invariant i <= |q| && ts <= i && StackBelow(stack, i)
      invariant ScanFrom(q, i, ts, stack, tokens) == ScanFrom(q, 0, 0, [], [])
      decreases |q| - i
    {
      var c := q[i];
      if c == '(' {
        stack := stack + [i];
      } else if c == ')' {
        if stack == [] {
          return Err(IndexError);
        }
        var start := stack[|stack| - 1];
        stack := stack[..|stack| - 1];
        if stack == [] && start == 0 && i + 1 == |q| {
          r := TokenizeQuery(q[1..i]);
          return;
        } else if stack == [] {
          var inner := TokenizeQuery(q[start + 1..i]);
          if inner.Err? {
            return Err(inner.error);
          }
          tokens := tokens + [Group(inner.value)];
          ts := i + 1;
        }
      } else if c == ' ' {
        if stack == [] && ts != i {
          tokens := tokens + [Text(q[ts..i])];
          ts := i + 1;
        } else if ts == i {
          ts := i + 1;
        }
      }
      i := i + 1;
    }
    if ts < |q| {
      tokens := tokens + [Text(q[ts..])];
    }
    var classed := ClassifyTokens(tokens);
    if classed.Err? {
      return Err(classed.error);
    }
    if |classed.value| == 1 {
      r := Ok(classed.value[0]);
    } else {
      r := Ok(Tuple(classed.value));
    }
  }

  /** The classing loop. */
  method ClassifyTokens(tokens: seq<Raw>) returns (r: Result<seq<Token>, TokenizeError>)
    ensures r == MapResult(tokens, ClassifyOne)
  {
    var classed: seq<Token> := [];
    var k := 0;
    while k < |tokens|
      invariant k <= |tokens|
      invariant MapResult(tokens[..k], ClassifyOne) == Ok(classed)
    {
      var c := ClassifyOne(tokens[k]);
      assert tokens[..k + 1][..k] == tokens[..k];
      if c.Err? {
        MapResultFailurePersists(tokens, ClassifyOne, k + 1);
        return Err(c.error);
      }
      classed := classed + [c.value];
      k := k + 1;
    }
    assert tokens[..k] == tokens;
    return Ok(classed);
  }

  // ---------------------------------------------------------------------
  // Properties

  /** A query wrapped whole in one pair of parentheses tokenises as its
      inside, when the inside holds no parentheses of its own. */
  lemma WholeGroupTokenizesInside(s: string)
    requires forall j :: 0 <= j < |s| ==> s[j] != '(' && s[j] != ')'
    ensures Tokenize("(" + s + ")") == Tokenize(s)
  {
    var q := "(" + s + ")";
    assert q[1..|q| - 1] == s;
    ScanToClose(q, 1, 0, []);
    assert q[0] == '(' && [] + [0] == [0];
    assert ScanFrom(q, 0, 0, [], []) == ScanFrom(q, 1, 0, [0], []);
  }

  lemma {:induction false} ScanToClose(q: string, i: nat, ts: nat, tokens: seq<Raw>)
    requires 1 <= i < |q| && ts <= i && q[|q| - 1] == ')'
    requires forall j :: i <= j < |q| - 1 ==> q[j] != '(' && q[j] != ')'
    ensures ScanFrom(q, i, ts, [0], tokens) == Early(Tokenize(q[1..|q| - 1]))
    decreases |q| - i
  {
    assert StackBelow([0], i);
    if i < |q| - 1 {
      if q[i] == ' ' && ts == i {
        ScanToClose(q, i + 1, i + 1, tokens);
      } else {
        ScanToClose(q, i + 1, ts, tokens);
      }
    } else {
      assert [0][..0] == [];
    }
  }

  /** A closing parenthesis before any opening one pops the empty stack. */
  lemma CloseBeforeOpenFails(q: string, j: nat)
    requires j < |q| && q[j] == ')'
    requires forall m :: 0 <= m < j ==> q[m] != '('
    ensures Tokenize(q) == Err(IndexError)
  {
    ScanUnopened(q, j, 0, 0, []);
  }

  lemma {:induction false} ScanUnopened(q: string, j: nat, i: nat, ts: nat, tokens: seq<Raw>)
    requires i <= j < |q| && ts <= i && q[j] == ')'
    requires forall m :: i <= m < j ==> q[m] != '('
    ensures ScanFrom(q, i, ts, [], tokens) == Early(Err(IndexError))
    decreases j - i
  {
    if q[i] != ')' {
      if q[i] == ' ' && ts != i {
        ScanUnopened(q, j, i + 1, i + 1, tokens + [Text(q[ts..i])]);
      } else if q[i] == ' ' {
        ScanUnopened(q, j, i + 1, i + 1, tokens);
      } else {
        ScanUnopened(q, j, i + 1, ts, tokens);
      }
    }
  }

  /** A printed term classes back to its field, its value kept as written
      (quotes included). */
  lemma FieldQueryOfTerm(f: Field, v: string)
    ensures ParseFieldQuery(Prefix(f) + ":" + v) == Ok(FieldValue(f, v))
  {
    var p := Prefix(f);
    var s := p + ":" + v;
    assert s[|p|] == ':';
    var k := IndexOf(s, ':');
    assert s[..k] == p;
    assert s[k + 1..] == v;
    FieldOfPrefix(f);
  }

  lemma OperatorOfName(op: Operator)
    ensures ParseOperator(OpText(op)) == Ok(op)
  {
    var t := OpText(op);
    assert !IsSpace(t[0]) && !IsSpace(t[|t| - 1]);
    assert Strip(t) == t;
    OperatorOfText(op);
  }

  /** Text without parentheses or spaces; quotes are ordinary characters
      here. */
  predicate Plain(s: string)
  {
    forall m :: 0 <= m < |s| ==> s[m] != '(' && s[m] != ')' && s[m] != ' '
  }

  /** Characters other than parentheses and spaces leave the scan state as
      it is. */
  lemma {:induction false} PlainRun(q: string, i: nat, j: nat, ts: nat, stack: seq<nat>, tokens: seq<Raw>)
    requires i <= j <= |q| && ts <= i && StackBelow(stack, i)
    requires forall m :: i <= m < j ==> q[m] != '(' && q[m] != ')' && q[m] != ' '
    ensures StackBelow(stack, j)
    ensures ScanFrom(q, i, ts, stack, tokens) == ScanFrom(q, j, ts, stack, tokens)
    decreases j - i
  {
    if i < j {
      PlainRun(q, i + 1, j, ts, stack, tokens);
    }
  }

  /** Three words separated by single spaces scan to the first two as
      tokens, the third left as the final-position token, whatever quotes
      they hold. */
  lemma ThreeTokens(a: string, b: string, c: string)
    requires Plain(a) && Plain(b) && Plain(c) && a != [] && b != []
    ensures var q := a + " " + b + " " + c;
            ScanFrom(q, 0, 0, [], []) == Finished([Text(a), Text(b)], |a| + |b| + 2)
  {
    var q := a + " " + b + " " + c;
    var i, j := |a|, |a| + 1 + |b|;
    assert q[..i] == a && q[i] == ' ';
    assert q[i + 1..j] == b && q[j] == ' ';
    assert forall m :: 0 <= m < i ==> q[m] == a[m];
    assert forall m :: i < m < j ==> q[m] == b[m - i - 1];
    assert forall m :: j < m < |q| ==> q[m] == c[m - j - 1];
    assert q[0..i] == a;
    assert [] + [Text(q[0..i])] == [Text(a)];
    assert [Text(a)] + [Text(q[i + 1..j])] == [Text(a), Text(b)];
    PlainRun(q, 0, i, 0, [], []);
    assert ScanFrom(q, i, 0, [], []) == ScanFrom(q, i + 1, i + 1, [], [Text(a)]);
    PlainRun(q, i + 1, j, i + 1, [], [Text(a)]);
    assert ScanFrom(q, j, i + 1, [], [Text(a)]) == ScanFrom(q, j + 1, j + 1, [], [Text(a), Text(b)]);
    PlainRun(q, j + 1, |q|, j + 1, [], [Text(a), Text(b)]);
  }

  /** Three words separated by single spaces tokenise as the three
      tokens, quotes or not. */
  lemma TokenizeThreeWords(a: string, b: string, c: string)
    requires Plain(a) && Plain(b) && Plain(c) && a != [] && b != [] && c != []
    ensures Tokenize(a + " " + b + " " + c) == Finish([Text(a), Text(b), Text(c)])
  {
    var q := a + " " + b + " " + c;
    ThreeTokens(a, b, c);
    assert q[|a| + |b| + 2..] == c;
    assert WithTail(q, [Text(a), Text(b)], |a| + |b| + 2) == [Text(a), Text(b), Text(c)];
  }

  /** Three tokens that all class make the flat tuple of their classes,
      in source order. */
  lemma FinishThree(t: Raw, u: Raw, v: Raw)
    requires ClassifyOne(t).Ok? && ClassifyOne(u).Ok? && ClassifyOne(v).Ok?
    ensures Finish([t, u, v]) == Ok(Tuple([ClassifyOne(t).value, ClassifyOne(u).value, ClassifyOne(v).value]))
  {
    var toks := [t, u, v];
    assert toks[0] == t && toks[1] == u && toks[2] == v;
    forall k | 0 <= k < |toks|
      ensures ClassifyOne(toks[k]).Ok?
    {
      if k == 0 {
      } else if k == 1 {
      } else {
        assert k == 2;
      }
    }
    MapResultElementwise(toks, ClassifyOne);
    var r := MapResult(toks, ClassifyOne).value;
    assert r == [ClassifyOne(t).value, ClassifyOne(u).value, ClassifyOne(v).value];
  }

  /** Two fielded terms joined by an operator tokenise to the triple of
      the first term, the operator and the second term. */
  lemma BinaryQueryTokenizes(f: Field, v: string, op: Operator, g: Field, w: string)
    requires Plain(v) && Plain(w)
    ensures Tokenize(Prefix(f) + ":" + v + " " + OpText(op) + " " + (Prefix(g) + ":" + w))
         == Ok(Tuple([FieldValue(f, v), OpToken(op), FieldValue(g, w)]))
  {
    var a, b, c := Prefix(f) + ":" + v, OpText(op), Prefix(g) + ":" + w;
    PlainTerm(f, v);
    PlainTerm(g, w);
    assert Plain(b);
    ClassifyTerm(f, v);
    ClassifyTerm(g, w);
    ClassifyOperator(op);
    TokenizeThreeWords(a, b, c);
    FinishThree(Text(a), Text(b), Text(c));
  }

  lemma PlainTerm(f: Field, v: string)
    requires Plain(v)
    ensures Plain(Prefix(f) + ":" + v)
  {
    var p := Prefix(f);
    assert Plain(p) by {
      match f
      case Title =>
      case Author =>
      case Abstract =>
      case Comment =>
      case JournalReference =>
      case SubjectCategory =>
      case ReportNumber =>
      case Identifier =>
      case All =>
    }
    var s := p + ":" + v;
    forall m | 0 <= m < |s|
      ensures s[m] != '(' && s[m] != ')' && s[m] != ' '
    {
      if m > |p| {
        assert s[m] == v[m - |p| - 1];
      }
    }
  }

  lemma ClassifyTerm(f: Field, v: string)
    ensures ClassifyOne(Text(Prefix(f) + ":" + v)) == Ok(FieldValue(f, v))
  {
    var a := Prefix(f) + ":" + v;
    assert a[|Prefix(f)|] == ':';
    FieldQueryOfTerm(f, v);
  }

  lemma ClassifyOperator(op: Operator)
    ensures ClassifyOne(Text(OpText(op))) == Ok(OpToken(op))
  {
    OperatorOfName(op);
  }

  // ---------------------------------------------------------------------
  // How the first pass splits the query, for every query

  /** Raw text tokens, one per word. */
  function Texts(ws: seq<string>): (r: seq<Raw>)
    ensures |r| == |ws| && forall k :: 0 <= k < |ws| ==> r[k] == Text(ws[k])
  {
    if ws == [] then [] else [Text(ws[0])] + Texts(ws[1..])
  }

  /** No raw text token is empty. */
  predicate TextsNonEmpty(tokens: seq<Raw>)
  {
    forall k :: 0 <= k < |tokens| && tokens[k].Text? ==> tokens[k].s != []
  }

  /** The scan only ever adds non-empty text tokens. */
  lemma {:induction false} ScanKeepsTextsNonEmpty(q: string, i: nat, ts: nat, stack: seq<nat>, tokens: seq<Raw>)
    requires i <= |q| && ts <= i && StackBelow(stack, i)
    requires TextsNonEmpty(tokens)
    ensures var sc := ScanFrom(q, i, ts, stack, tokens);
            sc.Finished? ==> TextsNonEmpty(sc.tokens)
    decreases |q| - i
  {
    if i < |q| {
      var c := q[i];
      if c == '(' {
        ScanKeepsTextsNonEmpty(q, i + 1, ts, stack + [i], tokens);
      } else if c == ')' {
        if stack != [] {
          var start, rest := stack[|stack| - 1], stack[..|stack| - 1];
          assert StackBelow(rest, i + 1);
          if rest == [] && start == 0 && i + 1 == |q| {
          } else if rest == [] {
            match Tokenize(q[start + 1..i])
            case Err(_) =>
            case Ok(t) => ScanKeepsTextsNonEmpty(q, i + 1, i + 1, rest, tokens + [Group(t)]);
          } else {
            ScanKeepsTextsNonEmpty(q, i + 1, ts, rest, tokens);
          }
        }
      } else if c == ' ' && stack == [] && ts != i {
        ScanKeepsTextsNonEmpty(q, i + 1, i + 1, stack, tokens + [Text(q[ts..i])]);
      } else if c == ' ' && ts == i {
        ScanKeepsTextsNonEmpty(q, i + 1, i + 1, stack, tokens);
      } else {
        ScanKeepsTextsNonEmpty(q, i + 1, ts, stack, tokens);
      }
    }
  }

  /** Whatever the query, the first pass never produces an empty text
      token: runs of spaces are skipped, and the final-position token is
      added only when something is left. */
  lemma RawTokensNonEmpty(q: string)
    ensures var sc := ScanFrom(q, 0, 0, [], []);
            sc.Finished? ==> TextsNonEmpty(WithTail(q, sc.tokens, sc.tokenStart))
  {
    ScanKeepsTextsNonEmpty(q, 0, 0, [], []);
  }

  /** A query of words separated by plain spaces: no parentheses and no
      whitespace other than the space. Quotes are ordinary characters. */
  predicate SpaceSeparated(q: string)
  {
    forall m :: 0 <= m < |q| ==> q[m] != '(' && q[m] != ')' && (IsSpace(q[m]) ==> q[m] == ' ')
  }

  /** One step of the scan over a space-separated query. */
  lemma SpaceSeparatedStep(q: string, i: nat, ts: nat, tokens: seq<Raw>)
    requires SpaceSeparated(q) && ts <= i < |q|
    ensures q[i] == ' ' && ts != i ==>
              ScanFrom(q, i, ts, [], tokens) == ScanFrom(q, i + 1, i + 1, [], tokens + [Text(q[ts..i])])
    ensures q[i] == ' ' && ts == i ==>
              ScanFrom(q, i, ts, [], tokens) == ScanFrom(q, i + 1, i + 1, [], tokens)
    ensures q[i] != ' ' ==> !IsSpace(q[i]) && ScanFrom(q, i, ts, [], tokens) == ScanFrom(q, i + 1, ts, [], tokens)
  {
  }

  /** A word ended by a space: it is the first word, and the words after
      the space follow. */
  lemma WordThenRest(q: string, ts: nat, i: nat)
    requires ts < i < |q| && q[i] == ' ' && NoSpace(q[ts..i])
    ensures SplitWs(q[ts..]) == [q[ts..i]] + SplitWs(q[i + 1..])
  {
    SpaceThenRest(q, i);
    SplitWsWord(q[ts..i], q[i..]);
    SuffixSplit(q, ts, i);
  }

  /** The words from a space on are the words after it. */
  lemma SpaceThenRest(q: string, i: nat)
    requires i < |q| && q[i] == ' '
    ensures SplitWs(q[i..]) == SplitWs(q[i + 1..])
  {
    assert q[i..][0] == ' ' && q[i..][1..] == q[i + 1..];
    SplitWsDropSpace(q[i..]);
  }

  /** At the end of the text the unfinished token is the last word. */
  lemma TailIsLastWord(q: string, ts: nat)
    requires ts <= |q| && NoSpace(q[ts..])
    ensures WithTail(q, [], ts) == Texts(SplitWs(q[ts..]))
  {
    if ts < |q| {
      SplitWsOneWord(q[ts..]);
      assert Texts([q[ts..]]) == [Text(q[ts..])];
    } else {
      assert q[ts..] == [];
      assert LStrip([]) == [];
    }
  }

  lemma TextsCons(w: string, rest: seq<string>)
    ensures Texts([w] + rest) == [Text(w)] + Texts(rest)
  {
  }

  lemma WithTailAppend(q: string, tokens: seq<Raw>, ts: nat)
    requires ts <= |q|
    ensures WithTail(q, tokens, ts) == tokens + WithTail(q, [], ts)
  {
  }

  /** From a token start `ts` whose token so far holds no space, the scan
      of a space-separated query produces the words of the rest. */
  lemma {:induction false} ScanSpaceSeparated(q: string, i: nat, ts: nat, tokens: seq<Raw>)
    requires SpaceSeparated(q) && ts <= i <= |q| && NoSpace(q[ts..i])
    ensures var sc := ScanFrom(q, i, ts, [], tokens);
            sc.Finished? && WithTail(q, sc.tokens, sc.tokenStart) == tokens + Texts(SplitWs(q[ts..]))
    decreases |q| - i, 1
  {
    if i == |q| {
      assert q[ts..i] == q[ts..];
      TailIsLastWord(q, ts);
      WithTailAppend(q, tokens, ts);
    } else if q[i] == ' ' && ts != i {
      ScanAfterWord(q, i, ts, tokens);
    } else if q[i] == ' ' {
      ScanAfterSpace(q, i, tokens);
    } else {
      ScanInWord(q, i, ts, tokens);
    }
  }

  /** The step of `ScanSpaceSeparated` at a space that ends no word. */
  lemma {:induction false} ScanAfterSpace(q: string, i: nat, tokens: seq<Raw>)
    requires SpaceSeparated(q) && i < |q| && q[i] == ' '
    ensures var sc := ScanFrom(q, i, i, [], tokens);
            sc.Finished? && WithTail(q, sc.tokens, sc.tokenStart) == tokens + Texts(SplitWs(q[i..]))
    decreases |q| - i, 0
  {
    SpaceSeparatedStep(q, i, i, tokens);
    SpaceThenRest(q, i);
    ScanSpaceSeparated(q, i + 1, i + 1, tokens);
  }

  /** The step of `ScanSpaceSeparated` inside a word. */
  lemma {:induction false} ScanInWord(q: string, i: nat, ts: nat, tokens: seq<Raw>)
    requires SpaceSeparated(q) && ts <= i < |q| && q[i] != ' ' && NoSpace(q[ts..i])
    ensures var sc := ScanFrom(q, i, ts, [], tokens);
            sc.Finished? && WithTail(q, sc.tokens, sc.tokenStart) == tokens + Texts(SplitWs(q[ts..]))
    decreases |q| - i, 0
  {
    SpaceSeparatedStep(q, i, ts, tokens);
    assert q[ts..i + 1] == q[ts..i] + [q[i]];
    ScanSpaceSeparated(q, i + 1, ts, tokens);
  }

  /** The step of `ScanSpaceSeparated` at a space that ends a word. */
  lemma {:induction false} ScanAfterWord(q: string, i: nat, ts: nat, tokens: seq<Raw>)
    requires SpaceSeparated(q) && ts < i < |q| && q[i] == ' ' && NoSpace(q[ts..i])
    ensures var sc := ScanFrom(q, i, ts, [], tokens);
            sc.Finished? && WithTail(q, sc.tokens, sc.tokenStart) == tokens + Texts(SplitWs(q[ts..]))
    decreases |q| - i, 0
  {
    var w := q[ts..i];
    var more := tokens + [Text(w)];
    var rest := SplitWs(q[i + 1..]);
    SpaceSeparatedStep(q, i, ts, tokens);
    ScanSpaceSeparated(q, i + 1, i + 1, more);
    var sc := ScanFrom(q, i + 1, i + 1, [], more);
    assert WithTail(q, sc.tokens, sc.tokenStart) == more + Texts(rest);
    WordThenRest(q, ts, i);
    TextsCons(w, rest);
    AppendAssoc(tokens, [Text(w)], Texts(rest));
    assert more + Texts(rest) == tokens + Texts(SplitWs(q[ts..]));
  }

  /** For a query without parentheses whose only whitespace is the space,
      the raw tokens are exactly its words (`str.split()`), quotes or not,
      and the result is the classing of those words. */
  lemma SpaceSeparatedTokens(q: string)
    requires SpaceSeparated(q)
    ensures var sc := ScanFrom(q, 0, 0, [], []);
            sc.Finished? && WithTail(q, sc.tokens, sc.tokenStart) == Texts(SplitWs(q))
    ensures Tokenize(q) == Finish(Texts(SplitWs(q)))
  {
    assert q[0..0] == [] && q[0..] == q;
    ScanSpaceSeparated(q, 0, 0, []);
    assert [] + Texts(SplitWs(q)) == Texts(SplitWs(q));
  }

  /** Inside an open parenthesis no space splits a token: characters other
      than parentheses add no token, they at most move the token start. */
  lemma {:induction false} NestedRun(q: string, i: nat, j: nat, ts: nat, stack: seq<nat>, tokens: seq<Raw>)
    returns (ts': nat)
    requires i <= j <= |q| && ts <= i && StackBelow(stack, i) && stack != []
    requires forall m :: i <= m < j ==> q[m] != '(' && q[m] != ')'
    ensures ts' <= j && StackBelow(stack, j)
    ensures ScanFrom(q, i, ts, stack, tokens) == ScanFrom(q, j, ts', stack, tokens)
    decreases j - i
  {
    if i == j {
      ts' := ts;
    } else if q[i] == ' ' && ts == i {
      ts' := NestedRun(q, i + 1, j, i + 1, stack, tokens);
    } else {
      ts' := NestedRun(q, i + 1, j, ts, stack, tokens);
    }
  }
}
