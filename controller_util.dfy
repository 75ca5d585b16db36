/** The controller helpers of search/controllers/util.py: the form
    validators for leading wildcards and balanced quotes, the whitespace
    filter, pagination of a query from request parameters, and the rewrite
    of classic `surname_X` author terms. */
module ControllerUtil {
  import opened Wrappers
  import opened Strings
  import opened DomainBase

  // ---------------------------------------------------------------------
  // Validators: `None` means the field passes, `Some(message)` is the
  // `ValidationError` raised.

  predicate StartsWithWildcard(s: string)
  {
    s != [] && (s[0] == '?' || s[0] == '*')
  }

  const LEADING_WILDCARD: string := "Search cannot start with a wildcard (? *)."
  const TERM_WILDCARD: string := "Search terms cannot start with a wildcard (? *)."

  /** `does_not_start_with_wildcard`: empty input passes; input starting
      with a wildcard, and then any whitespace-separated term starting with
      one, is rejected with its own message. */
  function DoesNotStartWithWildcard(data: Option<string>): (r: Option<string>)
    ensures data.None? || data.value == [] ==> r.None?
    ensures r == Some(LEADING_WILDCARD) <==> data.Some? && StartsWithWildcard(data.value)
    ensures r == Some(TERM_WILDCARD) <==>
              data.Some? && !StartsWithWildcard(data.value)
              && exists i :: 0 <= i < |SplitWs(data.value)| && StartsWithWildcard(SplitWs(data.value)[i])
    ensures r.None? || r == Some(LEADING_WILDCARD) || r == Some(TERM_WILDCARD)
  {
    if data.None? || data.value == [] then None
    else if StartsWithWildcard(data.value) then Some(LEADING_WILDCARD)
    else if exists i :: 0 <= i < |SplitWs(data.value)| && StartsWithWildcard(SplitWs(data.value)[i]) then
      Some(TERM_WILDCARD)
    else None
  }

  /** A string starting with a wildcard has a first term starting with it. */
  lemma FirstTermStartsAtFirstCharacter(s: string)
    requires StartsWithWildcard(s)
    ensures SplitWs(s) != [] && SplitWs(s)[0][0] == s[0]
  {
    assert LStrip(s) == s;
    assert WordLen(s) >= 1;
  }

  /** The validator passes exactly the input none of whose terms starts
      with a wildcard. */
  lemma WildcardValidatorMeaning(data: Option<string>)
    ensures DoesNotStartWithWildcard(data).None? <==>
              data.None? || forall i :: 0 <= i < |SplitWs(data.value)| ==> !StartsWithWildcard(SplitWs(data.value)[i])
  {
    if data.Some? && StartsWithWildcard(data.value) {
      FirstTermStartsAtFirstCharacter(data.value);
      assert StartsWithWildcard(SplitWs(data.value)[0]);
      assert DoesNotStartWithWildcard(data) == Some(LEADING_WILDCARD);
    } else if data.Some? && data.value != [] {
      assert DoesNotStartWithWildcard(data).None? <==>
        !exists i :: 0 <= i < |SplitWs(data.value)| && StartsWithWildcard(SplitWs(data.value)[i]);
    }
  }

  const MISSING_QUOTE: string := "Missing closing quote (\")."

  /** `has_balanced_quotes`: input with an odd number of `"` characters is
      rejected. */
  function HasBalancedQuotes(data: Option<string>): (r: Option<string>)
    ensures r.None? || r == Some(MISSING_QUOTE)
  {
    if data.None? || data.value == [] then None
    else if '"' in data.value && Count(data.value, '"') % 2 != 0 then Some(MISSING_QUOTE)
    else None
  }

  /** The quote validator fails exactly when the count of `"` is odd. */
  lemma BalancedQuotesMeaning(data: Option<string>)
    ensures HasBalancedQuotes(data).Some? <==> data.Some? && Count(data.value, '"') % 2 == 1
  {
    if data.Some? {
      CountZero(data.value, '"');
    }
  }

  /** `strip_white_space`: a missing or empty value is returned as it is,
      anything else stripped. */
  function StripWhiteSpace(value: Option<string>): (r: Option<string>)
    ensures r.None? <==> value.None?
    ensures r.Some? ==> r.value == Strip(value.value)
  {
    if value.None? || value.value == [] then value else Some(Strip(value.value))
  }

  /** Stripping twice is stripping once. */
  lemma StripWhiteSpaceIdempotent(value: Option<string>)
    ensures StripWhiteSpace(StripWhiteSpace(value)) == StripWhiteSpace(value)
  {
  }

  // ---------------------------------------------------------------------
  // paginate

  /** `int(data.get(name, default))`: `None` stands for the `ValueError`. */
  function IntArg(data: map<string, string>, name: string, default: int): (r: Option<int>)
    ensures name !in data ==> r == Some(default)
    ensures name in data ==> r == ParseInt(data[name])
  {
    if name in data then ParseInt(data[name]) else Some(default)
  }

  /** `paginate`: the start offset, never below 0, then the page size,
      never above `MaximumSize` (a negative size is kept), assigned in
      place. A start that is not an integer raises before anything is
      assigned; a size that is not an integer raises after the start has
      been assigned. */
  method Paginate(query: Query, data: map<string, string>) returns (r: Result<Query, ()>)
    modifies query
    ensures IntArg(data, "start", 0).None? ==> r.Err? && query.pageStart == old(query.pageStart)
    ensures IntArg(data, "start", 0).Some? ==>
              query.pageStart == if IntArg(data, "start", 0).value < 0 then 0 else IntArg(data, "start", 0).value
    ensures r.Ok? <==> IntArg(data, "start", 0).Some? && IntArg(data, "size", 50).Some?
    ensures r.Ok? ==> r.value == query
    ensures r.Ok? ==>
              query.size == if IntArg(data, "size", 50).value > MaximumSize then MaximumSize else IntArg(data, "size", 50).value
    ensures r.Err? ==> query.size == old(query.size)
    ensures query.order == old(query.order) && query.includeOlderVersions == old(query.includeOlderVersions)
    ensures query.hideAbstracts == old(query.hideAbstracts)
  {
    var start := IntArg(data, "start", 0);
    if start.None? {
      return Err(());
    }
    query.pageStart := if start.value < 0 then 0 else start.value;
    var size := IntArg(data, "size", 50);
    if size.None? {
      return Err(());
    }
    query.size := if size.value > MaximumSize then MaximumSize else size.value;
    return Ok(query);
  }

  /** A paginated query's page lies within the first `MaximumSize` records
      of its start. */
  method PaginatedPage(data: map<string, string>) returns (r: Result<(int, int), ()>)
    ensures r.Ok? ==> 0 <= r.value.0 && r.value.1 - r.value.0 <= MaximumSize
    ensures r.Ok? <==> IntArg(data, "start", 0).Some? && IntArg(data, "size", 50).Some?
  {
    var query := new Query();
    var paged := Paginate(query, data);
    if paged.Err? {
      return Err(());
    }
    return Ok((query.pageStart, query.PageEnd()));
  }

  // ---------------------------------------------------------------------
  // catch_underscore_syntax: the pattern `([A-Za-z]+)_([a-zA-Z])(?=$|\s)`.

  /** The end of the run of ASCII letters starting at `i`. */
  function LetterRunEnd(s: string, i: nat): (k: nat)
    requires i <= |s|
    ensures i <= k <= |s|
    ensures k == |s| || !IsAsciiLetter(s[k])
    decreases |s| - i
  {
    if i < |s| && IsAsciiLetter(s[i]) then LetterRunEnd(s, i + 1) else i
  }

  /** Whether the pattern matches at `i`, and where its underscore is: a
      non-empty run of letters (it cannot give back letters, since `_` is
      not one), `_`, one letter, then the end or whitespace. */
  function MatchAt(s: string, i: nat): (r: Option<nat>)
    requires i <= |s|
    ensures r.Some? ==> i < r.value && r.value + 2 <= |s|
  {
    var k := LetterRunEnd(s, i);
    if k > i && k + 2 <= |s| && s[k] == '_' && IsAsciiLetter(s[k + 1])
       && (k + 2 == |s| || IsSpace(s[k + 2]))
    then Some(k) else None
  }

  /** The replacement `, \g<2>;` for a match's initial. */
  function Replacement(initial: char): string
  {
    ", " + [initial] + ";"
  }

  /** `re.sub(CLASSIC_AUTHOR, r"\g<1>, \g<2>;", s[i..])`: scanning left to
      right, each match becomes `surname, X;` and the scan resumes after it. */
  function Rewrite(s: string, i: nat): (r: string)
    requires i <= |s|
    decreases |s| - i
  {
    if i == |s| then []
    else
      match MatchAt(s, i)
      case Some(k) => s[i..k] + Replacement(s[k + 1]) + Rewrite(s, k + 2)
      case None => [s[i]] + Rewrite(s, i + 1)
  }

  /** `re.search(CLASSIC_AUTHOR, s)` finds a match. */
  predicate HasMatch(s: string)
  {
    exists i :: 0 <= i <= |s| && MatchAt(s, i).Some?
  }

  /** Without a match from `i` on, the rewrite changes nothing. */
  lemma {:induction false} RewriteWithoutMatch(s: string, i: nat)
    requires i <= |s|
    requires forall j :: i <= j <= |s| ==> MatchAt(s, j).None?
    ensures Rewrite(s, i) == s[i..]
    decreases |s| - i
  {
    if i < |s| {
      RewriteWithoutMatch(s, i + 1);
      assert s[i..] == [s[i]] + s[i + 1..];
    }
  }

  /** Each match removes exactly one `_`: the rewrite has as many fewer
      underscores as it rewrites matches. */
  function MatchCount(s: string, i: nat): (n: nat)
    requires i <= |s|
    decreases |s| - i
  {
    if i == |s| then 0
    else
      match MatchAt(s, i)
      case Some(k) => 1 + MatchCount(s, k + 2)
      case None => MatchCount(s, i + 1)
  }

  /** The underscores of `s` from `i` on, counted by position. */
  function UnderscoresFrom(s: string, i: nat): nat
    requires i <= |s|
    decreases |s| - i
  {
    if i == |s| then 0 else (if s[i] == '_' then 1 else 0) + UnderscoresFrom(s, i + 1)
  }

  /** Counting by position is counting in the suffix. */
  lemma {:induction false} UnderscoresFromIsCount(s: string, i: nat)
    requires i <= |s|
    ensures UnderscoresFrom(s, i) == Count(s[i..], '_')
    decreases |s| - i
  {
    if i < |s| {
      UnderscoresFromIsCount(s, i + 1);
      assert s[i..][1..] == s[i + 1..];
    }
  }

  lemma {:induction false} RewriteUnderscores(s: string, i: nat)
    requires i <= |s|
    ensures Count(Rewrite(s, i), '_') + MatchCount(s, i) == UnderscoresFrom(s, i)
    decreases |s| - i, 1
  {
    if i < |s| {
      if MatchAt(s, i).Some? {
        MatchStep(s, i, MatchAt(s, i).value);
      } else {
        OtherStep(s, i);
      }
    }
  }

  /** A match at `i` removes one underscore more than the rest does. */
  lemma {:induction false} MatchStep(s: string, i: nat, k: nat)
    requires i <= |s| && MatchAt(s, i) == Some(k)
    ensures Count(Rewrite(s, i), '_') + MatchCount(s, i) == UnderscoresFrom(s, i)
    decreases |s| - i, 0
  {
    RewriteUnderscores(s, k + 2);
    MatchCountAt(s, i, k);
    RewriteMatchUnderscores(s, i, k);
    RunUnderscores(s, i);
    MatchUnderscores(s, i, k);
  }

  /** A match counts one and the count resumes after its initial. */
  lemma MatchCountAt(s: string, i: nat, k: nat)
    requires i <= |s| && MatchAt(s, i) == Some(k)
    ensures MatchCount(s, i) == 1 + MatchCount(s, k + 2)
  {
  }

  /** The `_X` of a match holds exactly one underscore. */
  lemma MatchUnderscores(s: string, i: nat, k: nat)
    requires i <= |s| && MatchAt(s, i) == Some(k)
    ensures LetterRunEnd(s, i) == k
    ensures UnderscoresFrom(s, k) == 1 + UnderscoresFrom(s, k + 2)
  {
    assert s[k] == '_' && IsAsciiLetter(s[k + 1]);
    assert UnderscoresFrom(s, k) == 1 + UnderscoresFrom(s, k + 1);
    assert UnderscoresFrom(s, k + 1) == UnderscoresFrom(s, k + 2);
  }

  /** A character where nothing matches is copied, underscore or not. */
  lemma {:induction false} OtherStep(s: string, i: nat)
    requires i < |s| && MatchAt(s, i).None?
    ensures Count(Rewrite(s, i), '_') + MatchCount(s, i) == UnderscoresFrom(s, i)
    decreases |s| - i, 0
  {
    RewriteUnderscores(s, i + 1);
    var rw := Rewrite(s, i + 1);
    assert MatchCount(s, i) == MatchCount(s, i + 1);
    assert Rewrite(s, i) == [s[i]] + rw;
    CountConcat([s[i]], rw, '_');
  }

  /** A run of letters adds no underscore. */
  lemma {:induction false} RunUnderscores(s: string, i: nat)
    requires i <= |s|
    ensures UnderscoresFrom(s, i) == UnderscoresFrom(s, LetterRunEnd(s, i))
    decreases |s| - i
  {
    if LetterRunEnd(s, i) > i {
      RunUnderscores(s, i + 1);
    }
  }

  /** One rewritten match: the letters keep their (no) underscores and
      `_X` becomes `, X;`, which has none either. */
  lemma RewriteMatchUnderscores(s: string, i: nat, k: nat)
    requires i <= |s| && MatchAt(s, i) == Some(k)
    ensures Count(Rewrite(s, i), '_') == Count(Rewrite(s, k + 2), '_')
  {
    var pre, rep, rw := s[i..k], Replacement(s[k + 1]), Rewrite(s, k + 2);
    RewriteUnfold(s, i, k);
    CountConcat(pre + rep, rw, '_');
    CountConcat(pre, rep, '_');
    RunHasNoUnderscore(s, i);
    ReplacementCounts(s[k + 1]);
  }

  /** At a match the substitution emits the surname, the replacement of
      the initial, and the rewrite of what follows. */
  lemma RewriteUnfold(s: string, i: nat, k: nat)
    requires i <= |s| && MatchAt(s, i) == Some(k)
    ensures Rewrite(s, i) == s[i..k] + Replacement(s[k + 1]) + Rewrite(s, k + 2)
  {
  }

  lemma ReplacementCounts(initial: char)
    requires IsAsciiLetter(initial)
    ensures Count(Replacement(initial), '_') == 0
  {
    assert Replacement(initial) == [',', ' ', initial, ';'];
    CountZero(Replacement(initial), '_');
  }

  /** A run of letters holds no underscore. */
  lemma {:induction false} RunHasNoUnderscore(s: string, i: nat)
    requires i <= |s|
    ensures Count(s[i..LetterRunEnd(s, i)], '_') == 0
    decreases |s| - i
  {
    var k := LetterRunEnd(s, i);
    if k > i {
      RunHasNoUnderscore(s, i + 1);
      assert s[i..k] == [s[i]] + s[i + 1..k];
      CountConcat([s[i]], s[i + 1..k], '_');
    }
  }

  /** `catch_underscore_syntax`: without a match the term is returned
      unchanged with `False`; otherwise every match is rewritten, trailing
      `;` are stripped, and the flag is `True`. */
  function CatchUnderscoreSyntax(term: string): (r: (string, bool))
    ensures !r.1 <==> !HasMatch(term)
    ensures !r.1 ==> r.0 == term
    ensures r.1 ==> r.0 == RStripChar(Rewrite(term, 0), ';')
  {
    if HasMatch(term) then (RStripChar(Rewrite(term, 0), ';'), true)
    else
      RewriteWithoutMatch(term, 0);
      (term, false)
  }

  /** The rewrite removes one `_` per match, so a term with a match comes
      back with fewer underscores. */
  lemma CatchUnderscoreSyntaxRemovesUnderscores(term: string)
    requires HasMatch(term)
    ensures MatchCount(term, 0) >= 1
    ensures Count(Rewrite(term, 0), '_') + MatchCount(term, 0) == Count(term, '_')
  {
    RewriteUnderscores(term, 0);
    UnderscoresFromIsCount(term, 0);
    assert term[0..] == term;
    var i :| 0 <= i <= |term| && MatchAt(term, i).Some?;
    MatchCountFrom(term, 0, i);
  }

  /** A match at or after `j` is counted from `j`. */
  lemma {:induction false} MatchCountFrom(s: string, j: nat, i: nat)
    requires j <= i <= |s| && MatchAt(s, i).Some?
    ensures MatchCount(s, j) >= 1
    decreases |s| - j
  {
    if j == i {
      assert j < |s|;
    } else {
      assert j < |s|;
      match MatchAt(s, j)
      case Some(k) =>
      case None => MatchCountFrom(s, j + 1, i);
    }
  }

  /** Over the letters of `w`, the run reaches the end of `w`. */
  lemma {:induction false} LetterRunOverWord(s: string, w: string, i: nat)
    requires |w| < |s| && s[..|w|] == w && s[|w|] == '_' && i <= |w|
    requires forall m :: 0 <= m < |w| ==> IsAsciiLetter(w[m])
    ensures LetterRunEnd(s, i) == |w|
    decreases |w| - i
  {
    if i < |w| {
      assert s[i] == w[i];
      LetterRunOverWord(s, w, i + 1);
    }
  }

  /** The pattern matches at the start of `surname_X` followed by the end
      or whitespace, with its underscore after the surname. */
  lemma SurnameInitialMatches(w: string, c: char, rest: string)
    requires w != [] && forall m :: 0 <= m < |w| ==> IsAsciiLetter(w[m])
    requires IsAsciiLetter(c) && (rest == [] || IsSpace(rest[0]))
    ensures var s := w + "_" + [c] + rest;
            MatchAt(s, 0) == Some(|w|) && s[0..|w|] == w && s[|w| + 1] == c
  {
    var s := w + "_" + [c] + rest;
    var n := |w|;
    assert s[..n] == w && s[n] == '_' && s[n + 1] == c;
    assert n + 2 < |s| ==> s[n + 2] == rest[0];
    LetterRunOverWord(s, w, 0);
    assert s[0..n] == w;
  }

  /** Wherever the pattern matches, `w` followed by the `_X` of the match
      becomes `w, X;` and the scan resumes after the initial. */
  lemma RewriteAtMatch(s: string, w: string, c: char)
    requires MatchAt(s, 0) == Some(|w|) && s[0..|w|] == w && s[|w| + 1] == c
    ensures Rewrite(s, 0) == w + ", " + [c] + ";" + Rewrite(s, |w| + 2)
  {
    RewriteUnfold(s, 0, |w|);
    ReplacementAppended(w, c);
  }

  lemma ReplacementAppended(w: string, c: char)
    ensures w + Replacement(c) == w + ", " + [c] + ";"
  {
    AppendAssoc(w, ", " + [c], ";");
    AppendAssoc(w, ", ", [c]);
  }

  /** `surname_X` followed by the end or whitespace becomes `surname, X;`,
      and the scan resumes right after the initial. */
  lemma SurnameInitialRewritten(w: string, c: char, rest: string)
    requires w != [] && forall m :: 0 <= m < |w| ==> IsAsciiLetter(w[m])
    requires IsAsciiLetter(c) && (rest == [] || IsSpace(rest[0]))
    ensures var s := w + "_" + [c] + rest;
            Rewrite(s, 0) == w + ", " + [c] + ";" + Rewrite(s, |w| + 2)
  {
    SurnameInitialMatches(w, c, rest);
    RewriteAtMatch(w + "_" + [c] + rest, w, c);
  }

  /** A whole term `surname_X` comes back as `surname, X`, flagged. */
  lemma CatchSurnameInitial(w: string, c: char)
    requires w != [] && forall m :: 0 <= m < |w| ==> IsAsciiLetter(w[m])
    requires IsAsciiLetter(c)
    ensures CatchUnderscoreSyntax(w + "_" + [c]) == (w + ", " + [c], true)
  {
    var term := w + "_" + [c];
    SurnameInitialRewritten(w, c, []);
    assert term + [] == term;
    assert Rewrite(term, |w| + 2) == [];
    var out := w + ", " + [c] + ";";
    assert Rewrite(term, 0) == out;
    LetterRunOverWord(term, w, 0);
    assert MatchAt(term, 0).Some?;
    var r := RStripChar(out, ';');
    assert out[|out| - 2] == c && out[|out| - 1] == ';';
    assert |r| == |out| - 1;
    assert r == out[..|out| - 1] == w + ", " + [c];
  }

  /** The instance from the classic author syntax. */
  lemma CatchSmithJ()
    ensures CatchUnderscoreSyntax("Smith_J") == ("Smith, J", true)
  {
    assert "Smith_J" == "Smith" + "_" + ['J'];
    CatchSurnameInitial("Smith", 'J');
    assert "Smith" + ", " + ['J'] == "Smith, J";
  }
}
