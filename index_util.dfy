/** Helpers the search index uses to prepare query strings: escaping of the
    query-syntax characters, wildcard detection and escaping, recognisers for
    dates and old-style paper numbers, and the choice of sort order. The
    regular expressions of the source are written out as explicit
    recognisers. */
module IndexUtil {
  import opened Wrappers
  import opened Strings

  /** Largest result offset a client may page to. */
  const MAX_RESULTS: nat := 10000

  /** The query-syntax characters that are escaped; the two-character entries
      `&&` and `||` are compared with single characters and so never match. */
  const SPECIAL_CHARACTERS: seq<string> :=
    ["+", "=", "&&", "||", ">", "<", "!", "(", ")", "{", "}", "[", "]", "^", "~", ":", "\\", "/", "-"]

  predicate IsSpecialCharacter(c: char)
  {
    [c] in SPECIAL_CHARACTERS
  }

  /** `&` and `|` are never escaped, although `&&` and `||` are listed. */
  lemma DoubledOperatorsNeverMatch()
    ensures !IsSpecialCharacter('&') && !IsSpecialCharacter('|')
    ensures IsSpecialCharacter('\\') && IsSpecialCharacter('-') && IsSpecialCharacter(':')
  {
    assert [('\\' as char)] == SPECIAL_CHARACTERS[16];
    assert "-" == SPECIAL_CHARACTERS[18];
    assert ":" == SPECIAL_CHARACTERS[15];
  }

  predicate NeedsEscape(c: char, quotes: bool)
  {
    IsSpecialCharacter(c) || (quotes && c == '"')
  }

  function EscapeChar(c: char, quotes: bool): string
  {
    if NeedsEscape(c, quotes) then ['\\', c] else [c]
  }

  /** `term` with a backslash inserted before every character that needs one. */
  function Escaped(term: string, quotes: bool): string
  {
    if term == [] then [] else EscapeChar(term[0], quotes) + Escaped(term[1..], quotes)
  }

  lemma {:induction false} EscapedAppend(s: string, c: char, quotes: bool)
    ensures Escaped(s + [c], quotes) == Escaped(s, quotes) + EscapeChar(c, quotes)
    decreases |s|
  {
    if s == [] {
      assert [c][1..] == [];
    } else {
      assert (s + [c])[1..] == s[1..] + [c];
      EscapedAppend(s[1..], c, quotes);
    }
  }

  /** `escape`: walks the term, appending a backslash before each special
      character (and before `"` when `quotes` is set). */
  method Escape(term: string, quotes: bool) returns (r: string)
    ensures r == Escaped(term, quotes)
  {
    r := [];
    for i := 0 to |term|
      invariant r == Escaped(term[..i], quotes)
    {
      EscapedAppend(term[..i], term[i], quotes);
      assert term[..i + 1] == term[..i] + [term[i]];
      if NeedsEscape(term[i], quotes) {
        r := r + "\\";
      }
      r := r + [term[i]];
    }
    assert term[..|term|] == term;
  }

  /** How many characters of `term` need a backslash. */
  function NumEscaped(term: string, quotes: bool): nat
  {
    if term == [] then 0 else (if NeedsEscape(term[0], quotes) then 1 else 0) + NumEscaped(term[1..], quotes)
  }

  /** Escaping adds exactly one character per escaped character. */
  lemma {:induction false} EscapedLength(term: string, quotes: bool)
    ensures |Escaped(term, quotes)| == |term| + NumEscaped(term, quotes)
    decreases |term|
  {
    if term != [] {
      EscapedLength(term[1..], quotes);
    }
  }

  /** Drops every escaping backslash: a backslash and the character after it
      become that character. */
  function Unescape(t: string): string
  {
    if |t| >= 2 && t[0] == '\\' then [t[1]] + Unescape(t[2..])
    else if t == [] then []
    else [t[0]] + Unescape(t[1..])
  }

  /** Dropping each escaping backslash recovers the input; this relies on the
      backslash itself being special. */
  lemma {:induction false} UnescapeEscaped(term: string, quotes: bool)
    ensures Unescape(Escaped(term, quotes)) == term
    decreases |term|
  {
    if term != [] {
      DoubledOperatorsNeverMatch();
      var e := Escaped(term, quotes);
      UnescapeEscaped(term[1..], quotes);
      if NeedsEscape(term[0], quotes) {
        assert e == ['\\', term[0]] + Escaped(term[1..], quotes);
        assert e[2..] == Escaped(term[1..], quotes);
      } else {
        assert term[0] != '\\';
        assert e == [term[0]] + Escaped(term[1..], quotes);
        assert e[1..] == Escaped(term[1..], quotes);
      }
    }
  }

  // ---------------------------------------------------------------------
  // Wildcards

  predicate IsWildcard(c: char) { c == '*' || c == '?' }

  /** Some `*` or `?` is not preceded by a backslash (the search for
      `(?<!\\)[*?]`). */
  predicate HasUnescapedWildcard(t: string)
  {
    exists k :: 0 <= k < |t| && IsWildcard(t[k]) && (k == 0 || t[k - 1] != '\\')
  }

  /** Every `*` and `?` is preceded by a backslash. */
  predicate AllWildcardsEscaped(t: string)
  {
    forall k :: 0 <= k < |t| && IsWildcard(t[k]) ==> k > 0 && t[k - 1] == '\\'
  }

  /** A double-quoted literal: `"`, no other `"`, `"`. */
  predicate IsLiteral(p: string)
  {
    |p| >= 2 && p[0] == '"' && p[|p| - 1] == '"' && '"' !in p[1..|p| - 1]
  }

  /** `re.split` on the captured pattern `("[^"]*")`: the text between
      literals at even positions, the literals themselves at odd positions.
      Quotes pair up left to right; an unpaired last quote stays in the text. */
  /** Where the next double quote stands: `|s|` when there is none. */
  function QuoteIndex(s: string): (i: nat)
    ensures i <= |s|
    ensures i < |s| ==> s[i] == '"'
    decreases |s|
  {
    if s == [] || s[0] == '"' then 0 else 1 + QuoteIndex(s[1..])
  }

  /** No double quote comes before it. */
  lemma {:induction false} QuoteIndexFirst(s: string)
    ensures '"' !in s[..QuoteIndex(s)]
    ensures QuoteIndex(s) == |s| <==> '"' !in s
    decreases |s|
  {
    if s != [] && s[0] != '"' {
      QuoteIndexFirst(s[1..]);
      assert s[..QuoteIndex(s)] == [s[0]] + s[1..][..QuoteIndex(s[1..])];
    }
  }

  function SplitLiterals(s: string): seq<string>
    decreases |s|, 1
  {
    var i := QuoteIndex(s);
    if i == |s| then [s] else SplitAfterQuote(s, i, QuoteIndex(s[i + 1..]))
  }

  /** The split of `s` whose first quote is at `i` and whose next quote is
      `j` characters after it (`j` reaching the end when there is none). */
  function SplitAfterQuote(s: string, i: nat, j: nat): seq<string>
    requires i < |s| && j <= |s| - i - 1
    decreases |s|, 0
  {
    if j == |s| - i - 1 then [s]
    else [s[..i], s[i..i + j + 2]] + SplitLiterals(s[i + j + 2..])
  }

  /** The split alternates text free of double quotes with literals, and
      ends with text (which may hold one unpaired quote). */
  lemma {:induction false} SplitLiteralsShape(s: string)
    ensures var parts := SplitLiterals(s);
      && |parts| % 2 == 1
      && (forall i :: 0 <= i < |parts| && i % 2 == 1 ==> IsLiteral(parts[i]))
      && (forall i :: 0 <= i < |parts| - 1 && i % 2 == 0 ==> '"' !in parts[i])
    decreases |s|
  {
    var i := QuoteIndex(s);
    if i < |s| {
      var j := QuoteIndex(s[i + 1..]);
      if j < |s[i + 1..]| {
        SplitLiteralsUnfold(s, i, j);
        SplitLiteralsShape(s[i + j + 2..]);
        QuoteIndexFirst(s);
        QuoteIndexFirst(s[i + 1..]);
        LiteralAt(s, i, j);
        PrependPair(s[..i], s[i..i + j + 2], SplitLiterals(s[i + j + 2..]));
      }
    }
  }

  lemma LiteralAt(s: string, i: nat, j: nat)
    requires i < |s| && s[i] == '"'
    requires j < |s[i + 1..]| && '"' !in s[i + 1..][..j] && s[i + 1..][j] == '"'
    ensures IsLiteral(s[i..i + j + 2])
  {
    var lit := s[i..i + j + 2];
    assert s[i + 1..][..j] == s[i + 1..i + 1 + j];
    assert |lit| == j + 2;
    var inner := lit[1..|lit| - 1];
    assert forall k :: 0 <= k < j ==> inner[k] == s[i + 1 + k];
    assert inner == s[i + 1..i + 1 + j];
    assert lit[|lit| - 1] == s[i + 1..][j];
  }

  lemma PrependPair(a: string, lit: string, rest: seq<string>)
    requires '"' !in a && IsLiteral(lit)
    requires |rest| % 2 == 1
    requires forall i :: 0 <= i < |rest| && i % 2 == 1 ==> IsLiteral(rest[i])
    requires forall i :: 0 <= i < |rest| - 1 && i % 2 == 0 ==> '"' !in rest[i]
    ensures var parts := [a, lit] + rest;
      && |parts| % 2 == 1
      && (forall i :: 0 <= i < |parts| && i % 2 == 1 ==> IsLiteral(parts[i]))
      && (forall i :: 0 <= i < |parts| - 1 && i % 2 == 0 ==> '"' !in parts[i])
  {
    var parts := [a, lit] + rest;
    forall i | 2 <= i < |parts|
      ensures parts[i] == rest[i - 2] && (i % 2 == 1 <==> (i - 2) % 2 == 1)
    {
    }
  }

  lemma JoinPair(a: string, lit: string, rest: seq<string>)
    requires |rest| >= 1
    ensures Join("", [a, lit] + rest) == a + lit + Join("", rest)
  {
    var tail := Join("", rest);
    assert Join("", [lit] + rest) == lit + tail by {
      JoinCons("", lit, rest);
      assert lit + "" == lit;
    }
    assert Join("", [a, lit] + rest) == a + (lit + tail) by {
      JoinCons("", a, [lit] + rest);
      assert [a] + ([lit] + rest) == [a, lit] + rest;
      assert a + "" == a;
    }
    AppendAssoc(a, lit, tail);
  }

  /** Splitting loses nothing: the parts concatenate to the input. */
  lemma {:induction false} SplitLiteralsConcat(s: string)
    ensures Join("", SplitLiterals(s)) == s
    decreases |s|
  {
    var i := QuoteIndex(s);
    if i < |s| {
      var j := QuoteIndex(s[i + 1..]);
      if j < |s[i + 1..]| {
        var rest := SplitLiterals(s[i + j + 2..]);
        SplitLiteralsUnfold(s, i, j);
        SplitLiteralsConcat(s[i + j + 2..]);
        JoinPair(s[..i], s[i..i + j + 2], rest);
        ThreeSlices(s, i, i + j + 2);
      }
    }
  }

  /** The split of a string whose first literal spans `i` to `i + j + 1`. */
  lemma SplitLiteralsUnfold(s: string, i: nat, j: nat)
    requires i == QuoteIndex(s) && i < |s|
    requires j == QuoteIndex(s[i + 1..]) && j < |s[i + 1..]|
    ensures SplitLiterals(s) == [s[..i], s[i..i + j + 2]] + SplitLiterals(s[i + j + 2..])
  {
  }

  /** Cutting a string twice and gluing the three pieces back. */
  lemma ThreeSlices(s: string, a: nat, b: nat)
    requires a <= b <= |s|
    ensures s[..a] + s[a..b] + s[b..] == s
  {
  }

  /** One segment's wildcards, each preceded by a backslash. */
  function WildcardsEscapedFlat(p: string): (r: string)
    ensures AllWildcardsEscaped(r)
    ensures r == [] <==> p == []
    ensures p != [] ==> r[0] == (if IsWildcard(p[0]) then '\\' else p[0])
  {
    if p == [] then []
    else
      var head := if IsWildcard(p[0]) then ['\\', p[0]] else [p[0]];
      var tail := WildcardsEscapedFlat(p[1..]);
      var r := head + tail;
      assert forall k :: |head| <= k < |r| ==> r[k] == tail[k - |head|];
      r
  }

  /** `part.replace("*", "\*").replace("?", "\?")`. */
  function EscapeWildcards(p: string): string
  {
    Replace(Replace(p, "*", "\\*"), "?", "\\?")
  }

  /** The two replacements amount to one character-wise pass. */
  lemma {:induction false} EscapeWildcardsFlat(p: string)
    ensures EscapeWildcards(p) == WildcardsEscapedFlat(p)
    decreases |p|
  {
    ReplaceOneChar(p, '*', "\\*");
    ReplaceOneChar(ReplaceChar(p, '*', "\\*"), '?', "\\?");
    ReplaceTwiceFlat(p);
  }

  lemma {:induction false} ReplaceTwiceFlat(p: string)
    ensures ReplaceChar(ReplaceChar(p, '*', "\\*"), '?', "\\?") == WildcardsEscapedFlat(p)
    decreases |p|
  {
    if p != [] {
      var first := if p[0] == '*' then "\\*" else [p[0]];
      assert ReplaceChar(p, '*', "\\*") == first + ReplaceChar(p[1..], '*', "\\*");
      ReplaceCharConcat(first, ReplaceChar(p[1..], '*', "\\*"), '?', "\\?");
      ReplaceTwiceFlat(p[1..]);
      assert ReplaceChar("\\*", '?', "\\?") == "\\*" by {
        assert "\\*"[1..] == "*";
        assert "*"[1..] == [];
      }
      if p[0] != '*' {
        assert ReplaceChar([p[0]], '?', "\\?") == (if p[0] == '?' then "\\?" else [p[0]]) by {
          assert [p[0]][1..] == [];
        }
      }
    }
  }

  predicate StartsWithQuote(p: string)
  {
    p != [] && (p[0] == '"' || p[0] == '\'')
  }

  /** A segment is escaped when it starts with a double or single quote. */
  function EscapePart(p: string): (r: string)
    ensures StartsWithQuote(p) ==> AllWildcardsEscaped(r) && r == WildcardsEscapedFlat(p)
    ensures !StartsWithQuote(p) ==> r == p
  {
    if StartsWithQuote(p) then
      EscapeWildcardsFlat(p);
      EscapeWildcards(p)
    else p
  }

  function EscapeParts(parts: seq<string>): (r: seq<string>)
    ensures |r| == |parts|
    ensures forall i :: 0 <= i < |parts| ==> r[i] == EscapePart(parts[i])
  {
    if parts == [] then [] else [EscapePart(parts[0])] + EscapeParts(parts[1..])
  }

  /** `wildcard_escape`: a query may not start with a wildcard; wildcards in
      quoted segments are escaped, and the flag reports whether an unescaped
      wildcard is left. */
  function WildcardEscape(q: string): (r: Result<(string, bool), string>)
    ensures r.Err? <==> q != [] && IsWildcard(q[0])
    ensures r.Ok? ==> (r.value.1 <==> HasUnescapedWildcard(r.value.0))
    ensures r.Ok? ==> r.value.0 == Join("", EscapeParts(SplitLiterals(q)))
  {
    if StartsWith(q, "?") || StartsWith(q, "*") then Err("Query cannot start with a wildcard")
    else
      var out := Join("", EscapeParts(SplitLiterals(q)));
      Ok((out, HasUnescapedWildcard(out)))
  }

  /** The accepted query is cut into segments that glue back to it; each
      segment starting with a quote comes back with a backslash before every
      wildcard, every other segment comes back unchanged, and the result is
      the escaped segments glued in order. */
  lemma WildcardEscapeSegments(q: string)
    requires q == [] || !IsWildcard(q[0])
    ensures var parts := SplitLiterals(q);
            Join("", parts) == q
            && WildcardEscape(q).Ok?
            && WildcardEscape(q).value.0 == Join("", EscapeParts(parts))
            && forall i :: 0 <= i < |parts| ==>
                 EscapeParts(parts)[i] == (if StartsWithQuote(parts[i]) then WildcardsEscapedFlat(parts[i]) else parts[i])
  {
    SplitLiteralsConcat(q);
  }

  lemma {:induction false} JoinEmptySepSingleton(parts: seq<string>)
    requires |parts| == 1
    ensures Join("", parts) == parts[0]
  {
  }

  /** A query without double quotes that does not start with a single quote
      comes back unchanged. */
  lemma WildcardEscapeWithoutQuotes(q: string)
    requires '"' !in q && !StartsWithQuote(q)
    requires q == [] || !IsWildcard(q[0])
    ensures WildcardEscape(q) == Ok((q, HasUnescapedWildcard(q)))
  {
    QuoteIndexFirst(q);
    assert SplitLiterals(q) == [q];
    assert EscapeParts([q]) == [q];
  }

  /** `has_wildcard`: a wildcard somewhere, but not at the start. */
  predicate HasWildcard(term: string)
  {
    ('*' in term || '?' in term) && !(StartsWith(term, "*") || StartsWith(term, "?"))
  }

  /** For a plain term (no quotes, no backslashes) that `wildcard_escape`
      accepts, its flag and `has_wildcard` agree. */
  lemma {:induction false} HasWildcardAgreesWithEscape(term: string)
    requires '"' !in term && '\\' !in term && !StartsWithQuote(term)
    ensures WildcardEscape(term).Ok? <==> term == [] || !IsWildcard(term[0])
    ensures WildcardEscape(term).Ok? ==> (WildcardEscape(term).value.1 <==> HasWildcard(term))
  {
    if term == [] || !IsWildcard(term[0]) {
      WildcardEscapeWithoutQuotes(term);
      if HasWildcard(term) {
        var k: nat :| k < |term| && IsWildcard(term[k]);
        assert k == 0 || term[k - 1] != '\\';
      }
      if HasUnescapedWildcard(term) {
        var k :| 0 <= k < |term| && IsWildcard(term[k]) && (k == 0 || term[k - 1] != '\\');
        assert term[k] in term;
      }
    }
  }

  /** `is_literal_query`: the term contains a double quote. */
  predicate IsLiteralQuery(term: string)
  {
    '"' in term
  }

  // ---------------------------------------------------------------------
  // Punctuation

  /** A character of Python's `string.punctuation` (the ASCII punctuation). */
  predicate IsPunctuation(c: char)
  {
    ('!' <= c <= '/') || (':' <= c <= '@') || ('[' <= c <= '`') || ('{' <= c <= '~')
  }

  /** `strip_punctuation`: the characters that are not punctuation, in order. */
  function StripPunctuation(s: string): (r: string)
    ensures |r| <= |s|
    ensures forall i :: 0 <= i < |r| ==> !IsPunctuation(r[i])
    ensures (forall i :: 0 <= i < |s| ==> !IsPunctuation(s[i])) ==> r == s
  {
    if s == [] then []
    else
      var tail := StripPunctuation(s[1..]);
      if IsPunctuation(s[0]) then tail
      else
        assert forall i :: 1 <= i < |tail| + 1 ==> ([s[0]] + tail)[i] == tail[i - 1];
        [s[0]] + tail
  }

  /** A single character is dropped exactly when it is punctuation. */
  lemma StripPunctuationOne(c: char)
    ensures StripPunctuation([c]) == if IsPunctuation(c) then [] else [c]
  {
    assert [c][1..] == [];
  }

  /** Stripping works character by character, so it distributes over
      concatenation. */
  lemma {:induction false} StripPunctuationConcat(a: string, b: string)
    ensures StripPunctuation(a + b) == StripPunctuation(a) + StripPunctuation(b)
    decreases |a|
  {
    if a != [] {
      assert (a + b)[0] == a[0];
      assert (a + b)[1..] == a[1..] + b;
      StripPunctuationConcat(a[1..], b);
      if !IsPunctuation(a[0]) {
        AppendAssoc([a[0]], StripPunctuation(a[1..]), StripPunctuation(b));
      }
    } else {
      assert a + b == b;
      assert StripPunctuation(a) == [];
    }
  }

  /** The words whose punctuation-free length exceeds one. */
  function KeepLongWords(words: seq<string>): (r: seq<string>)
    ensures forall i :: 0 <= i < |r| ==> r[i] in words && |StripPunctuation(r[i])| > 1
    ensures Words(words) ==> Words(r)
  {
    if words == [] then []
    else
      var tail := KeepLongWords(words[1..]);
      if |StripPunctuation(words[0])| > 1 then
        assert forall i :: 1 <= i < |tail| + 1 ==> ([words[0]] + tail)[i] == tail[i - 1];
        [words[0]] + tail
      else tail
  }

  /** A single word is kept exactly when it is long without its
      punctuation. */
  lemma KeepLongWordsOne(w: string)
    ensures KeepLongWords([w]) == if |StripPunctuation(w)| > 1 then [w] else []
  {
    assert [w][1..] == [];
  }

  /** Words are kept one by one, so keeping distributes over
      concatenation. */
  lemma {:induction false} KeepLongWordsConcat(a: seq<string>, b: seq<string>)
    ensures KeepLongWords(a + b) == KeepLongWords(a) + KeepLongWords(b)
    decreases |a|
  {
    if a != [] {
      assert (a + b)[0] == a[0] && (a + b)[1..] == a[1..] + b;
      KeepLongWordsUnfold(a + b);
      KeepLongWordsUnfold(a);
      KeepLongWordsConcat(a[1..], b);
      AppendAssoc(KeepLongWordsOf(a[0]), KeepLongWords(a[1..]), KeepLongWords(b));
    } else {
      assert a + b == b;
      assert KeepLongWords(a) == [];
    }
  }

  /** One step of `KeepLongWords`: the first word, if kept, then the rest. */
  lemma KeepLongWordsUnfold(words: seq<string>)
    requires words != []
    ensures KeepLongWords(words) == KeepLongWordsOf(words[0]) + KeepLongWords(words[1..])
  {
  }

  /** The one-word result of `KeepLongWords`. */
  function KeepLongWordsOf(w: string): seq<string>
  {
    if |StripPunctuation(w)| > 1 then [w] else []
  }

  /** `remove_single_characters`. */
  function RemoveSingleCharacters(term: string): string
  {
    Join(" ", KeepLongWords(SplitWs(term)))
  }

  /** The result's words are exactly the input's long words, in order. */
  lemma RemoveSingleCharactersWords(term: string)
    ensures SplitWs(RemoveSingleCharacters(term)) == KeepLongWords(SplitWs(term))
  {
    assert Words(SplitWs(term));
    SplitWsJoin(KeepLongWords(SplitWs(term)));
  }

  // ---------------------------------------------------------------------
  // Old paper numbers

  predicate MonthDigits(c: char, d: char)
  {
    (c == '0' && '1' <= d <= '9') || (c == '1' && '0' <= d <= '2')
  }

  /** The `YYMM` alternatives of the old-identifier pattern. */
  predicate OldYearMonth(a: char, b: char, c: char, d: char)
  {
    (a == '9' && b == '1' && c == '0' && '7' <= d <= '9')
    || (a == '9' && b == '1' && c == '1' && '0' <= d <= '2')
    || (a == '9' && '2' <= b <= '9' && MonthDigits(c, d))
    || (a == '0' && '0' <= b <= '6' && MonthDigits(c, d))
    || (a == '0' && b == '7' && c == '0' && '1' <= d <= '3')
  }

  /** The `NNN` alternatives: 001 to 999. */
  predicate OldSequence(a: char, b: char, c: char)
  {
    (a == '0' && b == '0' && '1' <= c <= '9')
    || (a == '0' && '1' <= b <= '9' && IsDigit(c))
    || ('1' <= a <= '9' && IsDigit(b) && IsDigit(c))
  }

  /** `is_old_papernum`: the whole term matches `YYMMNNN`. */
  predicate IsOldPaperNum(term: string)
  {
    |term| == 7 && OldYearMonth(term[0], term[1], term[2], term[3]) && OldSequence(term[4], term[5], term[6])
  }

  function Digit(c: char): int { c as int - '0' as int }

  /** The same set described by numbers: seven digits, a month 1 to 12 from
      July 1991 to March 2007, and a sequence number 1 to 999. */
  lemma OldPaperNumByValue(term: string)
    ensures IsOldPaperNum(term) <==>
      |term| == 7 && AllDigits(term) &&
      var yy := 10 * Digit(term[0]) + Digit(term[1]);
      var mm := 10 * Digit(term[2]) + Digit(term[3]);
      var n := 100 * Digit(term[4]) + 10 * Digit(term[5]) + Digit(term[6]);
      1 <= mm <= 12 && 1 <= n && (yy >= 92 || (yy == 91 && mm >= 7) || yy <= 6 || (yy == 7 && mm <= 3))
  {
  }

  lemma OldPaperNumExamples()
    ensures !IsOldPaperNum("9106001") && IsOldPaperNum("9107001")
    ensures !IsOldPaperNum("9200001") && IsOldPaperNum("9201001")
    ensures IsOldPaperNum("0703999") && !IsOldPaperNum("0704001")
  {
  }

  // ---------------------------------------------------------------------
  // Dates

  /** The two date shapes `parse_date` looks for, `YYYY-MM` and `YYYY`. */
  datatype DateShape = YearMonth | Year
  {
    function Width(): nat { if this == YearMonth then 7 else 4 }
  }

  predicate ShapeAt(t: string, q: nat, shape: DateShape)
  {
    q + shape.Width() <= |t|
    && IsDigit(t[q]) && IsDigit(t[q + 1]) && IsDigit(t[q + 2]) && IsDigit(t[q + 3])
    && (shape == YearMonth ==> t[q + 4] == '-' && IsDigit(t[q + 5]) && IsDigit(t[q + 6]))
  }

  /** `n` characters at `q`, preceded by the start or a space and followed by
      the end or a space. */
  predicate Standalone(t: string, q: nat, n: nat)
  {
    q + n <= |t| && (q == 0 || IsSpace(t[q - 1])) && (q + n == |t| || IsSpace(t[q + n]))
  }

  predicate DateAt(t: string, q: nat, shape: DateShape)
  {
    ShapeAt(t, q, shape) && Standalone(t, q, shape.Width())
  }

  /** The leftmost standalone date of the shape at or after `from`. */
  function FirstDate(t: string, shape: DateShape, from: nat): (r: Option<nat>)
    ensures r.Some? ==> from <= r.value && DateAt(t, r.value, shape)
    ensures r.Some? ==> forall q :: from <= q < r.value ==> !DateAt(t, q, shape)
    ensures r.None? ==> forall q :: from <= q ==> !DateAt(t, q, shape)
    decreases |t| - from
  {
    if from + shape.Width() > |t| then None
    else if DateAt(t, from, shape) then Some(from)
    else FirstDate(t, shape, from + 1)
  }

  /** Number of whitespace characters immediately before `q`. */
  function SpacesBefore(t: string, q: nat): (n: nat)
    requires q <= |t|
    ensures n <= q
    ensures forall i :: q - n <= i < q ==> IsSpace(t[i])
    ensures n == q || !IsSpace(t[q - n - 1])
  {
    if q == 0 || !IsSpace(t[q - 1]) then 0 else 1 + SpacesBefore(t, q - 1)
  }

  /** Number of whitespace characters starting at `k`. */
  function SpacesFrom(t: string, k: nat): (n: nat)
    requires k <= |t|
    ensures k + n <= |t|
    ensures forall i :: k <= i < k + n ==> IsSpace(t[i])
    ensures k + n == |t| || !IsSpace(t[k + n])
    decreases |t| - k
  {
    if k == |t| || !IsSpace(t[k]) then 0 else 1 + SpacesFrom(t, k + 1)
  }

  /** The date found at `q` and the term with the match (the date and the
      whitespace around it) cut out, replaced by one space, then stripped. */
  function CutDate(t: string, q: nat, shape: DateShape): (r: (string, string))
    requires DateAt(t, q, shape)
    ensures r.0 == t[q..q + shape.Width()]
    ensures r.1 == [] || (!IsSpace(r.1[0]) && !IsSpace(r.1[|r.1| - 1]))
  {
    var n := shape.Width();
    var start := q - SpacesBefore(t, q);
    var end := q + n + SpacesFrom(t, q + n);
    (t[q..q + n], Strip(t[..start] + " " + t[end..]))
  }

  /** The date `parse_date` picks: the first standalone `YYYY-MM`, else the
      first standalone `YYYY`. */
  function ChooseDate(term: string): (r: Option<(nat, DateShape)>)
    ensures r.Some? ==> DateAt(term, r.value.0, r.value.1)
  {
    match FirstDate(term, YearMonth, 0)
    case Some(q) => Some((q, YearMonth))
    case None =>
      match FirstDate(term, Year, 0)
      case Some(q) => Some((q, Year))
      case None => None
  }

  /** `parse_date`: a standalone `YYYY-MM` anywhere wins over a standalone
      `YYYY`; without either the term has no date. */
  function ParseDate(term: string): (r: Result<(string, string), string>)
    ensures r.Ok? <==> ChooseDate(term).Some?
    ensures r.Ok? ==> var (q, shape) := ChooseDate(term).value;
                      DateAt(term, q, shape) && r.value.0 == term[q..q + shape.Width()]
                      && r.value.1 == CutDate(term, q, shape).1
  {
    match ChooseDate(term)
    case Some((q, shape)) => Ok(CutDate(term, q, shape))
    case None => Err("No date info detected")
  }

  /** `parse_date` fails exactly when the term holds no standalone date of
      either shape. */
  lemma ParseDateFails(term: string)
    ensures ParseDate(term).Err? <==> forall q: nat :: !DateAt(term, q, YearMonth) && !DateAt(term, q, Year)
  {
    match FirstDate(term, YearMonth, 0)
    case Some(q) =>
      assert DateAt(term, q, YearMonth);
    case None =>
      match FirstDate(term, Year, 0)
      case Some(q) =>
        assert DateAt(term, q, Year);
      case None =>
  }

  /** A standalone `YYYY-MM` anywhere in the term is preferred: the date
      found then has that shape. */
  lemma ParseDatePrefersMonth(term: string, q: nat)
    requires DateAt(term, q, YearMonth)
    ensures ChooseDate(term).Some? && ChooseDate(term).value.1 == YearMonth
    ensures ParseDate(term).Ok? && |ParseDate(term).value.0| == 7 && ParseDate(term).value.0[4] == '-'
  {
    assert FirstDate(term, YearMonth, 0).Some?;
  }

  /** A `YYYY-MM` date at the front, followed by one space and a stripped
      rest: the date is split off and the rest is the remainder. */
  lemma ParseDateLeadingMonth(d: string, rest: string)
    requires |d| == 7 && ShapeAt(d, 0, YearMonth)
    requires rest == [] || (!IsSpace(rest[0]) && !IsSpace(rest[|rest| - 1]))
    ensures ParseDate(d + " " + rest) == Ok((d, rest))
  {
    var t := d + " " + rest;
    assert t[..7] == d && t[7] == ' ' && t[8..] == rest;
    assert DateAt(t, 0, YearMonth);
    assert FirstDate(t, YearMonth, 0) == Some(0);
    assert SpacesFrom(t, 8) == 0;
    assert SpacesFrom(t, 7) == 1;
    assert t[..0] + " " + t[8..] == " " + rest;
    LStripSpaceThenWord(rest);
    assert Strip(" " + rest) == RStrip(rest);
  }

  /** A `YYMM` partial with month 01 to 12, standing alone. */
  predicate PartialAt(t: string, q: nat)
  {
    Standalone(t, q, 4) && IsDigit(t[q]) && IsDigit(t[q + 1]) && MonthDigits(t[q + 2], t[q + 3])
  }

  function FirstPartial(t: string, from: nat): (r: Option<nat>)
    ensures r.Some? ==> from <= r.value && PartialAt(t, r.value)
    ensures r.Some? ==> forall q :: from <= q < r.value ==> !PartialAt(t, q)
    ensures r.None? ==> forall q :: from <= q ==> !PartialAt(t, q)
    decreases |t| - from
  {
    if from + 4 > |t| then None
    else if PartialAt(t, from) then Some(from)
    else FirstPartial(t, from + 1)
  }

  /** `parse_date_partial`: the first standalone `YYMM` as `CCYY-MM`, in the
      twentieth century from 91 on and in the twenty-first before. */
  function ParseDatePartial(term: string): (r: Option<string>)
    ensures r.None? <==> forall q :: !PartialAt(term, q)
    ensures r.Some? ==> |r.value| == 7 && r.value[4] == '-' && MonthDigits(r.value[5], r.value[6])
    ensures r.Some? ==> (r.value[..2] == "19" <==> 10 * Digit(r.value[2]) + Digit(r.value[3]) >= 91)
    ensures r.Some? ==> r.value[..2] == "19" || r.value[..2] == "20"
    ensures r.Some? ==> FirstPartial(term, 0).Some?
                        && var q := FirstPartial(term, 0).value;
                           r.value[2..] == term[q..q + 2] + "-" + term[q + 2..q + 4]
  {
    match FirstPartial(term, 0)
    case None => None
    case Some(q) =>
      var year := term[q..q + 2];
      var century := if 10 * Digit(term[q]) + Digit(term[q + 1]) >= 91 then "19" else "20";
      var r := century + year + "-" + term[q + 2..q + 4];
      assert r[..2] == century && r[2] == term[q] && r[3] == term[q + 1];
      assert r[4] == '-' && r[5] == term[q + 2] && r[6] == term[q + 3];
      assert r[2..] == year + "-" + term[q + 2..q + 4];
      Some(r)
  }

  // ---------------------------------------------------------------------
  // Sorting

  /** A sort key handed to the search: a field name (a leading `-` meaning
      descending), or a field with an explicit order. */
  datatype SortKey = ByName(name: string) | ByField(field: string, order: string)

  const DEFAULT_SORT_ORDER: seq<SortKey> := [ByField("announced_date_first", "desc"), ByField("_doc", "asc")]

  /** `sort`: without an order, the default; with one, that order and then
      `paper_id_v` in the same direction. */
  function SortParams(order: Option<string>): (r: seq<SortKey>)
    ensures order.None? || order.value == "" ==> r == DEFAULT_SORT_ORDER
    ensures order.Some? && order.value != "" ==>
      |r| == 2 && r[0] == ByName(order.value) && r[1].ByName?
      && EndsWith(r[1].name, "paper_id_v")
      && (StartsWith(r[1].name, "-") <==> StartsWith(order.value, "-"))
  {
    if order.None? || order.value == "" then DEFAULT_SORT_ORDER
    else
      var direction := if StartsWith(order.value, "-") then "-" else "";
      [ByName(order.value), ByName(direction + "paper_id_v")]
  }
}
