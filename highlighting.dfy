/** Hit highlighting of search results: moving highlight tags out of TeXisms,
    HTML-escaping everything outside the highlight tags, choosing a snippet
    end that does not cut a TeXism or a highlighted span, building the
    abstract preview, and routing the highlighted fields of a hit into the
    result's `highlight`, `match` and `preview` dictionaries. */
module Highlighting {
  import opened Wrappers
  import opened Strings

  const OPEN: string := "<span class=\"search-hit mathjax\">"
  const CLOSE: string := "</span>"
  const HELLIP: string := "&hellip;"
  /** Characters at which `preview` may start a snippet. */
  predicate IsBoundary(c: char)
  {
    c == '.' || c == ',' || c == '!' || c == '?' || c == ' ' || c == '\t' || c == '\n'
    || c == '$' || c == '<'
  }

  /** Characters at which `preview` stops rolling the start back. */
  predicate IsStopper(c: char)
  {
    c == '$' || c == '>'
  }
  /** The fragment size `add_highlighting` asks `preview` for. */
  const DEFAULT_FRAGMENT_SIZE: int := 400

  /** The two highlight tags never begin at the same offset: they differ in
      their second character. */
  lemma TagsNeverStartTogether(v: string, j: int)
    ensures !(OccursAt(v, OPEN, j) && OccursAt(v, CLOSE, j))
  {
    if OccursAt(v, OPEN, j) {
      assert v[j + 1] == v[j..j + |OPEN|][1] == 's';
      assert v[j..j + |CLOSE|][1] != CLOSE[1];
    }
  }

  /** The text `t` from its offset `j` on appears in `v` at offset `p`,
      compared one character at a time. */
  predicate MatchesFrom(v: string, t: string, p: nat, j: nat)
    requires j <= |t|
    ensures MatchesFrom(v, t, p, j) ==> p + (|t| - j) <= |v|
    decreases |v| - p
  {
    p + (|t| - j) <= |v| && (j == |t| || (v[p] == t[j] && MatchesFrom(v, t, p + 1, j + 1)))
  }

  /** The text `t` appears in `v` at offset `p`. */
  predicate MatchesAt(v: string, t: string, p: nat)
    ensures MatchesAt(v, t, p) ==> p + |t| <= |v|
  {
    MatchesFrom(v, t, p, 0)
  }

  lemma {:induction false} MatchesFromIsOccurrence(v: string, t: string, p: nat, j: nat)
    requires j <= |t|
    ensures MatchesFrom(v, t, p, j) <==> (p + (|t| - j) <= |v| && v[p..p + (|t| - j)] == t[j..])
    decreases |t| - j
  {
    if j < |t| {
      MatchesFromIsOccurrence(v, t, p + 1, j + 1);
      if p + (|t| - j) <= |v| {
        assert v[p..p + (|t| - j)] == [v[p]] + v[p + 1..p + (|t| - j)];
        assert t[j..] == [t[j]] + t[j + 1..];
      }
    }
  }

  /** `MatchesAt` is an occurrence in the sense of `str.find`. */
  lemma MatchesAtIsOccurrence(v: string, t: string, p: nat)
    ensures MatchesAt(v, t, p) <==> OccursAt(v, t, p)
  {
    MatchesFromIsOccurrence(v, t, p, 0);
    assert t[0..] == t;
  }

  // ---------------------------------------------------------------------
  // Protected spans: TeXisms and highlighted runs, as explicit recognisers
  // of the regular expressions used by `_end_safely` and `TEXISM`.
  // ---------------------------------------------------------------------

  function Dollars(d: nat): string
    requires d == 1 || d == 2
  {
    if d == 1 then "$" else "$$"
  }

  /** The first `$` at or after offset `q`, or `|v|` when there is none. */
  function NextDollar(v: string, q: nat): (k: nat)
    requires q <= |v|
    ensures q <= k <= |v|
    ensures k < |v| ==> v[k] == '$'
    decreases |v| - q
  {
    if q == |v| || v[q] == '$' then q else NextDollar(v, q + 1)
  }

  /** No `$` comes between `q` and `NextDollar(v, q)`. */
  lemma {:induction false} NextDollarIsFirst(v: string, q: nat)
    requires q <= |v|
    ensures forall i :: q <= i < NextDollar(v, q) ==> v[i] != '$'
    decreases |v| - q
  {
    if q < |v| && v[q] != '$' {
      NextDollarIsFirst(v, q + 1);
    }
  }

  /** `[\$]{d}[^\$]+[\$]{d}` anchored at `p`: the end of the match, if any.
      The greedy run of non-dollars stops at the first `$` after the opening
      delimiter, so the match is unique. */
  function TexAt(v: string, p: nat, d: nat): (r: Option<nat>)
    requires d == 1 || d == 2
    requires p <= |v|
    ensures r.Some? ==> p + 2 * d < r.value <= |v|
    ensures r.Some? ==> MatchesAt(v, Dollars(d), p) && MatchesAt(v, Dollars(d), r.value - d)
  {
    if !MatchesAt(v, Dollars(d), p) then None
    else
      var k := NextDollar(v, p + d);
      if k > p + d && MatchesAt(v, Dollars(d), k) then Some(k + d) else None
  }

  /** Between its delimiters a TeXism holds no `$`, and a `$$` delimiter is
      never mistaken for two `$` TeXisms: the first `$` after the opening
      delimiter closes it. */
  lemma TexAtInside(v: string, p: nat, d: nat)
    requires d == 1 || d == 2
    requires p <= |v|
    ensures var r := TexAt(v, p, d);
      r.Some? ==> forall i :: p + d <= i < r.value - d ==> v[i] != '$'
  {
    if MatchesAt(v, Dollars(d), p) {
      NextDollarIsFirst(v, p + d);
    }
  }

  /** The TeXism pattern `TEXISM`: `$$…$$` tried before `$…$`. */
  function TexismAt(v: string, p: nat): (r: Option<nat>)
    requires p <= |v|
    ensures r.Some? ==> p < r.value <= |v|
  {
    var a := TexAt(v, p, 2);
    if a.Some? then a else TexAt(v, p, 1)
  }

  /** `OPEN [\$]{d}[^\$]+[\$]{d} CLOSE` anchored at `p`. */
  function EnclosedTexAt(v: string, p: nat, d: nat): (r: Option<nat>)
    requires d == 1 || d == 2
    requires p <= |v|
    ensures r.Some? ==> p < r.value <= |v|
    ensures r.Some? ==> |CLOSE| <= r.value && MatchesAt(v, OPEN, p) && MatchesAt(v, CLOSE, r.value - |CLOSE|)
  {
    if !MatchesAt(v, OPEN, p) then None
    else
      match TexAt(v, p + |OPEN|, d)
      case None => None
      case Some(e) => if MatchesAt(v, CLOSE, e) then Some(e + |CLOSE|) else None
  }

  /** The greatest `j` in `lo..hi` at which a close tag occurs. */
  function LastCloseIn(v: string, lo: nat, hi: nat): (r: Option<nat>)
    requires lo <= hi
    ensures r.Some? ==> lo <= r.value <= hi && MatchesAt(v, CLOSE, r.value)
    decreases hi
  {
    if MatchesAt(v, CLOSE, hi) then Some(hi)
    else if hi == lo then None
    else LastCloseIn(v, lo, hi - 1)
  }

  /** No close tag occurs after the one `LastCloseIn` finds, and none at all
      in the range when it finds none. */
  lemma {:induction false} LastCloseInIsLast(v: string, lo: nat, hi: nat)
    requires lo <= hi
    ensures var r := LastCloseIn(v, lo, hi);
      (r.Some? ==> forall j :: r.value < j <= hi ==> !MatchesAt(v, CLOSE, j))
      && (r.None? ==> forall j :: lo <= j <= hi ==> !MatchesAt(v, CLOSE, j))
    decreases hi
  {
    if !MatchesAt(v, CLOSE, hi) && hi != lo {
      LastCloseInIsLast(v, lo, hi - 1);
    }
  }

  /** `OPEN[^\$]+CLOSE` anchored at `p`. The greedy run backtracks from the
      first `$` (or the end), so the match ends at the last close tag that
      the dollar-free run reaches. */
  function TaggedRunAt(v: string, p: nat): (r: Option<nat>)
    requires p <= |v|
    ensures r.Some? ==> p < r.value <= |v|
    ensures r.Some? ==> |CLOSE| <= r.value && MatchesAt(v, OPEN, p) && MatchesAt(v, CLOSE, r.value - |CLOSE|)
  {
    if !MatchesAt(v, OPEN, p) then None
    else
      var q := p + |OPEN|;
      var k := NextDollar(v, q);
      if k <= q then None
      else
        match LastCloseIn(v, q + 1, k)
        case None => None
        case Some(j) => Some(j + |CLOSE|)
  }

  /** A highlighted run holds no `$` between its tags. */
  lemma TaggedRunAtInside(v: string, p: nat)
    requires p <= |v|
    ensures var r := TaggedRunAt(v, p);
      r.Some? ==> forall i :: p + |OPEN| <= i < r.value - |CLOSE| ==> v[i] != '$'
  {
    if MatchesAt(v, OPEN, p) {
      NextDollarIsFirst(v, p + |OPEN|);
    }
  }

  /** The `_end_safely` pattern anchored at `p`: its five alternatives in
      order, the first that matches deciding the match end. */
  function ProtectedAt(v: string, p: nat): (r: Option<nat>)
    requires p <= |v|
    ensures r.Some? ==> p < r.value <= |v|
  {
    var a1 := TexAt(v, p, 2);
    if a1.Some? then a1 else
    var a2 := TexAt(v, p, 1);
    if a2.Some? then a2 else
    var a3 := EnclosedTexAt(v, p, 2);
    if a3.Some? then a3 else
    var a4 := EnclosedTexAt(v, p, 1);
    if a4.Some? then a4 else
    TaggedRunAt(v, p)
  }

  /** `re.search` of the `_end_safely` pattern from offset `p`: the leftmost
      protected span as (start, end); see `FirstProtectedIsMatch` and
      `FirstProtectedIsLeftmost`. */
  function FirstProtected(v: string, p: nat): (r: Option<(nat, nat)>)
    requires p <= |v|
    ensures r.Some? ==> p <= r.value.0 < r.value.1 <= |v|
    decreases |v| - p
  {
    var here := ProtectedAt(v, p);
    if here.Some? then Some((p, here.value))
    else if p == |v| then None
    else FirstProtected(v, p + 1)
  }

  /** The span `FirstProtected` reports is a match. */
  lemma {:induction false} FirstProtectedIsMatch(v: string, p: nat)
    requires p <= |v|
    ensures var r := FirstProtected(v, p);
      r.Some? ==> ProtectedAt(v, r.value.0) == Some(r.value.1)
    decreases |v| - p
  {
    if ProtectedAt(v, p).None? && p < |v| {
      FirstProtectedIsMatch(v, p + 1);
    }
  }

  /** No match starts before the span `FirstProtected` reports; without a
      span, the pattern matches nowhere. */
  lemma {:induction false} FirstProtectedIsLeftmost(v: string, p: nat)
    requires p <= |v|
    ensures var r := FirstProtected(v, p);
      forall q :: p <= q <= |v| && (r.None? || q < r.value.0) ==> ProtectedAt(v, q).None?
    decreases |v| - p
  {
    var here := ProtectedAt(v, p);
    if here.None? && p < |v| {
      var r := FirstProtected(v, p + 1);
      assert FirstProtected(v, p) == r;
      FirstProtectedIsLeftmost(v, p + 1);
      forall q | p <= q <= |v| && (r.None? || q < r.value.0)
        ensures ProtectedAt(v, q).None?
      {
        if q == p {
          assert ProtectedAt(v, q) == here;
        }
      }
    }
  }

  /** `_end_safely(value[o:], remaining)`: how far past offset `o` a snippet
      may extend, given the ideal extent `remaining`; see `EndSafelyCases`.
      The source recurses on the slice `value[pe:]`; the pattern has no
      anchor, so searching that slice is searching `v` from `pe`, which is
      how the recursion is written here. */
  function EndSafely(v: string, o: nat, remaining: nat): (r: nat)
    requires o <= |v|
    ensures r <= remaining
    decreases remaining
  {
    match FirstProtected(v, o)
    case None => remaining
    case Some((ps, pe)) =>
      if remaining <= ps - o then remaining
      else if pe - o < remaining then (pe - o) + EndSafely(v, pe, remaining - (pe - o))
      else ps - o
  }

  /** `_end_safely` keeps the ideal end when no protected span starts before
      it; otherwise it skips past the first span when the ideal end lies
      beyond it, and else stops at the span's start. */
  lemma EndSafelyCases(v: string, o: nat, remaining: nat)
    requires o <= |v|
    ensures var r := EndSafely(v, o, remaining);
      match FirstProtected(v, o)
      case None => r == remaining
      case Some((ps, pe)) =>
        (remaining <= ps - o ==> r == remaining)
        && (ps - o < remaining <= pe - o ==> r == ps - o)
        && (pe - o < remaining ==> pe - o <= r)
  {
  }

  /** Extent `r` past `o` does not end strictly inside any of the protected
      spans found by scanning `v` from `o` left to right (as `re.finditer`
      would). */
  predicate CutIsSafe(v: string, o: nat, r: int)
    requires o <= |v|
    decreases |v| - o
  {
    match FirstProtected(v, o)
    case None => true
    case Some((ps, pe)) => r <= ps - o || (pe - o <= r && CutIsSafe(v, pe, r - (pe - o)))
  }

  /** The end `_end_safely` picks never splits a TeXism or a highlighted span. */
  lemma {:induction false} EndSafelyIsSafe(v: string, o: nat, remaining: nat)
    requires o <= |v|
    ensures CutIsSafe(v, o, EndSafely(v, o, remaining))
    decreases remaining
  {
    var fp := FirstProtected(v, o);
    if fp.Some? {
      var (ps, pe) := fp.value;
      if pe - o < remaining {
        EndSafelyIsSafe(v, pe, remaining - (pe - o));
      }
    }
  }

  // ---------------------------------------------------------------------
  // `_strip_highlight_and_enclose` and `_highlight_whole_texism`.
  // ---------------------------------------------------------------------

  predicate HasTag(t: string)
  {
    Contains(t, OPEN) || Contains(t, CLOSE)
  }

  /** A TeXism without highlight tags is returned as is; one with tags has
      them replaced away and is wrapped in a single open/close pair, the
      middle being strictly shorter than the TeXism. */
  function StripHighlightAndEnclose(t: string): (r: string)
    ensures !HasTag(t) ==> r == t
    ensures HasTag(t) ==> StartsWith(r, OPEN) && EndsWith(r, CLOSE)
    ensures HasTag(t) ==> |r| - |OPEN| - |CLOSE| < |t|
    ensures HasTag(t) ==> r == OPEN + Replace(Replace(t, OPEN, ""), CLOSE, "") + CLOSE
  {
    if !HasTag(t) then t
    else
      var m1 := Replace(t, OPEN, "");
      var m := Replace(m1, CLOSE, "");
      ReplaceByEmptyLength(t, OPEN);
      ReplaceByEmptyLength(m1, CLOSE);
      assert |m| < |t|;
      var r := OPEN + m + CLOSE;
      assert r[..|OPEN|] == OPEN;
      assert r[|r| - |CLOSE|..] == CLOSE;
      r
  }

  /** The closing tag and what follows hold no opening tag. */
  lemma NoOpenInCloseThen(c: string)
    requires '<' !in c
    ensures Replace(CLOSE + c, OPEN, "") == CLOSE + c
  {
    var y := CLOSE + c;
    assert y[0] == '<' && y[1..] == CLOSE[1..] + c;
    assert '<' !in CLOSE[1..] + c;
    ReplaceAbsent(CLOSE[1..] + c, OPEN, "");
    ReplaceStepOnTag(y);
  }

  /** At a `</` the opening tag cannot start. */
  lemma ReplaceStepOnTag(y: string)
    requires |y| >= 2 && y[0] == '<' && y[1] == '/'
    ensures Replace(y, OPEN, "") == [y[0]] + Replace(y[1..], OPEN, "")
  {
    if |y| >= |OPEN| {
      assert y[..|OPEN|][1] != OPEN[1];
    }
  }

  /** Removing the opening tags of `a<hit>b</hit>c`. */
  lemma RemoveOpenTag(a: string, b: string, c: string)
    requires '<' !in a && '<' !in b && '<' !in c
    ensures Replace(a + (OPEN + (b + (CLOSE + c))), OPEN, "") == a + (b + (CLOSE + c))
  {
    NoOpenInCloseThen(c);
    ReplaceRemovesOne(a, OPEN, b, CLOSE + c);
  }

  /** Removing the closing tags of `ab</hit>c`. */
  lemma RemoveCloseTag(ab: string, c: string)
    requires '<' !in ab && '<' !in c
    ensures Replace(ab + (CLOSE + c), CLOSE, "") == ab + c
  {
    ReplaceAbsent(c, CLOSE, "");
    ReplaceRemovesOne(ab, CLOSE, [], c);
    assert [] + c == c && ab + ([] + c) == ab + c;
  }

  /** A highlight inside a TeXism moves outside it: `a<hit>b</hit>c`, with
      no other tag, becomes `<hit>abc</hit>`. */
  lemma StripHighlightMovesTagsOut(a: string, b: string, c: string)
    requires '<' !in a && '<' !in b && '<' !in c
    ensures StripHighlightAndEnclose(a + OPEN + b + CLOSE + c) == OPEN + a + b + c + CLOSE
  {
    var t := a + OPEN + b + CLOSE + c;
    assert t == a + (OPEN + (b + (CLOSE + c)));
    assert OccursAt(t, OPEN, |a|);
    RemoveOpenTag(a, b, c);
    AppendAssoc(a, b, CLOSE + c);
    var m1 := Replace(t, OPEN, "");
    assert m1 == (a + b) + (CLOSE + c);
    RemoveCloseTag(a + b, c);
    var m := Replace(m1, CLOSE, "");
    assert m == a + b + c;
    AppendAssoc(OPEN, a, b);
    AppendAssoc(OPEN, a + b, c);
  }

  /** `re.sub(TEXISM, _strip_highlight_and_enclose, value)` from offset `p`:
      each leftmost TeXism is replaced and scanning resumes after it; any
      other character is copied. */
  function HighlightTexismsFrom(v: string, p: nat): string
    requires p <= |v|
    decreases |v| - p
  {
    if p == |v| then []
    else
      match TexismAt(v, p)
      case Some(e) => StripHighlightAndEnclose(v[p..e]) + HighlightTexismsFrom(v, e)
      case None => [v[p]] + HighlightTexismsFrom(v, p + 1)
  }

  /** `_highlight_whole_texism(value)`. */
  function HighlightWholeTexism(v: string): string
  {
    HighlightTexismsFrom(v, 0)
  }

  /** Text without highlight tags comes out of the substitution unchanged. */
  lemma {:induction false} HighlightTexismsFromWithoutTags(v: string, p: nat)
    requires p <= |v|
    requires !HasTag(v)
    ensures HighlightTexismsFrom(v, p) == v[p..]
    decreases |v| - p
  {
    if p < |v| {
      match TexismAt(v, p)
      case Some(e) =>
        ContainsSlice(v, OPEN, p, e);
        ContainsSlice(v, CLOSE, p, e);
        HighlightTexismsFromWithoutTags(v, e);
        SuffixSplit(v, p, e);
      case None =>
        HighlightTexismsFromWithoutTags(v, p + 1);
        SuffixSplit(v, p, p + 1);
        assert v[p..p + 1] == [v[p]];
    }
  }

  /** `_highlight_whole_texism` leaves text without highlight tags as is. */
  lemma HighlightWholeTexismWithoutTags(v: string)
    requires !HasTag(v)
    ensures HighlightWholeTexism(v) == v
  {
    HighlightTexismsFromWithoutTags(v, 0);
  }

  // ---------------------------------------------------------------------
  // `_escape`: HTML-escape everything outside the highlight tags.
  // ---------------------------------------------------------------------

  /** The two highlight tags. */
  datatype Tag = Open | Close

  function TagText(t: Tag): string
  {
    match t
    case Open => OPEN
    case Close => CLOSE
  }

  /** The first highlight tag at or after offset `i`, as (offset, tag),
      found by trying each offset in turn. */
  function NextTag(v: string, i: nat): (r: Option<(nat, Tag)>)
    requires i <= |v|
    ensures r.Some? ==> i <= r.value.0 && MatchesAt(v, TagText(r.value.1), r.value.0)
    decreases |v| - i
  {
    if MatchesAt(v, OPEN, i) then Some((i, Open))
    else if MatchesAt(v, CLOSE, i) then Some((i, Close))
    else if i == |v| then None
    else NextTag(v, i + 1)
  }

  /** No tag starts between `i` and the one `NextTag` finds, and none at all
      when it finds none. */
  lemma {:induction false} NextTagIsFirst(v: string, i: nat)
    requires i <= |v|
    ensures var r := NextTag(v, i);
      (r.Some? ==> forall j :: i <= j < r.value.0 ==> !MatchesAt(v, OPEN, j) && !MatchesAt(v, CLOSE, j))
      && (r.None? ==> forall j :: i <= j <= |v| ==> !MatchesAt(v, OPEN, j) && !MatchesAt(v, CLOSE, j))
    decreases |v| - i
  {
    if !MatchesAt(v, OPEN, i) && !MatchesAt(v, CLOSE, i) && i < |v| {
      NextTagIsFirst(v, i + 1);
    }
  }

  /** `value[i:].index(t) if t in value[i:] else None`: the offset, relative
      to `i`, of the first occurrence of `t` at or after `i`. */
  function FindFrom(v: string, i: nat, t: string): (r: Option<nat>)
    requires i <= |v|
    ensures r.Some? ==> MatchesAt(v, t, i + r.value)
    decreases |v| - i
  {
    if MatchesAt(v, t, i) then Some(0)
    else if i == |v| then None
    else Shift(FindFrom(v, i + 1, t), 1)
  }

  /** A text occurring at `i` is found by searching `value[i:]` at offset 0. */
  lemma FoundHere(v: string, t: string, i: nat)
    requires i <= |v|
    requires MatchesAt(v, t, i)
    ensures Find(v[i..], t) == Some(0)
  {
    MatchesAtIsOccurrence(v, t, i);
    OccursInSuffix(v, t, i, 0);
  }

  /** Searching `value[i:]` for a text that does not occur at `i` finds it
      one place further than searching `value[i+1:]`. */
  lemma FindPastMiss(v: string, t: string, i: nat)
    requires i < |v|
    requires !MatchesAt(v, t, i)
    ensures Find(v[i..], t) == Shift(Find(v[i + 1..], t), 1)
  {
    MatchesAtIsOccurrence(v, t, i);
    OccursInSuffix(v, t, i, 0);
    FindSkip(v[i..], t);
    assert v[i..][1..] == v[i + 1..];
  }

  /** Searching from offset `i` is `str.find` on the suffix `value[i:]`. */
  lemma {:induction false} FindFromIsFind(v: string, i: nat, t: string)
    requires i <= |v|
    ensures FindFrom(v, i, t) == Find(v[i..], t)
    decreases |v| - i
  {
    if MatchesAt(v, t, i) {
      FoundHere(v, t, i);
    } else if i == |v| {
      assert v[i..] == [];
    } else {
      FindFromIsFind(v, i + 1, t);
      FindPastMiss(v, t, i);
    }
  }

  /** `_escape`'s own way of finding the next tag: search `value[i:]` for
      each tag and take the earlier hit, as an offset into `value`. */
  function TagByFind(v: string, i: nat): Option<(nat, Tag)>
    requires i <= |v|
  {
    Earlier(i, FindFrom(v, i, OPEN), FindFrom(v, i, CLOSE))
  }

  /** The earlier of an open-tag hit `o` and a close-tag hit `c` in a text
      that starts at offset `i`, as (offset, tag); a tie, which
      `TagsNeverStartTogether` rules out, would go to the close tag. */
  function Earlier(i: nat, o: Option<nat>, c: Option<nat>): (r: Option<(nat, Tag)>)
    ensures r.None? <==> o.None? && c.None?
  {
    if o.None? && c.None? then None
    else if o.Some? && (c.None? || o.value < c.value) then Some((i + o.value, Open))
    else Some((i + c.value, Close))
  }

  /** A tag at `i` is what `_escape`'s searches find first. */
  lemma TagByFindHere(v: string, i: nat)
    requires i <= |v|
    requires MatchesAt(v, OPEN, i) || MatchesAt(v, CLOSE, i)
    ensures MatchesAt(v, OPEN, i) ==> TagByFind(v, i) == Some((i, Open))
    ensures !MatchesAt(v, OPEN, i) ==> TagByFind(v, i) == Some((i, Close))
  {
    MatchesAtIsOccurrence(v, OPEN, i);
    MatchesAtIsOccurrence(v, CLOSE, i);
    TagsNeverStartTogether(v, i);
  }

  /** Without a tag at `i`, the searches from `i` find what the searches
      from `i + 1` find. */
  lemma TagByFindSkip(v: string, i: nat)
    requires i < |v|
    requires !MatchesAt(v, OPEN, i) && !MatchesAt(v, CLOSE, i)
    ensures TagByFind(v, i) == TagByFind(v, i + 1)
  {
    EarlierShift(i, FindFrom(v, i + 1, OPEN), FindFrom(v, i + 1, CLOSE));
  }

  /** Hits one place further into a text one place earlier name the same
      offsets. */
  lemma EarlierShift(i: nat, o: Option<nat>, c: Option<nat>)
    ensures Earlier(i, Shift(o, 1), Shift(c, 1)) == Earlier(i + 1, o, c)
  {
  }

  /** The offset-by-offset scan finds the same tag as `_escape`'s searches. */
  lemma {:induction false} NextTagByFind(v: string, i: nat)
    requires i <= |v|
    ensures NextTag(v, i) == TagByFind(v, i)
    decreases |v| - i
  {
    if MatchesAt(v, OPEN, i) || MatchesAt(v, CLOSE, i) {
      TagByFindHere(v, i);
    } else if i < |v| {
      NextTagByFind(v, i + 1);
      TagByFindSkip(v, i);
    }
  }

  /** What `_escape` produces from offset `i`, with `esc` standing for the
      HTML `escape` function: the text before the next tag is escaped, the
      tag is kept, and the rest is treated the same way. */
  function EscapeFrom(v: string, i: nat, esc: string -> string): string
    requires i <= |v|
    decreases |v| - i
  {
    match NextTag(v, i)
    case None => esc(v[i..])
    case Some((k, t)) => esc(v[i..k]) + TagText(t) + EscapeFrom(v, k + |TagText(t)|, esc)
  }

  /** One step of `_escape`: the escaped text before the next tag, the tag,
      and the rest. */
  lemma EscapeStep(v: string, i: nat, esc: string -> string)
    requires i <= |v|
    requires NextTag(v, i).Some?
    ensures var (k, t) := NextTag(v, i).value;
      EscapeFrom(v, i, esc) == esc(v[i..k]) + TagText(t) + EscapeFrom(v, k + |TagText(t)|, esc)
  {
  }

  /** `_escape(value)`. */
  function EscapeOutside(v: string, esc: string -> string): string
  {
    EscapeFrom(v, 0, esc)
  }

  /** With an escape that changes nothing, `_escape` gives back its input:
      every tag is emitted verbatim and every piece of text in its place. */
  lemma {:induction false} EscapeFromIdentity(v: string, i: nat, esc: string -> string)
    requires i <= |v|
    requires forall s :: esc(s) == s
    ensures EscapeFrom(v, i, esc) == v[i..]
    decreases |v| - i
  {
    match NextTag(v, i)
    case None =>
    case Some((k, t)) =>
      var tag := TagText(t);
      EscapeFromIdentity(v, k + |tag|, esc);
      MatchesAtIsOccurrence(v, tag, k);
      SuffixAround(v, i, k, tag);
      EscapeStep(v, i, esc);
      assert esc(v[i..k]) == v[i..k];
  }

  /** `_escape` with an identity escape is the identity. */
  lemma EscapeOutsideIdentity(v: string, esc: string -> string)
    requires forall s :: esc(s) == s
    ensures EscapeOutside(v, esc) == v
  {
    EscapeFromIdentity(v, 0, esc);
  }

  /** Text with no highlight tags is escaped as a whole. */
  lemma EscapeOutsideWithoutTags(v: string, esc: string -> string)
    requires !HasTag(v)
    ensures EscapeOutside(v, esc) == esc(v)
  {
    assert v[0..] == v;
    NextTagByFind(v, 0);
    FindFromIsFind(v, 0, OPEN);
    FindFromIsFind(v, 0, CLOSE);
  }

  /** `_escape` as the loop it is: `i` advances past each tag found in
      `value[i:]`, and the escaped text and the tag are appended. The case
      of both tags at the same offset, where the source would not advance,
      cannot arise (`TagsNeverStartTogether`), so the close-tag branch
      covers every remaining case. */
  method Escape(value: string, esc: string -> string) returns (r: string)
    ensures r == EscapeOutside(value, esc)
  {
    var out := "";
    var i := 0;
    ghost var goal := EscapeOutside(value, esc);
    while true
      invariant 0 <= i <= |value|
      invariant out + EscapeFrom(value, i, esc) == goal
      decreases |value| - i
    {
      var sub, next := EscapePiece(value, i, esc);
      if next.None? {
        out := out + sub;
        break;
      }
      AppendAssoc(out, sub, EscapeFrom(value, next.value, esc));
      i := next.value;
      out := out + sub;
    }
    r := out;
  }

  /** One pass of the loop of `_escape` from offset `i`: the escaped text up
      to the next tag and the tag, with the offset just past the tag; or,
      with no tag left, the escaped rest and no offset. */
  method EscapePiece(value: string, i: nat, esc: string -> string) returns (sub: string, next: Option<nat>)
    requires i <= |value|
    ensures next.None? ==> sub == EscapeFrom(value, i, esc)
    ensures next.Some? ==> i < next.value <= |value|
                           && EscapeFrom(value, i, esc) == sub + EscapeFrom(value, next.value, esc)
  {
    var io := FindFrom(value, i, OPEN);
    var ic := FindFrom(value, i, CLOSE);
    NextTagByFind(value, i);
    if io.None? && ic.None? {
      return esc(value[i..]), None;
    }
    var tag, at;
    if io.Some? && (ic.None? || io.value < ic.value) {
      tag, at := Open, io.value;
    } else {
      tag, at := Close, ic.value;
    }
    assert NextTag(value, i) == Some((i + at, tag));
    EscapeStep(value, i, esc);
    sub := esc(value[i..i + at]) + TagText(tag);
    next := Some(i + at + |TagText(tag)|);
  }

  // ---------------------------------------------------------------------
  // `preview`
  // ---------------------------------------------------------------------

  /** Python's `round(x / 2)`: halves round to the even neighbour. */
  function RoundHalf(x: int): (r: int)
    ensures x <= 2 * r + 1 && 2 * r - 1 <= x
    ensures x % 2 == 0 ==> 2 * r == x
    ensures x % 2 == 1 ==> r % 2 == 0
  {
    if x % 2 == 0 then x / 2
    else if (x / 2) % 2 == 0 then x / 2
    else x / 2 + 1
  }

  /** Python's `value[i]` for `-len(value) <= i < len(value)`. */
  function Wrap(n: nat, i: int): (j: nat)
    requires 0 <= i + n && i < n
    ensures j < n
    ensures i >= 0 ==> j == i
  {
    if i < 0 then i + n else i
  }

  /** Python's `value[i:j]` for non-negative bounds: clamped. */
  function PySlice(v: string, i: nat, j: nat): (r: string)
    ensures |r| <= |v|
    ensures i <= j <= |v| ==> r == v[i..j]
    ensures j <= i || |v| <= i ==> r == []
  {
    if j <= i || |v| <= i then []
    else if j <= |v| then v[i..j]
    else v[i..]
  }

  /** The first loop of `preview`: from `s`, roll the start back while the
      distance to the open tag at `tag` is below `sfs` and the preceding
      character is neither `$` nor `>`. */
  function RollBack(v: string, tag: nat, sfs: int, s: nat): (r: nat)
    requires s <= tag < |v|
    ensures r <= s
    ensures r == s || tag - r <= sfs
    ensures r == 0 || tag - r >= sfs || IsStopper(v[r - 1])
    decreases s
  {
    if tag - s < sfs && s > 0 && !IsStopper(v[s - 1]) then RollBack(v, tag, sfs, s - 1)
    else s
  }

  /** The roll-back passes over no `$` or `>` and stays within `sfs` of the
      tag. */
  lemma {:induction false} RollBackPassesNoStopper(v: string, tag: nat, sfs: int, s: nat)
    requires s <= tag < |v|
    ensures var r := RollBack(v, tag, sfs, s);
      forall i :: r <= i < s ==> !IsStopper(v[i]) && tag - i - 1 < sfs
    decreases s
  {
    if tag - s < sfs && s > 0 && !IsStopper(v[s - 1]) {
      RollBackPassesNoStopper(v, tag, sfs, s - 1);
    }
  }

  /** The second loop of `preview`: move the start forward until it follows
      a word boundary. It stops by `tag + 1` at the latest, since the open
      tag begins with `<`. */
  function MoveToBoundary(v: string, tag: nat, t: nat): (r: nat)
    requires tag < |v| && v[tag] == '<'
    requires t <= tag + 1
    ensures t <= r <= tag + 1
    ensures r == 0 || IsBoundary(v[r - 1])
    ensures t < r ==> t > 0
    decreases tag + 1 - t
  {
    if t > 0 && !IsBoundary(v[t - 1]) then MoveToBoundary(v, tag, t + 1) else t
  }

  /** The start moves past no word boundary: it lands just after the first
      one at or after `t - 1`. */
  lemma {:induction false} MoveToBoundaryIsFirst(v: string, tag: nat, t: nat)
    requires tag < |v| && v[tag] == '<'
    requires t <= tag + 1
    ensures var r := MoveToBoundary(v, tag, t);
      forall i :: t <= i + 1 < r ==> !IsBoundary(v[i])
    decreases tag + 1 - t
  {
    if t > 0 && !IsBoundary(v[t - 1]) {
      MoveToBoundaryIsFirst(v, tag, t + 1);
    }
  }

  predicate HasBothTags(v: string)
  {
    Contains(v, OPEN) && Contains(v, CLOSE)
  }

  /** Offset of the first open tag. */
  function FirstOpen(value: string): (r: nat)
    requires Contains(value, OPEN)
    ensures r < |value| && value[r] == '<'
  {
    var tag := Find(value, OPEN).value;
    assert value[tag] == value[tag..tag + |OPEN|][0] == OPEN[0];
    tag
  }

  /** Offset just past the first close tag. */
  function FirstCloseEnd(value: string): (r: nat)
    requires Contains(value, CLOSE)
    ensures r <= |value|
  {
    Find(value, CLOSE).value + |CLOSE|
  }

  /** Where `value[i:]` starts: `i`, or the end of a shorter value. */
  function Clamp(i: nat, n: nat): (r: nat)
    ensures r <= n && (i <= n ==> r == i)
  {
    if i <= n then i else n
  }

  /** The window of a value whose first open tag is at `tag` and whose first
      close tag ends at `end0`. */
  function WindowAt(value: string, fragmentSize: int, tag: nat, end0: nat): (nat, nat)
    requires tag < |value| && value[tag] == '<'
    requires end0 <= |value|
  {
    var sfs := RoundHalf(fragmentSize - (end0 as int - tag));
    var start := MoveToBoundary(value, tag, RollBack(value, tag, sfs, tag));
    (start, end0 + EndSafely(value, end0, Remaining(fragmentSize, end0, start)))
  }

  /** What is left of the fragment size once the snippet spans `start` to
      `end0`. */
  function Remaining(fragmentSize: int, end0: nat, start: nat): nat
  {
    Max0(fragmentSize - (end0 as int - start))
  }

  /** The (start, end) window `preview` cuts from `value`. */
  function Window(value: string, fragmentSize: int): (nat, nat)
  {
    if HasBothTags(value) then WindowAt(value, fragmentSize, FirstOpen(value), FirstCloseEnd(value))
    else (0, 1 + EndSafely(value, Clamp(1, |value|), Max0(fragmentSize - 1)))
  }

  /** `WindowAt` with its start and end already computed, for `Preview`. */
  lemma WindowAtIs(value: string, fragmentSize: int, tag: nat, end0: nat, start: nat, end: nat)
    requires tag < |value| && value[tag] == '<'
    requires end0 <= |value|
    requires start == MoveToBoundary(value, tag, RollBack(value, tag, RoundHalf(fragmentSize - (end0 as int - tag)), tag))
    requires end == end0 + EndSafely(value, end0, Remaining(fragmentSize, end0, start))
    ensures WindowAt(value, fragmentSize, tag, end0) == (start, end)
  {
  }

  /** Without both tags the window starts at 0 and ends no further than
      the fragment size allows, never inside a TeXism or highlighted span. */
  lemma WindowWithoutTags(value: string, fragmentSize: int)
    requires !HasBothTags(value)
    ensures var w := Window(value, fragmentSize);
      w.0 == 0 && 1 <= w.1 <= 1 + Max0(fragmentSize - 1)
      && CutIsSafe(value, Clamp(1, |value|), w.1 - 1)
  {
    EndSafelyIsSafe(value, Clamp(1, |value|), Max0(fragmentSize - 1));
  }

  /** With both tags, the window starts within half the spare fragment size
      before the first open tag (and at most one past it), right after a
      word boundary or at 0; it ends after the first close tag, no further
      than the fragment size allows and never inside a TeXism or
      highlighted span. */
  lemma WindowAtProperties(value: string, fragmentSize: int, tag: nat, end0: nat)
    requires tag < |value| && value[tag] == '<'
    requires end0 <= |value|
    ensures var w := WindowAt(value, fragmentSize, tag, end0);
      tag - Max0(RoundHalf(fragmentSize - (end0 as int - tag))) <= w.0 <= tag + 1
      && (w.0 == 0 || IsBoundary(value[w.0 - 1]))
      && end0 <= w.1 <= end0 + Max0(fragmentSize - (end0 as int - w.0))
      && CutIsSafe(value, end0, w.1 - end0)
  {
    var sfs := RoundHalf(fragmentSize - (end0 as int - tag));
    var start := MoveToBoundary(value, tag, RollBack(value, tag, sfs, tag));
    EndSafelyIsSafe(value, end0, Max0(fragmentSize - (end0 as int - start)));
  }

  function Max0(x: int): nat
  {
    if x < 0 then 0 else x
  }

  /** The snippet with a close tag appended when its last open tag comes
      after its last close tag. */
  function CloseDangling(s: string): (r: string)
    ensures r == s || r == s + CLOSE
    ensures r == s + CLOSE <==> RFind(s, OPEN) > RFind(s, CLOSE)
    ensures RFind(r, OPEN) == -1 || RFind(r, OPEN) < RFind(r, CLOSE)
  {
    var lastOpen := RFind(s, OPEN);
    var lastClose := RFind(s, CLOSE);
    if lastOpen > lastClose && lastOpen >= 0 then
      var r := s + CLOSE;
      assert OccursAt(r, CLOSE, |s|);
      assert r != s;
      r
    else
      assert lastOpen != lastClose || lastOpen == -1 by {
        if lastOpen >= 0 {
          TagsNeverStartTogether(s, lastOpen);
        }
      }
      s
  }

  /** The preview text for the window (start, end) of `value`. */
  function Assemble(value: string, start: nat, end: nat): (r: string)
    ensures var body := CloseDangling(Strip(PySlice(value, start, end)));
      |r| == |body| + (if start > 0 then |HELLIP| else 0) + (if end < |value| then |HELLIP| else 0)
    ensures start > 0 ==> StartsWith(r, HELLIP)
    ensures end < |value| ==> EndsWith(r, HELLIP)
    ensures start == 0 && |value| <= end ==> r == CloseDangling(Strip(PySlice(value, start, end)))
  {
    var body := CloseDangling(Strip(PySlice(value, start, end)));
    var pre := if start > 0 then HELLIP else "";
    var post := if end < |value| then HELLIP else "";
    AppendAssoc(pre, body, post);
    ConcatEnds(pre, body + post);
    ConcatEnds(pre + body, post);
    pre + body + post
  }

  /** `preview(value, fragment_size)` as a value. */
  function PreviewOf(value: string, fragmentSize: int): string
  {
    var w := Window(value, fragmentSize);
    Assemble(value, w.0, w.1)
  }

  /** Whatever the window, the preview never leaves an open tag unclosed
      after the last close tag. */
  lemma PreviewClosesLastTag(value: string, fragmentSize: int)
    ensures var w := Window(value, fragmentSize);
      var body := CloseDangling(Strip(PySlice(value, w.0, w.1)));
      RFind(body, OPEN) == -1 || RFind(body, OPEN) < RFind(body, CLOSE)
  {
  }

  /** The two while loops of `preview` that place the start of a snippet
      around the first open tag at `tag`. `c` holds `value[start - 1]`, read
      with Python's wrap-around when the tag is at offset 0; the wrapped
      character is never consulted, since both loops first require a
      positive start. */
  method PlaceStart(value: string, tag: nat, sfs: int) returns (start: nat)
    requires tag < |value| && value[tag] == '<'
    ensures start == MoveToBoundary(value, tag, RollBack(value, tag, sfs, tag))
  {
    start := tag;
    var c := value[Wrap(|value|, start - 1)];
    var s: nat := start;
    while start - s < sfs && s > 0
      invariant s <= tag
      invariant RollBack(value, tag, sfs, s) == RollBack(value, tag, sfs, tag)
      invariant s > 0 ==> c == value[s - 1]
      decreases s
    {
      if IsStopper(c) {
        break;
      }
      s := s - 1;
      c := value[Wrap(|value|, s - 1)];
    }
    start := s;
    while !IsBoundary(c) && start > 0
      invariant s <= start <= tag + 1
      invariant start > 0 ==> c == value[start - 1]
      invariant MoveToBoundary(value, tag, start) == MoveToBoundary(value, tag, s)
      decreases tag + 1 - start
    {
      start := start + 1;
      c := value[start - 1];
    }
  }

  /** `preview`: the start placed by `PlaceStart` (or 0 without both tags),
      the end found by `_end_safely`, then the snippet. */
  method Preview(value: string, fragmentSize: int) returns (r: string)
    ensures r == PreviewOf(value, fragmentSize)
  {
    var start: nat;
    var end: nat;
    if Contains(value, OPEN) && Contains(value, CLOSE) {
      var tag := FirstOpen(value);
      start := tag;
      end := FirstCloseEnd(value);
      var sfs := RoundHalf(fragmentSize - (end as int - start));
      start := PlaceStart(value, tag, sfs);
      var remaining := Max0(fragmentSize - (end as int - start));
      ghost var end0 := end;
      end := end + EndSafely(value, end, remaining);
      WindowAtIs(value, fragmentSize, tag, end0, start, end);
      assert HasBothTags(value);
      assert Window(value, fragmentSize) == (start, end);
    } else {
      start := 0;
      end := 1;
      var remaining := Max0(fragmentSize - (end as int - start));
      end := end + EndSafely(value, Clamp(end, |value|), remaining);
      assert Window(value, fragmentSize) == (start, end);
    }
    r := Assemble(value, start, end);
  }

  // ---------------------------------------------------------------------
  // `add_highlighting`: routing a hit's highlights into the result.
  // ---------------------------------------------------------------------

  /** A highlight value as the index returns it. Both are iterable, so both
      are joined with `&hellip;`; a plain string is joined character by
      character. */
  datatype HighlightValue = Text(s: string) | Fragments(parts: seq<string>)

  /** A `match` entry: a flag, or the categories of matching inner hits. */
  datatype MatchValue = Flag(b: bool) | Categories(ids: seq<string>)

  /** The three dictionaries of a result that highlighting fills in. */
  datatype Dicts = Dicts(highlight: map<string, string>, matchInfo: map<string, MatchValue>,
                         preview: map<string, string>)

  function Chars(s: string): (r: seq<string>)
    ensures |r| == |s|
    ensures forall i :: 0 <= i < |s| ==> r[i] == [s[i]]
  {
    seq(|s|, i requires 0 <= i < |s| => [s[i]])
  }

  function Joined(v: HighlightValue): string
  {
    match v
    case Text(s) => Join(HELLIP, Chars(s))
    case Fragments(parts) => Join(HELLIP, parts)
  }

  predicate IsTextField(f: string)
  {
    f in ["title", "title.english", "abstract", "abstract.english"]
  }

  predicate IsAuthorField(f: string)
  {
    StartsWith(f, "author") || StartsWith(f, "owner") || StartsWith(f, "submitter")
  }

  /** The value stored for a highlighted field. */
  function FieldValue(f: string, v: HighlightValue, esc: string -> string): string
  {
    if IsTextField(f) then EscapeOutside(HighlightWholeTexism(Joined(v)), esc) else Joined(v)
  }

  /** One iteration of the loop over the highlighted fields. */
  function CopyOne(d: Dicts, f: string, v: HighlightValue, esc: string -> string): Dicts
  {
    if StartsWith(f, "_") then d
    else if IsAuthorField(f) then d.(matchInfo := d.matchInfo["author" := Flag(true)])
    else d.(highlight := d.highlight[f := FieldValue(f, v, esc)])
  }

  function CopyHighlights(d: Dicts, fields: seq<(string, HighlightValue)>, esc: string -> string): Dicts
  {
    if fields == [] then d
    else
      var last := fields[|fields| - 1];
      CopyOne(CopyHighlights(d, fields[..|fields| - 1], esc), last.0, last.1, esc)
  }

  /** One iteration of the loop over the matched query names. */
  function MarkOne(d: Dicts, f: string): Dicts
  {
    if f !in d.highlight then d.(matchInfo := d.matchInfo[f := Flag(true)]) else d
  }

  function MarkMatched(d: Dicts, matched: seq<string>): Dicts
  {
    if matched == [] then d
    else MarkOne(MarkMatched(d, matched[..|matched| - 1]), matched[|matched| - 1])
  }

  function InnerHits(d: Dicts, innerHits: Option<seq<string>>): Dicts
  {
    match innerHits
    case None => d
    case Some(ids) => d.(matchInfo := d.matchInfo["secondary_classification" := Categories(ids)])
  }

  function MarkAnnounced(d: Dicts, matched: seq<string>): Dicts
  {
    d.(matchInfo := d.matchInfo["announced_date_first" := Flag("announced_date_first" in matched)])
  }

  /** A `<field>.tex` highlight replaces `<field>` and is removed. */
  function PreferTex(h: map<string, string>, field: string): (r: map<string, string>)
    ensures field + ".tex" !in r
    ensures field + ".tex" in h ==> field in r && r[field] == h[field + ".tex"]
    ensures field + ".tex" !in h ==> r == h
    ensures forall k :: k != field && k != field + ".tex" ==> (k in r <==> k in h) && (k in h ==> r[k] == h[k])
  {
    var tex := field + ".tex";
    if tex in h then
      assert field != tex by { assert |tex| == |field| + 4; }
      h[field := h[tex]] - {tex}
    else h
  }

  /** The first of `names` present in `h`. */
  function FirstPresent(h: map<string, string>, names: seq<string>): (r: Option<string>)
    ensures r.Some? ==> r.value in h && r.value in names
    ensures r.Some? ==> exists i :: 0 <= i < |names| && names[i] == r.value && forall j :: 0 <= j < i ==> names[j] !in h
    ensures r.None? <==> forall i :: 0 <= i < |names| ==> names[i] !in h
  {
    if names == [] then None
    else if names[0] in h then Some(names[0])
    else
      var r := FirstPresent(h, names[1..]);
      assert forall i :: 1 <= i < |names| ==> names[i] == names[1..][i - 1];
      assert r.Some? ==> exists i :: 0 <= i < |names| && names[i] == r.value && forall j :: 0 <= j < i ==> names[j] !in h by {
        if r.Some? {
          var i :| 0 <= i < |names[1..]| && names[1..][i] == r.value && forall j :: 0 <= j < i ==> names[1..][j] !in h;
          assert names[i + 1] == r.value && forall j :: 0 <= j < i + 1 ==> names[j] !in h;
        }
      }
      r
  }

  const ABSTRACT_SOURCES: seq<string> := ["abstract.tex", "abstract.english", "abstract"]
  const TITLE_SOURCES: seq<string> := ["title.english", "title"]

  function AbstractPreview(d: Dicts, pv: string -> string): Dicts
  {
    match FirstPresent(d.highlight, ABSTRACT_SOURCES)
    case None => d
    case Some(f) =>
      var value := d.highlight[f];
      d.(preview := d.preview["abstract" := pv(value)],
         highlight := d.highlight["abstract" := value])
  }

  function TitleChoice(d: Dicts): Dicts
  {
    match FirstPresent(d.highlight, TITLE_SOURCES)
    case None => d
    case Some(f) => d.(highlight := d.highlight["title" := d.highlight[f]])
  }

  /** `preview(value)` with its default fragment size. */
  function DefaultPreview(value: string): string
  {
    PreviewOf(value, DEFAULT_FRAGMENT_SIZE)
  }

  /** Everything after the two loops of `add_highlighting`, with `pv`
      standing for the preview function. */
  function Finish(d: Dicts, matched: seq<string>, innerHits: Option<seq<string>>, pv: string -> string): Dicts
  {
    var d3 := MarkAnnounced(InnerHits(d, innerHits), matched);
    var h := PreferTex(PreferTex(d3.highlight, "abstract"), "title");
    TitleChoice(AbstractPreview(d3.(highlight := h), pv))
  }

  /** `add_highlighting` as a value. */
  function AddHighlightingSpec(d: Dicts, fields: seq<(string, HighlightValue)>, matched: seq<string>,
                               innerHits: Option<seq<string>>, esc: string -> string): Dicts
  {
    Finish(MarkMatched(CopyHighlights(d, fields, esc), matched), matched, innerHits, DefaultPreview)
  }

  /** The highlight, match and preview dictionaries of one search result. */
  class HighlightedResult {
    var highlight: map<string, string>
    var matchInfo: map<string, MatchValue>
    var preview: map<string, string>

    constructor ()
      ensures highlight == map[] && matchInfo == map[] && preview == map[]
    {
      highlight := map[];
      matchInfo := map[];
      preview := map[];
    }

    function State(): Dicts
      reads this
    {
      Dicts(highlight, matchInfo, preview)
    }

    /** `add_highlighting(result, raw)`: `fields` are the highlighted fields
        in the order `dir` lists them, `matched` the matched query names,
        `innerHits` the categories of the secondary-classification inner
        hits when there are any, and `esc` the HTML escape. */
    method AddHighlighting(fields: seq<(string, HighlightValue)>, matched: seq<string>,
                           innerHits: Option<seq<string>>, esc: string -> string)
      modifies this
      ensures State() == AddHighlightingSpec(old(State()), fields, matched, innerHits, esc)
    {
      ghost var d0 := State();
      for k := 0 to |fields|
        invariant State() == CopyHighlights(d0, fields[..k], esc)
      {
        assert fields[..k + 1][..k] == fields[..k];
        var (f, v) := fields[k];
        if StartsWith(f, "_") {
          continue;
        }
        var value := Joined(v);
        if IsTextField(f) {
          value := Escape(HighlightWholeTexism(value), esc);
        }
        if IsAuthorField(f) {
          matchInfo := matchInfo["author" := Flag(true)];
          continue;
        }
        highlight := highlight[f := value];
      }
      assert fields[..|fields|] == fields;
      ghost var d1 := State();
      for k := 0 to |matched|
        invariant State() == MarkMatched(d1, matched[..k])
      {
        assert matched[..k + 1][..k] == matched[..k];
        var f := matched[k];
        if f !in highlight {
          matchInfo := matchInfo[f := Flag(true)];
        }
      }
      assert matched[..|matched|] == matched;
      if innerHits.Some? {
        matchInfo := matchInfo["secondary_classification" := Categories(innerHits.value)];
      }
      matchInfo := matchInfo["announced_date_first" := Flag("announced_date_first" in matched)];
      highlight := PreferTex(highlight, "abstract");
      highlight := PreferTex(highlight, "title");
      var source := FirstPresent(highlight, ABSTRACT_SOURCES);
      if source.Some? {
        var value := highlight[source.value];
        var snippet := Preview(value, DEFAULT_FRAGMENT_SIZE);
        preview := preview["abstract" := snippet];
        highlight := highlight["abstract" := value];
      }
      source := FirstPresent(highlight, TITLE_SOURCES);
      if source.Some? {
        highlight := highlight["title" := highlight[source.value]];
      }
    }
  }

  // Properties of `add_highlighting`.

  /** The first of three names present in `h`. */
  lemma FirstPresentOfThree(h: map<string, string>, a: string, b: string, c: string)
    ensures FirstPresent(h, [a, b, c])
      == if a in h then Some(a) else if b in h then Some(b) else if c in h then Some(c) else None
  {
    assert [a, b, c][1..] == [b, c];
    FirstPresentOfTwo(h, b, c);
  }

  /** The first of two names present in `h`. */
  lemma FirstPresentOfTwo(h: map<string, string>, a: string, b: string)
    ensures FirstPresent(h, [a, b]) == if a in h then Some(a) else if b in h then Some(b) else None
  {
    assert [a, b][1..] == [b];
    assert [b][1..] == [];
  }

  /** The abstract entries once both TeX preferences have been applied. */
  lemma PreferBothTexAbstract(h: map<string, string>)
    ensures var h2 := PreferTex(PreferTex(h, "abstract"), "title");
      "abstract.tex" !in h2
      && ("abstract.english" in h2 <==> "abstract.english" in h)
      && ("abstract.english" in h ==> h2["abstract.english"] == h["abstract.english"])
      && ("abstract" in h2 <==> "abstract" in h || "abstract.tex" in h)
      && ("abstract.tex" in h ==> h2["abstract"] == h["abstract.tex"])
      && ("abstract.tex" !in h && "abstract" in h ==> h2["abstract"] == h["abstract"])
  {
    assert "abstract" + ".tex" == "abstract.tex";
    assert "title" + ".tex" == "title.tex";
  }

  /** The title entries once both TeX preferences have been applied. */
  lemma PreferBothTexTitle(h: map<string, string>)
    ensures var h2 := PreferTex(PreferTex(h, "abstract"), "title");
      "title.tex" !in h2
      && ("title.english" in h2 <==> "title.english" in h)
      && ("title.english" in h ==> h2["title.english"] == h["title.english"])
      && ("title" in h2 <==> "title" in h || "title.tex" in h)
      && ("title.tex" in h ==> h2["title"] == h["title.tex"])
      && ("title.tex" !in h && "title" in h ==> h2["title"] == h["title"])
  {
    assert "abstract" + ".tex" == "abstract.tex";
    assert "title" + ".tex" == "title.tex";
    var h1 := PreferTex(h, "abstract");
    assert "title.english" in h1 <==> "title.english" in h;
    assert "title" in h1 <==> "title" in h;
    assert "title.tex" in h1 <==> "title.tex" in h;
  }

  /** The abstract-preview step on highlights without `abstract.tex`: it
      previews `abstract.english` when present, else `abstract`, and
      touches only the `abstract` entries. */
  lemma AbstractPreviewFacts(d: Dicts, pv: string -> string)
    requires "abstract.tex" !in d.highlight
    ensures var r := AbstractPreview(d, pv);
      var h := d.highlight;
      r.matchInfo == d.matchInfo
      && ("abstract" in r.highlight ==> r.highlight == h["abstract" := r.highlight["abstract"]])
      && ("abstract" !in r.highlight ==> r.highlight == h)
      && ("abstract.english" in h ==>
         "abstract" in r.preview && r.preview["abstract"] == pv(h["abstract.english"])
         && "abstract" in r.highlight && r.highlight["abstract"] == h["abstract.english"])
      && ("abstract.english" !in h && "abstract" in h ==>
         "abstract" in r.preview && r.preview["abstract"] == pv(h["abstract"])
         && r.highlight == h)
      && ("abstract.english" !in h && "abstract" !in h ==> r == d)
  {
    FirstPresentOfThree(d.highlight, "abstract.tex", "abstract.english", "abstract");
  }

  /** The title step: `title.english` when present, else `title`; it
      touches only the `title` entry of `highlight`. */
  lemma TitleChoiceFacts(d: Dicts)
    ensures var r := TitleChoice(d);
      var h := d.highlight;
      r.matchInfo == d.matchInfo && r.preview == d.preview
      && ("title" in r.highlight ==> r.highlight == h["title" := r.highlight["title"]])
      && ("title" !in r.highlight ==> r.highlight == h)
      && ("title.english" in h ==> "title" in r.highlight && r.highlight["title"] == h["title.english"])
      && ("title.english" !in h && "title" in h ==> "title" in r.highlight && r.highlight["title"] == h["title"])
      && ("title.english" !in h && "title" !in h ==> "title" !in r.highlight)
  {
    FirstPresentOfTwo(d.highlight, "title.english", "title");
  }

  /** The state after the TeX preferences, before the abstract preview. */
  function Prepared(d: Dicts, matched: seq<string>, innerHits: Option<seq<string>>): Dicts
  {
    var d3 := MarkAnnounced(InnerHits(d, innerHits), matched);
    d3.(highlight := PreferTex(PreferTex(d3.highlight, "abstract"), "title"))
  }

  lemma FinishInStages(d: Dicts, matched: seq<string>, innerHits: Option<seq<string>>, pv: string -> string)
    ensures Finish(d, matched, innerHits, pv) == TitleChoice(AbstractPreview(Prepared(d, matched, innerHits), pv))
    ensures Prepared(d, matched, innerHits).highlight == PreferTex(PreferTex(d.highlight, "abstract"), "title")
    ensures Prepared(d, matched, innerHits).preview == d.preview
  {
  }

  /** After the two loops: the abstract's preview and highlight come from
      `abstract.english` when it is highlighted, else from the TeX abstract
      (moved onto `abstract` and deleted, so the `abstract.tex` entry of the
      source list never matches), else from `abstract`; with none of them
      the previews are left alone. */
  lemma FinishAbstract(d: Dicts, matched: seq<string>, innerHits: Option<seq<string>>, pv: string -> string)
    ensures var h := d.highlight;
      var r := Finish(d, matched, innerHits, pv);
      ("abstract.english" in h ==>
         "abstract" in r.preview && r.preview["abstract"] == pv(h["abstract.english"])
         && "abstract" in r.highlight && r.highlight["abstract"] == h["abstract.english"])
      && ("abstract.english" !in h && "abstract.tex" in h ==>
         "abstract" in r.preview && r.preview["abstract"] == pv(h["abstract.tex"])
         && "abstract" in r.highlight && r.highlight["abstract"] == h["abstract.tex"])
      && ("abstract.english" !in h && "abstract.tex" !in h && "abstract" in h ==>
         "abstract" in r.preview && r.preview["abstract"] == pv(h["abstract"])
         && "abstract" in r.highlight && r.highlight["abstract"] == h["abstract"])
      && ("abstract.english" !in h && "abstract.tex" !in h && "abstract" !in h ==> r.preview == d.preview)
  {
    FinishInStages(d, matched, innerHits, pv);
    var p := Prepared(d, matched, innerHits);
    var a := AbstractPreview(p, pv);
    assert TitleChoice(a).preview == a.preview
           && ("abstract" in a.highlight ==> "abstract" in TitleChoice(a).highlight
                                             && TitleChoice(a).highlight["abstract"] == a.highlight["abstract"]) by {
      TitleChoiceFacts(a);
    }
    PreferBothTexAbstract(d.highlight);
    AbstractPreviewFacts(p, pv);
  }

  /** After the two loops: the title highlight is `title.english` when that
      is highlighted, else the TeX title, else `title`. */
  lemma FinishTitle(d: Dicts, matched: seq<string>, innerHits: Option<seq<string>>, pv: string -> string)
    ensures var h := d.highlight;
      var r := Finish(d, matched, innerHits, pv);
      ("title.english" in h ==> "title" in r.highlight && r.highlight["title"] == h["title.english"])
      && ("title.english" !in h && "title.tex" in h ==> "title" in r.highlight && r.highlight["title"] == h["title.tex"])
      && ("title.english" !in h && "title.tex" !in h && "title" in h ==> "title" in r.highlight && r.highlight["title"] == h["title"])
      && ("title.english" !in h && "title.tex" !in h && "title" !in h ==> "title" !in r.highlight)
  {
    FinishInStages(d, matched, innerHits, pv);
    var p := Prepared(d, matched, innerHits);
    assert "abstract.tex" !in p.highlight by {
      PreferBothTexAbstract(d.highlight);
    }
    AbstractPreviewKeeps(p, pv, "title");
    AbstractPreviewKeeps(p, pv, "title.english");
    PreferBothTexTitle(d.highlight);
    TitleChoiceFacts(AbstractPreview(p, pv));
  }

  /** The abstract preview leaves every highlight but `abstract` alone. */
  lemma AbstractPreviewKeeps(d: Dicts, pv: string -> string, k: string)
    requires "abstract.tex" !in d.highlight && k != "abstract"
    ensures k in AbstractPreview(d, pv).highlight <==> k in d.highlight
    ensures k in d.highlight ==> AbstractPreview(d, pv).highlight[k] == d.highlight[k]
  {
    AbstractPreviewFacts(d, pv);
  }

  /** After the two loops: `match['announced_date_first']` records whether
      that name matched, no `.tex` highlight survives, and every other
      `match` entry is kept, except `secondary_classification` when there
      are inner hits. */
  lemma FinishMatches(d: Dicts, matched: seq<string>, innerHits: Option<seq<string>>, pv: string -> string, f: string)
    ensures var r := Finish(d, matched, innerHits, pv);
      "announced_date_first" in r.matchInfo
      && r.matchInfo["announced_date_first"] == Flag("announced_date_first" in matched)
      && "abstract.tex" !in r.highlight && "title.tex" !in r.highlight
    ensures var r := Finish(d, matched, innerHits, pv);
      f in d.matchInfo && f != "announced_date_first" && (innerHits.Some? ==> f != "secondary_classification")
      ==> f in r.matchInfo && r.matchInfo[f] == d.matchInfo[f]
  {
    FinishInStages(d, matched, innerHits, pv);
    var p := Prepared(d, matched, innerHits);
    assert "abstract.tex" !in p.highlight && "title.tex" !in p.highlight by {
      PreferBothTexAbstract(d.highlight);
      PreferBothTexTitle(d.highlight);
    }
    ChoicesKeep(p, pv);
  }

  /** The abstract preview and the title choice change no `match` entry and
      bring back no `.tex` highlight. */
  lemma ChoicesKeep(d: Dicts, pv: string -> string)
    requires "abstract.tex" !in d.highlight && "title.tex" !in d.highlight
    ensures TitleChoice(AbstractPreview(d, pv)).matchInfo == d.matchInfo
    ensures "abstract.tex" !in TitleChoice(AbstractPreview(d, pv)).highlight
    ensures "title.tex" !in TitleChoice(AbstractPreview(d, pv)).highlight
  {
    var a := AbstractPreview(d, pv);
    AbstractPreviewFacts(d, pv);
    TitleChoiceFacts(a);
  }

  /** A field named after an author, owner or submitter is never stored in
      `highlight` by the field loop. */
  lemma {:induction false} CopyHighlightsSkipsAuthors(d: Dicts, fields: seq<(string, HighlightValue)>,
                                                     esc: string -> string, f: string)
    requires IsAuthorField(f) || StartsWith(f, "_")
    ensures f in CopyHighlights(d, fields, esc).highlight <==> f in d.highlight
    ensures f in d.highlight ==> CopyHighlights(d, fields, esc).highlight[f] == d.highlight[f]
  {
    if fields != [] {
      CopyHighlightsSkipsAuthors(d, fields[..|fields| - 1], esc, f);
    }
  }

  /** Any author, owner or submitter field sets `match['author']`. */
  lemma {:induction false} CopyHighlightsFlagsAuthor(d: Dicts, fields: seq<(string, HighlightValue)>,
                                                    esc: string -> string, k: nat)
    requires k < |fields| && IsAuthorField(fields[k].0) && !StartsWith(fields[k].0, "_")
    ensures var r := CopyHighlights(d, fields, esc);
      "author" in r.matchInfo && r.matchInfo["author"] == Flag(true)
  {
    if k < |fields| - 1 {
      CopyHighlightsFlagsAuthor(d, fields[..|fields| - 1], esc, k);
    }
  }

  /** The matched-names loop only adds `True` flags, and only for names not
      in `highlight`; it leaves `highlight` alone. */
  lemma {:induction false} MarkMatchedFlags(d: Dicts, matched: seq<string>, f: string)
    ensures MarkMatched(d, matched).highlight == d.highlight
    ensures var r := MarkMatched(d, matched);
      f in matched && f !in d.highlight ==> f in r.matchInfo && r.matchInfo[f] == Flag(true)
    ensures f !in matched ==> (f in MarkMatched(d, matched).matchInfo <==> f in d.matchInfo)
    ensures var r := MarkMatched(d, matched);
      f !in matched && f in d.matchInfo ==> r.matchInfo[f] == d.matchInfo[f]
  {
    if matched != [] {
      var init := matched[..|matched| - 1];
      MarkMatchedFlags(d, init, f);
      if f in matched && f != matched[|matched| - 1] {
        var i :| 0 <= i < |matched| && matched[i] == f;
        assert init[i] == f;
      }
    }
  }

  /** After `add_highlighting`: `match['announced_date_first']` records
      whether that name matched; every other matched name absent from the
      highlights is flagged; and no `.tex` highlight survives. */
  lemma AddHighlightingMatches(d: Dicts, fields: seq<(string, HighlightValue)>, matched: seq<string>,
                               innerHits: Option<seq<string>>, esc: string -> string, f: string)
    ensures var r := AddHighlightingSpec(d, fields, matched, innerHits, esc);
      "announced_date_first" in r.matchInfo
      && r.matchInfo["announced_date_first"] == Flag("announced_date_first" in matched)
      && "abstract.tex" !in r.highlight && "title.tex" !in r.highlight
    ensures var d1 := CopyHighlights(d, fields, esc);
      var r := AddHighlightingSpec(d, fields, matched, innerHits, esc);
      f in matched && f !in d1.highlight && f != "announced_date_first"
      && (innerHits.Some? ==> f != "secondary_classification")
      ==> f in r.matchInfo && r.matchInfo[f] == Flag(true)
  {
    var d1 := CopyHighlights(d, fields, esc);
    var d2 := MarkMatched(d1, matched);
    MarkMatchedFlags(d1, matched, f);
    FinishMatches(d2, matched, innerHits, DefaultPreview, f);
  }

  /** The title highlight after `add_highlighting`: an English-stemmed title
      highlight wins over a TeX one, which wins over the plain one. */
  lemma AddHighlightingTitle(d: Dicts, fields: seq<(string, HighlightValue)>, matched: seq<string>,
                             innerHits: Option<seq<string>>, esc: string -> string)
    ensures var h := CopyHighlights(d, fields, esc).highlight;
      var r := AddHighlightingSpec(d, fields, matched, innerHits, esc);
      ("title.english" in h ==> "title" in r.highlight && r.highlight["title"] == h["title.english"])
      && ("title.english" !in h && "title.tex" in h ==> "title" in r.highlight && r.highlight["title"] == h["title.tex"])
  {
    var d1 := CopyHighlights(d, fields, esc);
    var d2 := MarkMatched(d1, matched);
    MarkMatchedFlags(d1, matched, "");
    FinishTitle(d2, matched, innerHits, DefaultPreview);
  }

  /** The abstract preview after `add_highlighting`: `preview` of the
      English-stemmed abstract highlight when there is one, else of the TeX
      abstract highlight, else of the plain one. */
  lemma AddHighlightingPreview(d: Dicts, fields: seq<(string, HighlightValue)>, matched: seq<string>,
                               innerHits: Option<seq<string>>, esc: string -> string)
    ensures var h := CopyHighlights(d, fields, esc).highlight;
      var r := AddHighlightingSpec(d, fields, matched, innerHits, esc);
      ("abstract.english" in h ==>
         "abstract" in r.preview && r.preview["abstract"] == PreviewOf(h["abstract.english"], DEFAULT_FRAGMENT_SIZE))
      && ("abstract.english" !in h && "abstract.tex" in h ==>
         "abstract" in r.preview && r.preview["abstract"] == PreviewOf(h["abstract.tex"], DEFAULT_FRAGMENT_SIZE))
      && ("abstract.english" !in h && "abstract.tex" !in h && "abstract" in h ==>
         "abstract" in r.preview && r.preview["abstract"] == PreviewOf(h["abstract"], DEFAULT_FRAGMENT_SIZE))
  {
    var d1 := CopyHighlights(d, fields, esc);
    var d2 := MarkMatched(d1, matched);
    MarkMatchedFlags(d1, matched, "");
    FinishAbstract(d2, matched, innerHits, DefaultPreview);
  }
}
