/** Python's `str` operations the search service relies on, stated over
    `seq<char>`: whitespace (`str.isspace`), `strip`, `split`, `join`,
    substring search, `replace` and `count`. */
module Strings {
  import opened Wrappers

  /** `str.isspace()` for one character: the characters Python treats as
      whitespace, which are also the ones the `\s` regex class matches. */
  predicate IsSpace(c: char)
  {
    c == ' ' || ('\t' <= c <= '\r') || ('\U{1C}' <= c <= '\U{1F}')
    || c == '\U{85}' || c == '\U{A0}' || c == '\U{1680}'
    || ('\U{2000}' <= c <= '\U{200A}') || c == '\U{2028}' || c == '\U{2029}'
    || c == '\U{202F}' || c == '\U{205F}' || c == '\U{3000}'
  }

  predicate NoSpace(s: string)
  {
    forall i :: 0 <= i < |s| ==> !IsSpace(s[i])
  }

  predicate IsDigit(c: char) { '0' <= c <= '9' }

  predicate IsAsciiLetter(c: char) { ('a' <= c <= 'z') || ('A' <= c <= 'Z') }

  predicate AllDigits(s: string)
  {
    forall i :: 0 <= i < |s| ==> IsDigit(s[i])
  }

  predicate StartsWith(s: string, p: string)
  {
    |p| <= |s| && s[..|p|] == p
  }

  predicate EndsWith(s: string, p: string)
  {
    |p| <= |s| && s[|s| - |p|..] == p
  }

  /** `sub` occurs in `s` at offset `i`. */
  predicate OccursAt(s: string, sub: string, i: int)
  {
    0 <= i && i + |sub| <= |s| && s[i..i + |sub|] == sub
  }

  /** `str.find`: the least offset at which `sub` occurs, if any. */
  function Find(s: string, sub: string): (r: Option<nat>)
    ensures r.Some? ==> OccursAt(s, sub, r.value)
    ensures r.Some? ==> forall j :: 0 <= j < r.value ==> !OccursAt(s, sub, j)
    ensures r.None? ==> forall j :: !OccursAt(s, sub, j)
    decreases |s|
  {
    if |sub| > |s| then None
    else if s[..|sub|] == sub then Some(0)
    else
      match Find(s[1..], sub)
      case None =>
        assert forall j :: OccursAt(s, sub, j) && j > 0 ==> OccursAt(s[1..], sub, j - 1);
        None
      case Some(k) =>
        assert forall j :: 0 < j <= k ==> (OccursAt(s, sub, j) ==> OccursAt(s[1..], sub, j - 1));
        Some(k + 1)
  }

  /** An optional offset moved `d` places to the right. */
  function Shift(o: Option<nat>, d: nat): (r: Option<nat>)
    ensures r.Some? <==> o.Some?
    ensures r.Some? ==> r.value == o.value + d
  {
    if o.Some? then Some(o.value + d) else None
  }

  /** When `sub` does not start `s`, searching `s` is searching its tail,
      one place further on. */
  lemma FindSkip(s: string, sub: string)
    requires |s| > 0 && !OccursAt(s, sub, 0)
    ensures Find(s, sub) == Shift(Find(s[1..], sub), 1)
  {
    if |sub| <= |s| {
      assert s[..|sub|] == s[0..|sub|];
    }
  }

  /** Python's `sub in s`. */
  predicate Contains(s: string, sub: string)
  {
    Find(s, sub).Some?
  }

  /** `str.rfind`: the greatest offset at which `sub` occurs, or -1. */
  function RFind(s: string, sub: string): (r: int)
    ensures -1 <= r
    ensures r >= 0 ==> OccursAt(s, sub, r)
    ensures forall j :: r < j ==> !OccursAt(s, sub, j)
    decreases |s|
  {
    if |sub| > |s| then -1
    else if s[|s| - |sub|..] == sub then |s| - |sub|
    else
      var r := RFind(s[..|s| - 1], sub);
      NoLaterOccurrence(s, sub, r, s[..|s| - 1]);
      r
  }

  /** When `sub` is not a suffix of `s`, an occurrence in `s` after `r` would
      be one in `s` without its last character. */
  lemma NoLaterOccurrence(s: string, sub: string, r: int, init: string)
    requires |sub| <= |s| && s != [] && s[|s| - |sub|..] != sub && init == s[..|s| - 1]
    requires forall j :: r < j ==> !OccursAt(init, sub, j)
    ensures forall j :: r < j ==> !OccursAt(s, sub, j)
  {
    forall j | r < j
      ensures !OccursAt(s, sub, j)
    {
      if j + |sub| == |s| {
        assert s[j..j + |sub|] == s[|s| - |sub|..];
      } else if 0 <= j && j + |sub| < |s| {
        assert init[j..j + |sub|] == s[j..j + |sub|];
        assert !OccursAt(init, sub, j);
      }
    }
  }

  /** `str.lstrip()`: drops the leading whitespace. */
  function LStrip(s: string): (r: string)
    ensures |r| <= |s| && r == s[|s| - |r|..]
    ensures r == [] || !IsSpace(r[0])
    ensures forall i :: 0 <= i < |s| - |r| ==> IsSpace(s[i])
    decreases |s|
  {
    if s != [] && IsSpace(s[0]) then LStrip(s[1..]) else s
  }

  /** `str.rstrip()`: drops the trailing whitespace. */
  function RStrip(s: string): (r: string)
    ensures |r| <= |s| && r == s[..|r|]
    ensures r == [] || !IsSpace(r[|r| - 1])
    ensures forall i :: |r| <= i < |s| ==> IsSpace(s[i])
    decreases |s|
  {
    if s != [] && IsSpace(s[|s| - 1]) then RStrip(s[..|s| - 1]) else s
  }

  /** `str.strip()`. */
  function Strip(s: string): (r: string)
    ensures |r| <= |s|
    ensures r == [] || (!IsSpace(r[0]) && !IsSpace(r[|r| - 1]))
    ensures r == [] <==> forall i :: 0 <= i < |s| ==> IsSpace(s[i])
    ensures s == [] || (!IsSpace(s[0]) && !IsSpace(s[|s| - 1])) ==> r == s
  {
    var l := LStrip(s);
    var r := RStrip(l);
    StripAllSpace(s);
    assert r != [] ==> r[0] == s[|s| - |l|];
    r
  }

  /** Stripping leaves nothing exactly when every character is whitespace. */
  lemma StripAllSpace(s: string)
    ensures RStrip(LStrip(s)) == [] <==> forall i :: 0 <= i < |s| ==> IsSpace(s[i])
  {
  }

  /** `str.rstrip(c)` with a one-character argument. */
  function RStripChar(s: string, c: char): (r: string)
    ensures |r| <= |s| && r == s[..|r|]
    ensures r == [] || r[|r| - 1] != c
    ensures forall i :: |r| <= i < |s| ==> s[i] == c
    decreases |s|
  {
    if s != [] && s[|s| - 1] == c then RStripChar(s[..|s| - 1], c) else s
  }

  /** Length of the leading run of non-whitespace characters. */
  function WordLen(s: string): (n: nat)
    ensures n <= |s| && NoSpace(s[..n])
    ensures n == |s| || IsSpace(s[n])
    decreases |s|
  {
    if s == [] || IsSpace(s[0]) then 0 else 1 + WordLen(s[1..])
  }

  /** Non-empty words without whitespace, as `str.split()` produces them. */
  predicate Words(parts: seq<string>)
  {
    forall i :: 0 <= i < |parts| ==> parts[i] != [] && NoSpace(parts[i])
  }

  /** `str.split()` without arguments: the maximal runs of non-whitespace. */
  function SplitWs(s: string): (parts: seq<string>)
    ensures Words(parts)
    decreases |s|
  {
    var t := LStrip(s);
    if t == [] then []
    else
      var w := WordLen(t);
      var rest := SplitWs(t[w..]);
      var word := t[..w];
      assert word != [] && NoSpace(word);
      WordsCons(word, rest);
      [word] + rest
  }

  lemma WordsCons(w: string, rest: seq<string>)
    requires w != [] && NoSpace(w) && Words(rest)
    ensures Words([w] + rest)
  {
    var ps := [w] + rest;
    forall i | 0 <= i < |ps|
      ensures ps[i] != [] && NoSpace(ps[i])
    {
      if i > 0 {
        assert ps[i] == rest[i - 1];
      }
    }
  }

  /** Index of the first `c` in `s`, or `|s|` when there is none. */
  function IndexOf(s: string, c: char): (i: nat)
    ensures i <= |s| && c !in s[..i]
    ensures i < |s| ==> s[i] == c
    ensures i == |s| <==> c !in s
    decreases |s|
  {
    if s == [] then 0
    else if s[0] == c then 0
    else
      var k := IndexOf(s[1..], c);
      assert s[..k + 1] == [s[0]] + s[1..][..k];
      k + 1
  }

  /** `str.split(sep)` for a one-character separator. */
  function Split(s: string, sep: char): (parts: seq<string>)
    ensures |parts| >= 1
    ensures forall i :: 0 <= i < |parts| ==> sep !in parts[i]
    decreases |s|
  {
    var i := IndexOf(s, sep);
    if i == |s| then [s]
    else [s[..i]] + Split(s[i + 1..], sep)
  }

  /** `sep.join(parts)`. */
  function Join(sep: string, parts: seq<string>): string
  {
    if |parts| == 0 then ""
    else if |parts| == 1 then parts[0]
    else parts[0] + sep + Join(sep, parts[1..])
  }

  /** Splitting on a character and joining with it again gives the input back. */
  lemma {:induction false} JoinSplit(s: string, sep: char)
    ensures Join([sep], Split(s, sep)) == s
    decreases |s|
  {
    var i := IndexOf(s, sep);
    if i < |s| {
      JoinSplit(s[i + 1..], sep);
      var rest := Split(s[i + 1..], sep);
      assert Split(s, sep) == [s[..i]] + rest;
      SliceAround(s, i);
    }
  }

  /** A string is the text before position `i`, the character there and the
      text after. */
  lemma SliceAround(s: string, i: nat)
    requires i < |s|
    ensures s == s[..i] + [s[i]] + s[i + 1..]
  {
    assert s[..i] + [s[i]] == s[..i + 1];
  }

  /** Splitting a string with no separator in it gives the string alone. */
  lemma SplitNone(s: string, sep: char)
    requires sep !in s
    ensures Split(s, sep) == [s]
  {
  }

  /** The first separator ends the first part. */
  lemma SplitAfter(a: string, sep: char, b: string)
    requires sep !in a
    ensures Split(a + [sep] + b, sep) == [a] + Split(b, sep)
  {
    var s := a + [sep] + b;
    var i := IndexOf(s, sep);
    assert s[..|a|] == a;
    assert forall k :: 0 <= k < |a| ==> s[k] == a[k] && a[k] != sep;
    assert s[|a|] == sep;
    assert i == |a|;
    assert s[|a| + 1..] == b;
  }

  /** Joining parts that do not contain the separator and splitting again
      gives the parts back. */
  lemma {:induction false} SplitJoin(parts: seq<string>, sep: char)
    requires |parts| >= 1
    requires forall i :: 0 <= i < |parts| ==> sep !in parts[i]
    ensures Split(Join([sep], parts), sep) == parts
    decreases |parts|
  {
    if |parts| == 1 {
      SplitNone(parts[0], sep);
    } else {
      var rest := Join([sep], parts[1..]);
      assert Join([sep], parts) == parts[0] + [sep] + rest;
      assert [parts[0]] + parts[1..] == parts;
      assert sep !in parts[0];
      SplitJoin(parts[1..], sep);
      SplitAfter(parts[0], sep, rest);
    }
  }

  /** Joining one more part appends the separator and the part. */
  lemma {:induction false} JoinSnoc(sep: string, parts: seq<string>, p: string)
    ensures Join(sep, parts + [p]) == if parts == [] then p else Join(sep, parts) + sep + p
    decreases |parts|
  {
    if |parts| > 1 {
      JoinSnoc(sep, parts[1..], p);
      assert (parts + [p])[1..] == parts[1..] + [p];
    } else if |parts| == 1 {
      assert (parts + [p])[1..] == [p];
    }
  }

  /** Joining a part in front of a non-empty list puts the separator
      between them. */
  lemma JoinCons(sep: string, p: string, rest: seq<string>)
    requires rest != []
    ensures Join(sep, [p] + rest) == p + sep + Join(sep, rest)
  {
    assert ([p] + rest)[1..] == rest;
  }

  /** A join whose first part is not empty is not empty. */
  lemma JoinNonEmpty(sep: string, parts: seq<string>)
    requires parts != [] && parts[0] != ""
    ensures Join(sep, parts) != ""
  {
  }

  /** A character found neither in the parts nor in the separator is not
      in their join. */
  lemma {:induction false} JoinAvoids(sep: string, parts: seq<string>, c: char)
    requires c !in sep
    requires forall i :: 0 <= i < |parts| ==> c !in parts[i]
    ensures c !in Join(sep, parts)
    decreases |parts|
  {
    if |parts| > 1 {
      JoinAvoids(sep, parts[1..], c);
    }
  }

  /** `str.replace(pat, rep)` for a non-empty `pat`: leftmost, non-overlapping. */
  function Replace(s: string, pat: string, rep: string): (r: string)
    requires pat != []
    ensures !Contains(s, pat) ==> r == s
    decreases |s|
  {
    if |s| < |pat| then s
    else if s[..|pat|] == pat then rep + Replace(s[|pat|..], pat, rep)
    else
      var r := [s[0]] + Replace(s[1..], pat, rep);
      assert !Contains(s, pat) ==> !Contains(s[1..], pat) by {
        if Contains(s[1..], pat) {
          var k := Find(s[1..], pat).value;
          assert OccursAt(s, pat, k + 1);
        }
      }
      r
  }

  /** A first character that cannot start the pattern is copied. */
  lemma ReplaceStep(s: string, pat: string, rep: string)
    requires pat != [] && s != [] && s[0] != pat[0]
    ensures Replace(s, pat, rep) == [s[0]] + Replace(s[1..], pat, rep)
  {
    if |s| >= |pat| {
      assert s[..|pat|][0] != pat[0];
    }
  }

  /** A prefix that cannot start the pattern is copied as is. */
  lemma {:induction false} ReplaceSkip(x: string, y: string, pat: string, rep: string)
    requires pat != [] && pat[0] !in x
    ensures Replace(x + y, pat, rep) == x + Replace(y, pat, rep)
    decreases |x|
  {
    if x == [] {
      assert x + y == y;
    } else {
      var s := x + y;
      assert s[0] == x[0] && s[1..] == x[1..] + y;
      ReplaceStep(s, pat, rep);
      ReplaceSkip(x[1..], y, pat, rep);
      AppendAssoc([x[0]], x[1..], Replace(y, pat, rep));
      assert [x[0]] + x[1..] == x;
    }
  }

  /** Removing the one occurrence of `pat` in `a + pat + b + z`, where
      neither `a` nor `b` can start it and `z` is left alone. */
  lemma ReplaceRemovesOne(a: string, pat: string, b: string, z: string)
    requires pat != [] && pat[0] !in a && pat[0] !in b
    requires Replace(z, pat, "") == z
    ensures Replace(a + (pat + (b + z)), pat, "") == a + (b + z)
  {
    ReplaceSkip(a, pat + (b + z), pat, "");
    ReplaceFront(pat, b + z, "");
    ReplaceSkip(b, z, pat, "");
    assert "" + (b + z) == b + z;
  }

  /** A string without the pattern's first character is left unchanged. */
  lemma ReplaceAbsent(y: string, pat: string, rep: string)
    requires pat != [] && pat[0] !in y
    ensures Replace(y, pat, rep) == y
  {
    ReplaceSkip(y, [], pat, rep);
    assert y + [] == y;
  }

  /** An occurrence at the front is replaced and the rest is scanned on. */
  lemma ReplaceFront(pat: string, y: string, rep: string)
    requires pat != []
    ensures Replace(pat + y, pat, rep) == rep + Replace(y, pat, rep)
  {
    assert (pat + y)[..|pat|] == pat;
    assert (pat + y)[|pat|..] == y;
  }

  /** Every `c` in `s` replaced by `rep`. */
  function ReplaceChar(s: string, c: char, rep: string): (r: string)
    ensures c !in s ==> r == s
  {
    if s == [] then [] else (if s[0] == c then rep else [s[0]]) + ReplaceChar(s[1..], c, rep)
  }

  lemma {:induction false} ReplaceCharConcat(a: string, b: string, c: char, rep: string)
    ensures ReplaceChar(a + b, c, rep) == ReplaceChar(a, c, rep) + ReplaceChar(b, c, rep)
    decreases |a|
  {
    if a != [] {
      assert (a + b)[1..] == a[1..] + b;
      ReplaceCharConcat(a[1..], b, c, rep);
    } else {
      assert a + b == b;
    }
  }

  /** With a one-character pattern, `str.replace` is character-wise substitution. */
  lemma {:induction false} ReplaceOneChar(s: string, c: char, rep: string)
    ensures Replace(s, [c], rep) == ReplaceChar(s, c, rep)
    decreases |s|
  {
    if s != [] {
      ReplaceOneChar(s[1..], c, rep);
      assert s[..1] == [s[0]];
      if s[0] == c {
        assert Replace(s, [c], rep) == rep + Replace(s[1..], [c], rep);
      } else {
        assert Replace(s, [c], rep) == [s[0]] + Replace(s[1..], [c], rep);
      }
    }
  }

  /** Splitting on whitespace undoes joining non-empty, space-free words with
      single spaces. */
  lemma {:induction false} SplitWsJoin(parts: seq<string>)
    requires Words(parts)
    ensures SplitWs(Join(" ", parts)) == parts
    decreases |parts|
  {
    if |parts| == 1 {
      SplitWsWord(parts[0], []);
      assert parts[0] + [] == parts[0];
    } else if |parts| > 1 {
      var p, tail := parts[0], parts[1..];
      var rest := Join(" ", tail);
      assert Join(" ", parts) == p + (" " + rest);
      assert [p] + tail == parts;
      assert p != [] && NoSpace(p);
      assert Words(tail);
      JoinStartsWithWord(tail);
      SplitWsJoin(tail);
      SplitWsJoinStep(p, rest);
    }
  }

  /** The inductive step of `SplitWsJoin`: a word, one space, then text that
      starts with a word. */
  lemma SplitWsJoinStep(p: string, rest: string)
    requires p != [] && NoSpace(p)
    requires rest != [] && !IsSpace(rest[0])
    ensures SplitWs(p + (" " + rest)) == [p] + SplitWs(rest)
  {
    SplitWsWord(p, " " + rest);
    SplitWsSpace(rest);
  }

  /** Leading whitespace does not change the words. */
  lemma SplitWsDropSpace(s: string)
    requires s != [] && IsSpace(s[0])
    ensures SplitWs(s) == SplitWs(s[1..])
  {
    assert LStrip(s) == LStrip(s[1..]);
  }

  /** A single word splits into itself. */
  lemma SplitWsOneWord(w: string)
    requires w != [] && NoSpace(w)
    ensures SplitWs(w) == [w]
  {
    SplitWsWord(w, []);
    assert w + [] == w;
    assert LStrip([]) == [];
  }

  /** One space in front of a string that does not start with whitespace
      changes nothing for `split()`. */
  lemma SplitWsSpace(rest: string)
    requires rest == [] || !IsSpace(rest[0])
    ensures SplitWs(" " + rest) == SplitWs(rest)
  {
    LStripSpaceThenWord(rest);
  }

  /** A word followed by nothing or by whitespace is the first part. */
  lemma SplitWsWord(p: string, tail: string)
    requires p != [] && NoSpace(p)
    requires tail == [] || IsSpace(tail[0])
    ensures SplitWs(p + tail) == [p] + SplitWs(tail)
  {
    var t := p + tail;
    assert t[0] == p[0];
    assert LStrip(t) == t;
    WordLenOfWord(p, tail);
    assert t[..|p|] == p;
    assert t[|p|..] == tail;
  }

  lemma JoinStartsWithWord(parts: seq<string>)
    requires Words(parts)
    ensures Join(" ", parts) == [] <==> parts == []
    ensures parts != [] ==> Join(" ", parts)[0] == parts[0][0]
  {
  }

  lemma LStripIdempotent(s: string)
    ensures LStrip(LStrip(s)) == LStrip(s)
  {
  }

  /** `split()` ignores leading whitespace. */
  lemma SplitWsLStrip(s: string)
    ensures SplitWs(s) == SplitWs(LStrip(s))
  {
    LStripIdempotent(LStrip(s));
  }

  lemma {:induction false} WordLenOfWord(w: string, tail: string)
    requires NoSpace(w)
    requires tail == [] || IsSpace(tail[0])
    ensures WordLen(w + tail) == |w|
    decreases |w|
  {
    if w != [] {
      assert (w + tail)[1..] == w[1..] + tail;
      WordLenOfWord(w[1..], tail);
    } else {
      assert w + tail == tail;
    }
  }

  /** A single space in front of a string that does not start with whitespace
      is all `lstrip` removes. */
  lemma LStripSpaceThenWord(rest: string)
    requires rest == [] || !IsSpace(rest[0])
    ensures LStrip(" " + rest) == rest
  {
    assert (" " + rest)[1..] == rest;
  }

  /** Removing every occurrence of a pattern never lengthens a string, and
      shortens it by at least the pattern when there is one. */
  lemma {:induction false} ReplaceByEmptyLength(s: string, pat: string)
    requires pat != []
    ensures |Replace(s, pat, "")| <= |s|
    ensures Contains(s, pat) ==> |Replace(s, pat, "")| <= |s| - |pat|
    decreases |s|
  {
    if |s| >= |pat| {
      if s[..|pat|] == pat {
        ReplaceByEmptyLength(s[|pat|..], pat);
      } else {
        ReplaceByEmptyLength(s[1..], pat);
        if Contains(s, pat) {
          var k := Find(s, pat).value;
          assert k > 0;
          assert OccursAt(s[1..], pat, k - 1);
        }
      }
    }
  }

  /** An occurrence in a slice is an occurrence in the whole string. */
  lemma ContainsSlice(s: string, pat: string, a: nat, b: nat)
    requires a <= b <= |s|
    ensures Contains(s[a..b], pat) ==> Contains(s, pat)
  {
    if Contains(s[a..b], pat) {
      var t := s[a..b];
      var k := Find(t, pat).value;
      assert OccursAt(t, pat, k);
      var u := s[a + k..a + k + |pat|];
      var w := t[k..k + |pat|];
      assert forall i :: 0 <= i < |pat| ==> u[i] == w[i];
      assert u == w;
      assert OccursAt(s, pat, a + k);
    }
  }

  /** A suffix is the slice up to `b` followed by the suffix from `b`. */
  lemma SuffixSplit(s: string, a: nat, b: nat)
    requires a <= b <= |s|
    ensures s[a..] == s[a..b] + s[b..]
  {
    var t := s[a..b] + s[b..];
    assert forall k :: 0 <= k < |t| ==> t[k] == s[a + k];
  }

  /** The first `c` of `a + [c] + b` is the one after `a` when `a` holds
      none. */
  lemma {:induction false} IndexOfAfter(a: string, c: char, b: string)
    requires c !in a
    ensures IndexOf(a + [c] + b, c) == |a|
    ensures (a + [c] + b)[..|a|] == a && (a + [c] + b)[|a| + 1..] == b
    decreases |a|
  {
    var s := a + [c] + b;
    if a != [] {
      assert a[0] in a;
      assert s[1..] == a[1..] + [c] + b;
      IndexOfAfter(a[1..], c, b);
    }
    assert s[..|a|] == a;
    assert s[|a| + 1..] == b;
  }

  /** A concatenation starts with its first part and ends with its last. */
  lemma ConcatEnds(a: string, b: string)
    ensures StartsWith(a + b, a) && EndsWith(a + b, b)
  {
    assert (a + b)[..|a|] == a;
    assert (a + b)[|a + b| - |b|..] == b;
  }

  /** A suffix read as the text before an occurrence of `t`, `t` itself and
      the text after it. */
  lemma SuffixAround(s: string, a: nat, b: nat, t: string)
    requires a <= b && b + |t| <= |s| && s[b..b + |t|] == t
    ensures s[a..] == s[a..b] + t + s[b + |t|..]
  {
    var u := s[a..b] + t + s[b + |t|..];
    assert forall k :: 0 <= k < |u| ==> u[k] == s[a + k];
  }

  /** Occurrences in the suffix `s[i..]` are the occurrences in `s`, shifted
      by `i`. */
  lemma OccursInSuffix(s: string, sub: string, i: nat, k: nat)
    requires i <= |s|
    ensures OccursAt(s[i..], sub, k) <==> OccursAt(s, sub, i + k)
  {
    if k + |sub| <= |s| - i {
      assert s[i..][k..k + |sub|] == s[i + k..i + k + |sub|];
    }
  }

  /** `s.count(c)` for one character. */
  function Count(s: string, c: char): (n: nat)
    ensures n <= |s|
  {
    if s == [] then 0 else (if s[0] == c then 1 else 0) + Count(s[1..], c)
  }

  /** A character occurs in a string exactly when it is counted there. */
  lemma {:induction false} CountZero(s: string, c: char)
    ensures Count(s, c) == 0 <==> c !in s
    decreases |s|
  {
    if s != [] {
      CountZero(s[1..], c);
      assert s == [s[0]] + s[1..];
    }
  }

  lemma {:induction false} CountConcat(a: string, b: string, c: char)
    ensures Count(a + b, c) == Count(a, c) + Count(b, c)
    decreases |a|
  {
    if a != [] {
      assert (a + b)[1..] == a[1..] + b;
      CountConcat(a[1..], b, c);
    } else {
      assert a + b == b;
    }
  }

  /** `s.split(c)` has one part more than `s` has separators. */
  lemma {:induction false} SplitCount(s: string, c: char)
    ensures |Split(s, c)| == Count(s, c) + 1
    decreases |s|
  {
    var i := IndexOf(s, c);
    if i < |s| {
      SplitCount(s[i + 1..], c);
      assert s == s[..i] + ([c] + s[i + 1..]);
      CountConcat(s[..i], [c] + s[i + 1..], c);
      CountConcat([c], s[i + 1..], c);
      CountZero(s[..i], c);
    } else {
      CountZero(s, c);
    }
  }

  /** The characters of `s` other than `c`, in order (`s.replace(c, '')`). */
  function Remove(s: string, c: char): (r: string)
    ensures c !in r
    ensures |r| + Count(s, c) == |s|
  {
    if s == [] then [] else (if s[0] == c then [] else [s[0]]) + Remove(s[1..], c)
  }

  /** Decimal value of a string of ASCII digits. */
  function DigitsValue(s: string): (n: nat)
    requires AllDigits(s)
  {
    if s == [] then 0 else 10 * DigitsValue(s[..|s| - 1]) + (s[|s| - 1] as int - '0' as int)
  }

  /** Decimal rendering of an integer, as Python's `str(int)`. */
  function IntToString(n: int): (s: string)
    ensures n >= 0 ==> s != [] && AllDigits(s)
    decreases if n < 0 then 1 - n else n
  {
    if n < 0 then "-" + IntToString(-n)
    else if n < 10 then [('0' as int + n) as char]
    else IntToString(n / 10) + [('0' as int + n % 10) as char]
  }

  lemma {:induction false} DigitsValueOfIntToString(n: nat)
    ensures DigitsValue(IntToString(n)) == n
    decreases n
  {
    if n >= 10 {
      DigitsValueOfIntToString(n / 10);
      var s := IntToString(n);
      assert s[..|s| - 1] == IntToString(n / 10);
    }
  }
  /** The digits of a Python integer literal: ASCII digits, with single
      underscores allowed between two digits. */
  predicate DigitGroups(s: string)
  {
    s != [] && IsDigit(s[0]) && IsDigit(s[|s| - 1])
    && (forall i :: 0 <= i < |s| ==> IsDigit(s[i]) || s[i] == '_')
    && !Contains(s, "__")
  }

  /** The digits of `s` with its underscores dropped. */
  function DropUnderscores(s: string): (r: string)
    requires forall i :: 0 <= i < |s| ==> IsDigit(s[i]) || s[i] == '_'
    ensures AllDigits(r)
    ensures AllDigits(s) ==> r == s
  {
    if s == [] then [] else (if s[0] == '_' then [] else [s[0]]) + DropUnderscores(s[1..])
  }

  /** Python's `int(s)` on a string, for ASCII digits: surrounding
      whitespace, an optional sign, then digit groups; `None` stands for
      the `ValueError`. */
  function ParseInt(s: string): (r: Option<int>)
    ensures r.Some? && r.value < 0 ==> Strip(s) != [] && Strip(s)[0] == '-'
    ensures r.None? ==> !DigitGroups(Strip(s))
  {
    ParseStripped(Strip(s))
  }

  /** `int` once the surrounding whitespace is gone: digit groups, or a
      sign followed by digit groups. */
  function ParseStripped(t: string): (r: Option<int>)
    ensures r.Some? && r.value < 0 ==> t != [] && t[0] == '-'
    ensures r.None? ==> !DigitGroups(t)
  {
    if DigitGroups(t) then Some(DigitsValue(DropUnderscores(t)))
    else if |t| > 1 && (t[0] == '+' || t[0] == '-') && DigitGroups(t[1..]) then
      var n: int := DigitsValue(DropUnderscores(t[1..]));
      Some(if t[0] == '-' then -n else n)
    else None
  }

  lemma DigitNotSpace(c: char)
    requires IsDigit(c)
    ensures !IsSpace(c)
  {
  }

  /** A plain run of digits, with or without a minus sign, reads as its
      value. */
  lemma ParseDigits(digits: string)
    requires digits != [] && AllDigits(digits)
    ensures ParseInt(digits) == Some(DigitsValue(digits))
    ensures ParseInt("-" + digits) == Some(-(DigitsValue(digits) as int))
  {
    assert DigitGroups(digits);
    ParsePlainDigits(digits);
    ParseNegatedDigits(digits);
  }

  lemma ParsePlainDigits(digits: string)
    requires DigitGroups(digits) && AllDigits(digits)
    ensures ParseInt(digits) == Some(DigitsValue(digits))
  {
    DigitNotSpace(digits[0]);
    DigitNotSpace(digits[|digits| - 1]);
    assert Strip(digits) == digits;
  }

  lemma ParseNegatedDigits(digits: string)
    requires DigitGroups(digits) && AllDigits(digits)
    ensures ParseInt("-" + digits) == Some(-(DigitsValue(digits) as int))
  {
    StripSigned(digits);
    ParseMinusForm(digits);
  }

  /** A minus sign before a run ending in a digit leaves nothing to strip. */
  lemma StripSigned(digits: string)
    requires digits != [] && IsDigit(digits[|digits| - 1])
    ensures Strip("-" + digits) == "-" + digits
  {
    var s := "-" + digits;
    assert s[0] == '-' && s[|s| - 1] == digits[|digits| - 1];
    DigitNotSpace(digits[|digits| - 1]);
  }

  /** A minus sign followed by plain digits reads as their negated value. */
  lemma ParseMinusForm(digits: string)
    requires DigitGroups(digits) && AllDigits(digits)
    ensures ParseStripped("-" + digits) == Some(-(DigitsValue(digits) as int))
  {
    var t := "-" + digits;
    assert t[0] == '-' && t[1..] == digits;
    assert !IsDigit(t[0]);
  }

  /** `int(str(n)) == n`. */
  lemma ParseIntOfIntToString(n: int)
    ensures ParseInt(IntToString(n)) == Some(n)
  {
    var m := if n < 0 then -n else n;
    DigitsValueOfIntToString(m);
    ParseDigits(IntToString(m));
  }
}
