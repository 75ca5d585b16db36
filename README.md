# arxiv-search, modelled in Dafny

This project models the logic at the core of arXiv's search service:

- **The indexing agent's record processor.** It fetches paper metadata, transforms it and writes it to the index. Every collaborator failure is classified as a document failure or an indexing failure. Connection failures get one retry, and an error budget stops processing after too many document failures.
- **The query languages.**
  - The two hand-written scanners of the API's classic syntax.
  - The `query=` mini-language.
  - The classic-phrase serialiser and its token actions.
  - The NOT > AND > OR grouping of advanced fielded terms.
  - The translation of phrases into an abstract boolean query algebra.
- **The search-term utilities.** Escaping, wildcard handling, date and old-paper-number recognisers, and hit highlighting: HTML escaping around highlight tags, TeXism handling, snippet ends and previews.
- **Request validation and pagination.** The classic API and legacy classic controllers, the controller helpers, and the simple and advanced search forms.
- **Domain records and serialisers.** `latest_version`, `include_fields`, result-set metadata, author records, the two JSON serialisers, the template helpers and filters, the archive-list URL converter, the application's errors, and the cookie and header hooks of the user interface.

Pure logic is modelled as datatypes, functions and lemmas. Where the source updates state, the model does too:

- the record processor's error count and the archive-URL cache are classes;
- the request and response of the UI hooks are objects whose methods change them;
- every character or field loop is a method with its invariants, proved against a function that states what it computes.

The libraries and services the code calls are parameters of the model: the metadata service, the index, the transform, the taxonomy, `url_for`, the HTML `escape`, JSON encoding and the parser generator.

Two behaviours of the source are kept as written, with lemmas stating them:

- In search/controllers/api/classic_parser.py:118, `tuple(*phrases)` raises `TypeError` for two or more phrases.
- In search/services/index/highlighting.py:113, `value[start - 1]` reads the last character when a tag opens at offset 0.

Four behaviours are reported under "## Findings": the 29 February upper limit of the advanced form's year check; the attribute reads of `classic_query` on the search's result dictionary, when a search query comes with an id list; and the `fields()` calls of search/services/index/results.py on `Person` and `Document`, which resolve to the `TypedDict`s of search/domain/documents.py and raise `AttributeError`. The model states each as written and proves the intended behaviour of the corrected definition, which the rest of the model uses.

## Model

| member | source | states |
|---|---|---|
| Consumer.WithOneRetry | search/agent/consumer.py:64-88 | the call is made once or twice, twice exactly when the first attempt fails with the retried error; a success returns the answer of the last attempt; a first exception other than the retried one is classified after one call; two retried errors give `IndexingFailed(giveUp)` after two calls; any other exception of the retry escapes as itself |
| Consumer.MetadataFailure | search/agent/consumer.py:80-88 | `RequestFailed` and `BadResponse` classify as `DocumentFailed`; every other first-attempt exception as `IndexingFailed` |
| Consumer.GetMetadata | search/agent/consumer.py:38-89 | `retrieve` runs twice exactly when the first call fails with `ConnectionFailed`; a success returns the document of the last call; `IndexingFailed` (endpoint unreachable) exactly for two connection failures; `DocumentFailed` exactly for a first `RequestFailed`/`BadResponse`; any other first exception is `IndexingFailed("Unhandled exception")` after one call; an exception of the retry other than a connection failure escapes as itself |
| Consumer.GetBulkMetadata | search/agent/consumer.py:91-144 | the same retry-once and classification rules for `bulk_retrieve`, including `IndexingFailed("Unhandled exception")` after one call for any other first exception |
| Consumer.TransformToDocument | search/agent/consumer.py:147-175 | succeeds exactly when the transform does, with the transform's document unchanged; every failure is `DocumentFailed` |
| Consumer.IndexFailure | search/agent/consumer.py:201-203 | every first-call exception other than a connection error is `IndexingFailed` |
| Consumer.AddToIndex | search/agent/consumer.py:178-203 | one write call exactly when the first call does not fail with `IndexConnectionError`, else two; it succeeds exactly when the last call does; two connection errors give exactly `IndexingFailed("Could not index document")`; another exception of the retry escapes as itself, exactly then; any other first exception is `IndexingFailed("Unhandled exception")` after one call |
| Consumer.BulkAddToIndex | search/agent/consumer.py:206-232 | the same for the bulk write, giving up with `IndexingFailed("Could not bulk index documents")` |
| Consumer.TransformAll | search/agent/consumer.py:266-272 | on success one document per record, each the transform of the record at the same position, after exactly as many transform calls as records; on failure the last transform called is the first that failed and all before it succeeded |
| Consumer.TransformAllStopsAtFailure | search/agent/consumer.py:267-272 | a failure among the first `k` records is the outcome of the whole loop: later records are never transformed |
| Consumer.TransformAllSnoc | search/agent/consumer.py:267-272 | one more loop step appends that record's document, or ends the loop with its failure |
| Consumer.IndexPapersWritesTransformedInOrder | search/agent/consumer.py:246-278 | on success every fetched record was transformed, in order, and exactly that list (duplicates and all) was written |
| Consumer.IndexPapersNoWriteOnEarlyFailure | search/agent/consumer.py:265-278 | a failed bulk fetch or transform means no write call, and the failure passes through unchanged |
| Consumer.ProcessStep | search/agent/consumer.py:280-320 | over budget the record is refused with `IndexingFailed("Too many errors")` and the count is kept; text that is not JSON is `DocumentFailed` without counting; bytes that are not UTF-8 and JSON that is not an object escape unclassified; the count grows by one exactly when indexing fails with `DocumentFailed`, which is then swallowed; otherwise the outcome of indexing passes through |
| Consumer.ErrorCountBounded | search/agent/consumer.py:301-317 | starting within budget the error count never exceeds `MAX_ERRORS + 1` and never decreases |
| Consumer.OverBudgetRefusesAll | search/agent/consumer.py:301-302 | once over budget every later record is refused and the count stays put |
| Consumer.MetadataRecordProcessor.constructor | search/agent/consumer.py:31-35 | the error count starts at 0 |
| Consumer.MetadataRecordProcessor.IndexPapers | search/agent/consumer.py:246-278 | the loop that appends each transformed record to `documents` computes exactly the outcome and the call trace of `IndexPapersSpec` |
| Consumer.MetadataRecordProcessor.IndexPaper | search/agent/consumer.py:234-244 | `index_paper` is `index_papers` on a one-element list |
| Consumer.MetadataRecordProcessor.ProcessRecord | search/agent/consumer.py:280-320 | the outcome and the new error count are those of `ProcessStep` on the old count |
| IndexUtil.DoubledOperatorsNeverMatch | search/services/index/util.py:25-45 | the two-character entries `&&` and `\|\|` can never equal one character, so `&` and `\|` are not escaped, while `\`, `-` and `:` are |
| IndexUtil.EscapedAppend | search/services/index/util.py:140-143 | escaping one more character appends its own escape to the escape of the prefix |
| IndexUtil.Escape | search/services/index/util.py:137-144 | the loop over the characters builds exactly `Escaped(term, quotes)`: a backslash before every special character, and before `"` when `quotes` is set |
| IndexUtil.EscapedLength | search/services/index/util.py:137-144 | the output is as long as the input plus the number of escaped characters |
| IndexUtil.UnescapeEscaped | search/services/index/util.py:137-144 | dropping each escaping backslash recovers the input |
| IndexUtil.QuoteIndexFirst | search/services/index/util.py:16 | the first `"` found is the first: none before it, and none at all exactly when the search runs to the end |
| IndexUtil.SplitLiteralsShape | search/services/index/util.py:85 | `re.split` on the literal pattern yields an odd number of parts; the odd-numbered parts are the quoted literals and the others hold no `"` |
| IndexUtil.LiteralAt | search/services/index/util.py:16 | a `"`, a run without `"`, and a `"` form a literal |
| IndexUtil.PrependPair | search/services/index/util.py:85 | putting a quote-free text and a literal in front of a well-shaped split keeps the alternating shape |
| IndexUtil.SplitLiteralsConcat | search/services/index/util.py:85-92 | joining the split parts with `""` gives the query back |
| IndexUtil.SplitLiteralsUnfold | search/services/index/util.py:85 | the split is the text before the first quote, the literal it opens, then the split of the rest |
| IndexUtil.WildcardsEscapedFlat | search/services/index/util.py:87 | the replacement leaves every `*` and `?` preceded by a backslash and starts with a backslash exactly when the part starts with a wildcard |
| IndexUtil.EscapeWildcardsFlat | search/services/index/util.py:87 | the two chained replacements equal the one-pass escape of both wildcards |
| IndexUtil.ReplaceTwiceFlat | search/services/index/util.py:87 | `replace("*", "\*")` then `replace("?", "\?")` is the one-pass escape |
| IndexUtil.EscapePart | search/services/index/util.py:86-91 | a part starting with a quote comes back as itself with a backslash inserted before every wildcard (`WildcardsEscapedFlat`); any other part is returned unchanged |
| IndexUtil.EscapeParts | search/services/index/util.py:86-91 | the comprehension maps every part, in order, through `EscapePart` |
| IndexUtil.WildcardEscape | search/services/index/util.py:62-96 | raises `QueryError` exactly when the query starts with `?` or `*`; otherwise the text is the escaped literal segments glued in order, and the flag is true exactly when a wildcard without a preceding backslash remains in it |
| IndexUtil.WildcardEscapeSegments | search/services/index/util.py:80-96 | for every accepted query the segments glue back to the query, and the result is each quoted segment with its wildcards escaped and each other segment unchanged, in order |
| IndexUtil.WildcardEscapeWithoutQuotes | search/services/index/util.py:80-96 | without quotes the query comes back unchanged, with the flag telling whether it holds an unescaped wildcard |
| IndexUtil.HasWildcardAgreesWithEscape | search/services/index/util.py:99-103 | on terms without quotes or backslashes, `wildcard_escape` succeeds exactly when the term does not start with a wildcard, and its flag then equals `has_wildcard` |
| IndexUtil.StripPunctuation | search/services/index/util.py:147-149 | the result holds no punctuation, is no longer than the input, and a punctuation-free input comes back unchanged |
| IndexUtil.KeepLongWords | search/services/index/util.py:155 | every kept part is one of the input parts whose punctuation-stripped length exceeds 1 |
| IndexUtil.StripPunctuationOne | search/services/index/util.py:147-149 | a single character is dropped exactly when it is in `string.punctuation` |
| IndexUtil.StripPunctuationConcat | search/services/index/util.py:147-149 | stripping the concatenation of two strings is concatenating their strippings |
| IndexUtil.KeepLongWordsOne | search/services/index/util.py:155 | a single word is kept exactly when it is longer than one character without punctuation |
| IndexUtil.KeepLongWordsConcat | search/services/index/util.py:155 | keeping the long words of two word lists one after the other is concatenating what each keeps |
| IndexUtil.RemoveSingleCharactersWords | search/services/index/util.py:152-156 | the words of the result are exactly the whitespace-split parts whose punctuation-stripped length exceeds 1, in order |
| IndexUtil.OldPaperNumByValue | search/services/index/util.py:117-119 | a term is an old paper number exactly when it is 7 digits, its `YYMM` lies in 9107..0703 with month 01-12 and its sequence lies in 001..999 |
| IndexUtil.OldPaperNumExamples | search/services/index/util.py:50-53 | the boundary cases: 9106001 and 0704001 are rejected, 9107001 and 0703999 accepted, 9200001 rejected and 9201001 accepted |
| IndexUtil.FirstDate | search/services/index/util.py:196-201 | the leftmost standalone date of a shape at or after an offset, or none at all |
| IndexUtil.SpacesBefore | search/services/index/util.py:196-201 | the whitespace run before a match, which `(?:^\|[\s]+)` consumes |
| IndexUtil.SpacesFrom | search/services/index/util.py:196-201 | the whitespace run after a match, which `(?:$\|[\s]+)` consumes |
| IndexUtil.CutDate | search/services/index/util.py:198-204 | the fragment is the date itself and the remainder is stripped |
| IndexUtil.ChooseDate | search/services/index/util.py:196-205 | the chosen date is a standalone date of the chosen shape |
| IndexUtil.ParseDate | search/services/index/util.py:175-205 | succeeds exactly when a date is chosen; returns that date's text and, as remainder, the term with the date cut out and stripped |
| IndexUtil.ParseDateLeadingMonth | search/services/index/util.py:175-205 | a `YYYY-MM` date at the front, a space and a stripped rest give back exactly that date and that rest |
| IndexUtil.ParseDateFails | search/services/index/util.py:205 | `ValueError` exactly when the term holds no standalone `YYYY-MM` and no standalone `YYYY` |
| IndexUtil.ParseDatePrefersMonth | search/services/index/util.py:196-199 | a standalone `YYYY-MM` is preferred over any year: the fragment is 7 characters with `-` at offset 4 |
| IndexUtil.FirstPartial | search/services/index/util.py:225 | the leftmost standalone `YYMM` partial at or after an offset: no partial starts between the offset and the one returned, and none at all when it returns none |
| IndexUtil.ParseDatePartial | search/services/index/util.py:208-232 | `None` exactly when no standalone `YYMM` with month 01-12 occurs; otherwise the leftmost such partial, rewritten as `CCYY-MM` from its own digits, whose century is 19 exactly when `YY >= 91`, and 20 otherwise |
| IndexUtil.SortParams | search/services/index/util.py:159-172 | no order (or an empty one) gives the default sort order; otherwise the order itself, then `paper_id_v` carrying the order's `-` direction |
| Highlighting.TagsNeverStartTogether | search/services/index/highlighting.py:26-27 | the open and close tags never start at the same offset, so `_escape`'s two comparisons `i_o < i_c` and `i_c < i_o` cover every case in which both are found |
| Highlighting.MatchesFromIsOccurrence | search/services/index/highlighting.py:284-285 | the character-by-character comparison is an occurrence of the tag's tail |
| Highlighting.MatchesAtIsOccurrence | search/services/index/highlighting.py:284-285 | a tag matches at an offset exactly when it occurs there in the sense of `str.index` |
| Highlighting.NextDollar | search/services/index/util.py:19 | the first `$` at or after an offset, or the end |
| Highlighting.NextDollarIsFirst | search/services/index/util.py:19 | no `$` lies before the one found |
| Highlighting.TexAt | search/services/index/util.py:19 | a match of `[\$]{d}[^\$]+[\$]{d}` ends after at least one non-dollar, with delimiters at both ends |
| Highlighting.TexAtInside | search/services/index/util.py:19 | a TeXism holds no `$` between its delimiters |
| Highlighting.TexismAt | search/services/index/util.py:19 | a `TEXISM` match is non-empty and within the value |
| Highlighting.EnclosedTexAt | search/services/index/highlighting.py:351-352 | a highlighted TeXism starts with an open tag and ends with a close tag |
| Highlighting.LastCloseIn | search/services/index/highlighting.py:353 | the close tag the greedy `[^\$]+` backtracks to lies in range and is a close tag |
| Highlighting.LastCloseInIsLast | search/services/index/highlighting.py:353 | it is the last close tag in range, and none is found only when none occurs |
| Highlighting.TaggedRunAt | search/services/index/highlighting.py:353 | a highlighted run starts with an open tag and ends with a close tag |
| Highlighting.TaggedRunAtInside | search/services/index/highlighting.py:353 | a highlighted run holds no `$` between its tags |
| Highlighting.ProtectedAt | search/services/index/highlighting.py:347-355 | a match of the five alternatives is non-empty and within the value |
| Highlighting.FirstProtected | search/services/index/highlighting.py:356 | `re.search` reports a non-empty span at or after the offset |
| Highlighting.FirstProtectedIsMatch | search/services/index/highlighting.py:356 | the reported span is a match of the pattern |
| Highlighting.FirstProtectedIsLeftmost | search/services/index/highlighting.py:356 | no match starts before the reported span, and none at all when nothing is reported |
| Highlighting.EndSafely | search/services/index/highlighting.py:338-370 | `_end_safely` never returns more than `remaining` |
| Highlighting.EndSafelyCases | search/services/index/highlighting.py:357-370 | `remaining` when no protected span exists or none starts before it; the span's start when the ideal end falls inside the span; at least the span's end when the ideal end lies past it |
| Highlighting.EndSafelyIsSafe | search/services/index/highlighting.py:338-370 | the chosen end never falls strictly inside a TeXism or a highlighted span |
| Highlighting.StripHighlightAndEnclose | search/services/index/highlighting.py:251-261 | a TeXism without tags is returned unchanged; one with tags is exactly the open tag, the TeXism with every open and close tag removed, and the close tag |
| Highlighting.StripHighlightMovesTagsOut | search/services/index/highlighting.py:251-261 | `a<hit>b</hit>c` with no other tag becomes `<hit>abc</hit>`: the highlight moves outside the TeXism |
| Highlighting.HighlightTexismsFromWithoutTags | search/services/index/highlighting.py:264-266 | the substitution leaves text without tags unchanged |
| Highlighting.HighlightWholeTexismWithoutTags | search/services/index/highlighting.py:264-266 | `_highlight_whole_texism` is the identity on text without tags |
| Highlighting.NextTag | search/services/index/highlighting.py:284-285 | the next tag found lies at or after the offset and is a tag |
| Highlighting.NextTagIsFirst | search/services/index/highlighting.py:284-285 | no tag starts before the one found, and none at all when none is found |
| Highlighting.FindFrom | search/services/index/highlighting.py:284-285 | `value[i:].index(t) if t in value[i:] else None`: an offset, relative to `i`, at which `t` occurs |
| Highlighting.FoundHere | search/services/index/highlighting.py:284-285 | a tag at `i` is found at relative offset 0 |
| Highlighting.FindPastMiss | search/services/index/highlighting.py:284-285 | without a tag at `i` the search finds it one place further on |
| Highlighting.FindFromIsFind | search/services/index/highlighting.py:284-285 | the search from `i` is `str.find` on `value[i:]` |
| Highlighting.Earlier | search/services/index/highlighting.py:286-301 | no tag exactly when neither search found one |
| Highlighting.TagByFindHere | search/services/index/highlighting.py:289-301 | a tag at `i` is what `_escape`'s two searches pick |
| Highlighting.TagByFindSkip | search/services/index/highlighting.py:289-301 | without a tag at `i`, the searches from `i` and from `i + 1` pick the same tag |
| Highlighting.EarlierShift | search/services/index/highlighting.py:289-301 | hits one place further into a text one place earlier name the same offsets |
| Highlighting.NextTagByFind | search/services/index/highlighting.py:284-301 | the offset-by-offset scan finds exactly the tag `_escape`'s searches pick |
| Highlighting.EscapeStep | search/services/index/highlighting.py:289-302 | one step of `_escape`: the escaped text before the next tag, the tag verbatim, then the rest |
| Highlighting.EscapeFromIdentity | search/services/index/highlighting.py:279-303 | with an escape that changes nothing, every tag is emitted verbatim and every piece of text in its place: the output is the input |
| Highlighting.EscapeOutsideIdentity | search/services/index/highlighting.py:269-303 | `_escape` with an identity escape is the identity |
| Highlighting.EscapeOutsideWithoutTags | search/services/index/highlighting.py:284-288 | text with no tag is escaped as a whole |
| Highlighting.Escape | search/services/index/highlighting.py:269-303 | the `while True` loop, with `i` strictly increasing, returns exactly `EscapeOutside(value)` |
| Highlighting.EscapePiece | search/services/index/highlighting.py:284-301 | one pass of the loop: without a tag the escaped rest and the end; otherwise the escaped text and the tag, and a strictly larger `i` from which the rest of the output follows |
| Highlighting.RoundHalf | search/services/index/highlighting.py:112 | `round(x / 2)` is within one half of `x / 2`, exact for even `x`, and rounds halves to the even neighbour |
| Highlighting.Wrap | search/services/index/highlighting.py:113-124 | Python's `value[i]` for a negative `i` reads from the end; for a non-negative `i` it is `i` |
| Highlighting.PySlice | search/services/index/highlighting.py:137 | Python's clamped slice: the slice when the bounds are in order and in range, empty when they cross or start past the end |
| Highlighting.RollBack | search/services/index/highlighting.py:113-120 | the first loop stops within `start_frag_size` of the tag, at 0 or after a `$` or `>`, and never moves forward |
| Highlighting.RollBackPassesNoStopper | search/services/index/highlighting.py:115-119 | the roll-back passes over no `$` or `>` |
| Highlighting.MoveToBoundary | search/services/index/highlighting.py:122-124 | the second loop moves the start forward at most to just past the open tag, stopping after a word boundary or at 0 |
| Highlighting.MoveToBoundaryIsFirst | search/services/index/highlighting.py:122-124 | it stops at the first word boundary it meets |
| Highlighting.FirstOpen | search/services/index/highlighting.py:108 | `value.index(start_tag)` is an offset holding `<` |
| Highlighting.FirstCloseEnd | search/services/index/highlighting.py:109 | the end of the first close tag lies within the value |
| Highlighting.Clamp | search/services/index/highlighting.py:135 | `value[end:]` starts at `end`, or at the end of a shorter value |
| Highlighting.WindowAtIs | search/services/index/highlighting.py:107-136 | the window of a value with both tags is the start placed by the two loops and the end extended by `_end_safely` |
| Highlighting.WindowWithoutTags | search/services/index/highlighting.py:125-136 | without both tags the snippet starts at 0, ends within the fragment size, and never inside a protected span |
| Highlighting.WindowAtProperties | search/services/index/highlighting.py:107-136 | with both tags the start lies at most half the spare fragment size before the open tag and after a word boundary or at 0; the end lies past the first close tag, within the fragment size, and never inside a protected span |
| Highlighting.CloseDangling | search/services/index/highlighting.py:138-142 | a close tag is appended exactly when the last open tag comes after the last close tag; afterwards no open tag is left unclosed |
| Highlighting.Assemble | search/services/index/highlighting.py:137-148 | a leading `&hellip;` exactly when `start > 0` and a trailing one exactly when `end < len(value)`, around the stripped, closed snippet |
| Highlighting.PreviewClosesLastTag | search/services/index/highlighting.py:137-142 | whatever the window, the snippet never ends with an open tag after its last close tag |
| Highlighting.PlaceStart | search/services/index/highlighting.py:110-124 | the two while loops compute exactly `MoveToBoundary(RollBack(...))` |
| Highlighting.Preview | search/services/index/highlighting.py:76-148 | the imperative `preview` returns exactly `PreviewOf(value, fragment_size)` |
| Highlighting.Chars | search/services/index/highlighting.py:187-188 | a string iterated as a sequence: one one-character string per character, in order |
| Highlighting.PreferTex | search/services/index/highlighting.py:232-235 | a `<field>.tex` highlight replaces `<field>` and is removed; without one nothing changes; no other entry changes |
| Highlighting.FirstPresent | search/services/index/highlighting.py:237-247 | the first name of the list present in the highlights, or none exactly when none is present |
| Highlighting.HighlightedResult.constructor | search/services/index/highlighting.py:151-168 | the `highlight`, `match` and `preview` dictionaries start empty |
| Highlighting.HighlightedResult.AddHighlighting | search/services/index/highlighting.py:151-248 | the loops updating the three dictionaries in place leave exactly the state `AddHighlightingSpec` gives |
| Highlighting.FirstPresentOfThree | search/services/index/highlighting.py:237-238 | the first of three names present |
| Highlighting.FirstPresentOfTwo | search/services/index/highlighting.py:244-245 | the first of two names present |
| Highlighting.PreferBothTexAbstract | search/services/index/highlighting.py:232-235 | after both TeX preferences `abstract.tex` is gone, `abstract` holds the TeX abstract when there was one and the old abstract otherwise, and `abstract.english` is untouched |
| Highlighting.PreferBothTexTitle | search/services/index/highlighting.py:232-235 | the same for the title entries |
| Highlighting.AbstractPreviewFacts | search/services/index/highlighting.py:237-243 | the abstract preview step previews `abstract.english` when present, else `abstract`, copies it into `highlight['abstract']`, and changes nothing else |
| Highlighting.TitleChoiceFacts | search/services/index/highlighting.py:244-247 | the title step takes `title.english` when present, else `title`, and touches nothing but `highlight['title']` |
| Highlighting.FinishInStages | search/services/index/highlighting.py:230-247 | the last part of `add_highlighting` is the TeX preferences, then the abstract preview, then the title choice |
| Highlighting.FinishAbstract | search/services/index/highlighting.py:230-243 | the abstract preview and highlight come from `abstract.english` when highlighted, else from the TeX abstract, else from `abstract`; with none of them the preview is untouched |
| Highlighting.FinishTitle | search/services/index/highlighting.py:230-247 | the title highlight is `title.english` when highlighted, else the TeX title, else `title`, else absent |
| Highlighting.AbstractPreviewKeeps | search/services/index/highlighting.py:237-243 | the abstract step leaves every highlight other than `abstract` alone |
| Highlighting.FinishMatches | search/services/index/highlighting.py:218-247 | `match['announced_date_first']` is whether that name matched; no `.tex` highlight remains; other `match` entries are kept |
| Highlighting.ChoicesKeep | search/services/index/highlighting.py:237-247 | the abstract and title steps change no `match` entry and bring back no `.tex` highlight |
| Highlighting.CopyHighlightsSkipsAuthors | search/services/index/highlighting.py:183-212 | a field starting with `author`, `owner` or `submitter` (or `_`) is never stored in `highlight` |
| Highlighting.CopyHighlightsFlagsAuthor | search/services/index/highlighting.py:204-210 | any author, owner or submitter field sets `match['author'] = True` |
| Highlighting.MarkMatchedFlags | search/services/index/highlighting.py:214-216 | matched names absent from `highlight` get `match[f] = True`; others are untouched, and so is `highlight` |
| Highlighting.AddHighlightingMatches | search/services/index/highlighting.py:151-248 | after `add_highlighting`, `match['announced_date_first']` is membership of that name in the matched names, no `.tex` highlight remains, and every matched field without a highlight is flagged `True` |
| Highlighting.AddHighlightingTitle | search/services/index/highlighting.py:151-248 | an English title highlight wins over a TeX one, which wins over a plain one |
| Highlighting.AddHighlightingPreview | search/services/index/highlighting.py:151-248 | `preview['abstract']` is `preview()` of the first of `abstract.english`, the TeX abstract and `abstract` that is highlighted |
| IndexAdvanced.Leaves | search/services/index/advanced.py:109-121 | a grouped tuple holds at least one term |
| IndexAdvanced.OperatorIsFirst | search/services/index/advanced.py:103-106 | the operator of a grouped tuple is the operator of its leftmost leaf |
| IndexAdvanced.Singles | search/services/index/advanced.py:111 | the copy of `query.terms` holds every term, in order |
| IndexAdvanced.Pass | search/services/index/advanced.py:113-119 | one pass never lengthens the list and leaves an empty list empty and a non-empty one non-empty |
| IndexAdvanced.PassesNext | search/services/index/advanced.py:112 | the passes run in the order NOT, AND, OR, each on the result of the one before |
| IndexAdvanced.MergeStep | search/services/index/advanced.py:115-119 | when the next term carries the pass's operator, replacing `terms[i]` by the group and popping `terms[i + 1]` advances the pass by one input element |
| IndexAdvanced.KeepStep | search/services/index/advanced.py:114-119 | otherwise stepping `i` forward advances the pass by one input element |
| IndexAdvanced.PassFinished | search/services/index/advanced.py:114 | when `i` reaches the last element the list is the whole pass |
| IndexAdvanced.GroupPass | search/services/index/advanced.py:113-119 | the while loop that assigns, pops and steps `i` back computes exactly `Pass(orig, op)` |
| IndexAdvanced.GroupTerms | search/services/index/advanced.py:109-121 | `_group_terms` returns exactly `GroupTermsOf(query.terms)`, failing its assertion when more than one element is left |
| IndexAdvanced.AllLeavesSnoc | search/services/index/advanced.py:116 | the leaves of a list with one more element are those of the list followed by the element's own |
| IndexAdvanced.PassLeaves | search/services/index/advanced.py:113-119 | a pass keeps the leaves in order under in-order flattening |
| IndexAdvanced.SinglesLeaves | search/services/index/advanced.py:111 | the copied list flattens back to the terms |
| IndexAdvanced.PassesLeaves | search/services/index/advanced.py:112-119 | all passes together keep the leaves in order |
| IndexAdvanced.HeadOps | search/services/index/advanced.py:115 | one operator per element after the first |
| IndexAdvanced.Without | search/services/index/advanced.py:112-119 | the operators other than one given |
| IndexAdvanced.HeadOpsSnoc | search/services/index/advanced.py:115 | one more element adds its operator |
| IndexAdvanced.HeadOpsLast | search/services/index/advanced.py:103-116 | replacing the last element by one with the same operator keeps the operators |
| IndexAdvanced.PassHeadOps | search/services/index/advanced.py:113-119 | after a pass no element after the first carries the pass's operator, and the other operators stay in order: NOT binds tighter than AND, and AND tighter than OR |
| IndexAdvanced.JoinHeadOps | search/services/index/advanced.py:116 | grouping the last element with the next keeps the operators of the list |
| IndexAdvanced.PassKeepsFirst | search/services/index/advanced.py:103-119 | a pass keeps the operator of the first element |
| IndexAdvanced.LaterOperators | search/services/index/advanced.py:115 | the operators of every term but the first |
| IndexAdvanced.SinglesHeadOps | search/services/index/advanced.py:111-115 | the operators of the copied list are those of the terms after the first |
| IndexAdvanced.PassesShape | search/services/index/advanced.py:109-119 | after the first `p` passes the list is empty only for no terms, flattens to the terms, carries exactly the operators not yet grouped, and starts with the first term's operator |
| IndexAdvanced.WithoutAll | search/services/index/advanced.py:112 | the operators not among those dropped |
| IndexAdvanced.GroupTermsResult | search/services/index/advanced.py:109-121 | grouping succeeds exactly when there are terms and every later term's operator is NOT, AND or OR; the result flattens to the terms and carries the first term's operator |
| IndexAdvanced.LaterOperatorsAt | search/services/index/advanced.py:115 | an operator is among the later operators exactly when some term after the first carries it |
| IndexAdvanced.PassNested | search/services/index/advanced.py:112-119 | a pass over groups of lower precedence yields groups of at most the pass's precedence |
| IndexAdvanced.PassesNested | search/services/index/advanced.py:112-119 | after `p` passes every group nests only operators of the first `p` precedences |
| IndexAdvanced.GroupTermsNested | search/services/index/advanced.py:109-121 | the grouped tree nests by precedence: NOT groups below AND groups below OR groups |
| IndexAdvanced.TermQueries | search/services/index/advanced.py:85-90 | one field query per term, in order |
| IndexAdvanced.GroupedToQ | search/services/index/advanced.py:78-100 | the only failure is `TypeError` for an invalid operator |
| IndexAdvanced.GroupedToQSucceeds | search/services/index/advanced.py:92-100 | the translation succeeds exactly when every operator in the tree is OR, AND or NOT |
| IndexAdvanced.GroupedToQQueries | search/services/index/advanced.py:78-97 | the field queries of the result are those of the leaves, in order |
| IndexAdvanced.TermQueriesConcat | search/services/index/advanced.py:82-90 | the queries of two lists of terms are those of each, concatenated |
| IndexAdvanced.NestedKnown | search/services/index/advanced.py:92-100 | a tree built by the grouping passes has only known operators, so its translation never raises |
| IndexAdvanced.FieldedTermsToQMeaning | search/services/index/advanced.py:124-129 | no terms give `match_all`; it succeeds exactly when every later operator is NOT, AND or OR, else the grouping assertion fails; the result's field queries are those of the terms, in order |
| IndexAdvanced.DateRangeQuery | search/services/index/advanced.py:62-75 | no date range gives the empty query; otherwise a range on the date type with `gte` exactly when a start date is set and `lt` exactly when an end date is set, formatted by month for the announced type |
| IndexAdvanced.AdvancedSearch | search/services/index/advanced.py:17-59 | succeeds exactly when the fielded terms translate; adds the `is_current` filter exactly when older versions are excluded; sorts by the query's order; boosts by a function score exactly for relevance order |
| IndexAdvanced.AdvancedSearchMatches | search/services/index/advanced.py:44 | the query matches exactly what the fielded terms, the date range and the classification filter all match |
| Phrases.Prefix | search/controllers/api/__init__.py:322-332 | every field prints as a two- or three-letter prefix without a colon |
| Phrases.FieldOf | search/controllers/api/__init__.py:322-332 | a string names a field only when it is that field's prefix |
| Phrases.FieldOfPrefix | search/controllers/api/__init__.py:322-332 | every field is read back from its own prefix |
| Phrases.OpText | search/domain/classic_api/query_parser.py:82-85 | every operator prints as a word of at least two letters without spaces or colons |
| Phrases.OperatorOf | search/domain/classic_api/query_parser.py:82-85 | a string names an operator only when it is that operator's text |
| Phrases.OperatorOfText | search/domain/classic_api/query_parser.py:82-85 | every operator is read back from its own text |
| ClassicQueryParser.Render | search/domain/classic_api/query_parser.py:106-127 | a term prints as its `field:value` text at any depth |
| ClassicQueryParser.PhraseToQueryString | search/domain/classic_api/query_parser.py:106-108 | no phrase prints as the empty string and any phrase as a non-empty one |
| ClassicQueryParser.RenderNonEmpty | search/domain/classic_api/query_parser.py:106-127 | every phrase prints as a non-empty string |
| ClassicQueryParser.RenderDeep | search/domain/classic_api/query_parser.py:116-127 | every depth below the top prints the same way |
| ClassicQueryParser.RenderNested | search/domain/classic_api/query_parser.py:116-127 | below the top a compound phrase prints as its top-level text in parentheses, a term as itself |
| ClassicQueryParser.RenderBinary | search/domain/classic_api/query_parser.py:120-127 | a binary phrase prints as left operand, operator, right operand, compound operands parenthesised |
| ClassicQueryParser.RenderUnary | search/domain/classic_api/query_parser.py:116-119 | a unary phrase prints as operator then operand, a compound operand parenthesised |
| ClassicQueryParser.StringAction | search/domain/classic_api/query_parser.py:29-33 | the `string` action never lengthens its token and leaves no surrounding whitespace |
| ClassicQueryParser.FieldAction | search/domain/classic_api/query_parser.py:35-37 | the `field` action yields the field whose prefix is the token, or fails naming the token |
| ClassicQueryParser.OperatorAction | search/domain/classic_api/query_parser.py:42-51 | the operator actions yield the operator whose text is the token, or fail naming the token |
| ClassicQueryParser.BinaryExpressionPrintsInSourceOrder | search/domain/classic_api/query_parser.py:53-54 | reordering the tokens to `(operator, left, right)` prints the operands back on the sides of the operator |
| ClassicQueryParser.UnaryExpressionPrintsInSourceOrder | search/domain/classic_api/query_parser.py:46-47 | a unary expression prints back as operator then operand |
| ClassicQueryParser.ValueRoundTrip | search/domain/classic_api/query_parser.py:29-33 | a printed value with no surrounding whitespace and not itself quoted is read back unchanged by the `string` action, quoted or not |
| ClassicQueryParser.TermRoundTrip | search/domain/classic_api/query_parser.py:29-40 | a printed term splits at its colon into a prefix the `field` action reads back as the field and a value the `string` action reads back as the value |
| ClassicQueryParser.ParseClassicQuery | search/domain/classic_api/query_parser.py:99-103 | parsing fails with `BadRequest` exactly when the grammar parser raises, and otherwise returns its phrase |
| ClassicQuery.SortByOf | search/domain/classic_api/classic_query.py:15-22 | a string names a sort key only when it is that key's parameter value, and otherwise no key prints as it |
| ClassicQuery.SortOrderOf | search/domain/classic_api/classic_query.py:16-23 | a string names a sort order only when it is that order's parameter value, and otherwise no order prints as it |
| ClassicQuery.InitPhrase | search/domain/classic_api/classic_query.py:25-33 | after construction there is a phrase or an id list; a search query replaces the phrase by its parse; a parse failure is reported exactly when there is a search query that does not parse |
| ClassicQuery.ClassicAPIQuery.constructor | search/domain/classic_api/classic_query.py:18-23 | every field holds the value given |
| ClassicQuery.ClassicAPIQuery.Defaults | search/domain/classic_api/classic_query.py:18-23 | no search query, phrase or id list, ten results from offset zero, by relevance, descending |
| ClassicQuery.ClassicAPIQuery.PostInit | search/domain/classic_api/classic_query.py:25-33 | `__post_init__` succeeds exactly when `InitPhrase` does, stores the parsed phrase, raises the same error, and changes no other field |
| ClassicQuery.ToQueryStringFields | search/domain/classic_api/classic_query.py:35-42 | when neither the search query nor an id contains `&`, the query string splits at `&` into exactly the four `search_query`, `id_list`, `start` and `max_results` fields |
| ClassicQuery.QueryFields | search/domain/classic_api/classic_query.py:37-42 | the query string has four fields |
| ClassicQuery.FieldsWithoutAmpersand | search/domain/classic_api/classic_query.py:37-42 | none of the four fields contains `&` when the search query and the ids do not |
| ClassicQuery.NoAmpersandInNumber | search/domain/classic_api/classic_query.py:40-41 | a printed integer never contains `&` |
| ClassicQuery.SearchQueryReplacesPhrase | search/domain/classic_api/classic_query.py:27-33 | with a search query that parses, construction succeeds exactly when the parse gives a phrase or there is an id list, and the parsed phrase replaces any phrase given |
| ApiClassicParser.ScanFrom | search/controllers/api/classic_parser.py:55-88 | a scan that runs to the end leaves the token start within the query |
| ApiClassicParser.Wrap | search/controllers/api/classic_parser.py:114-118 | one phrase is returned as itself, none as the empty tuple, and two or more raise `TypeError` from `tuple(*phrases)` |
| ApiClassicParser.ParseOperator | search/controllers/api/classic_parser.py:120-124 | yields the operator whose text is the stripped fragment, or raises `BadRequest` naming the fragment |
| ApiClassicParser.Unquote | search/controllers/api/classic_parser.py:136-138 | dropping a surrounding pair of quotes never lengthens the value |
| ApiClassicParser.ParseFieldQuery | search/controllers/api/classic_parser.py:127-140 | splits at the first colon: succeeds with the field whose prefix is the part before it and the unquoted rest, or raises `BadRequest` naming the field name |
| ApiClassicParser.ClassifyOne | search/controllers/api/classic_parser.py:92-101 | a parsed group is kept as an operand |
| ApiClassicParser.ParseClassicQuery | search/controllers/api/classic_parser.py:36-118 | the character loop, the classing loop and the grouping loop together compute exactly `Parse(q)` |
| ApiClassicParser.ClassifyTokens | search/controllers/api/classic_parser.py:91-101 | the classing loop fails at the first token that fails and otherwise classes every token in order |
| ApiClassicParser.GroupTokens | search/controllers/api/classic_parser.py:104-112 | the grouping loop computes exactly `GroupAll(cs).phrases` |
| ApiClassicParser.WholeGroupParsesInside | search/controllers/api/classic_parser.py:64-68 | a query wrapped whole in one pair of parentheses parses as its inside |
| ApiClassicParser.ScanToClose | search/controllers/api/classic_parser.py:61-68 | a scan inside the outer group reaches its closing parenthesis at the last character and returns the parse of the inside |
| ApiClassicParser.CloseBeforeOpenFails | search/controllers/api/classic_parser.py:64-65 | a closing parenthesis before any opening one raises `IndexError` from the empty stack |
| ApiClassicParser.ScanUnopened | search/controllers/api/classic_parser.py:61-65 | with no opening parenthesis before it, the scan stops at the closing one with `IndexError` |
| ApiClassicParser.FieldQueryOfTerm | search/controllers/api/classic_parser.py:127-140 | a prefix, a colon and a value parse as that field with the unquoted value |
| ApiClassicParser.OperatorOfName | search/controllers/api/classic_parser.py:120-124 | every operator's text parses back as that operator |
| ApiClassicParser.Operands | search/controllers/api/classic_parser.py:106-112 | the operands among the classed tokens |
| ApiClassicParser.GroupAllOperands | search/controllers/api/classic_parser.py:104-112 | grouping yields one phrase per operand, in order, each paired with the last operator before it, and ends with the last operator |
| ApiClassicParser.GroupAllCounts | search/controllers/api/classic_parser.py:104-112 | one phrase per operand, and the current operator is the last one seen |
| ApiClassicParser.GroupAllPhrase | search/controllers/api/classic_parser.py:106-112 | the phrase of the `j`-th token, an operand, sits at its rank among the operands and is paired with the last operator before it |
| ApiClassicParser.SeveralOperandsFail | search/controllers/api/classic_parser.py:114-118 | tokens with two or more operands always raise `TypeError` |
| ApiClassicParser.BinaryQueryRaisesTypeError | search/controllers/api/classic_parser.py:36-118 | every plain query `field:value OP field:value` raises `TypeError` as written |
| ApiClassicParser.ThreeWordQuery | search/controllers/api/classic_parser.py:36-118 | three plain words classed operand, operator, operand raise `TypeError` |
| ApiClassicParser.OperandsOfThree | search/controllers/api/classic_parser.py:106-112 | operand, operator, operand holds two operands |
| ApiClassicParser.ClassifyTerm | search/controllers/api/classic_parser.py:94-96 | a fielded word is classed as that field and its unquoted value |
| ApiClassicParser.ClassifyOperator | search/controllers/api/classic_parser.py:97-99 | an operator's text is classed as that operator |
| ApiClassicParser.ParseThreeWords | search/controllers/api/classic_parser.py:55-88 | three plain words separated by single spaces scan into three text tokens |
| ApiClassicParser.PlainTerm | search/controllers/api/classic_parser.py:62-84 | a prefix, a colon and a plain value form a plain word |
| ApiClassicParser.ThreeTokens | search/controllers/api/classic_parser.py:75-80 | the first two words are cut at the two spaces and the scan ends with the third word pending |
| ApiClassicParser.PlainRun | search/controllers/api/classic_parser.py:83-84 | a run without parentheses, quotes or spaces is skipped without changing the scan |
| Tokenizer.ScanFrom | search/controllers/api/_tokenizer.py:8-33 | a scan that runs to the end leaves the token start within the query |
| Tokenizer.Wrap | search/controllers/api/_tokenizer.py:47-50 | one classed token is returned as itself, any other number as the tuple of them all |
| Tokenizer.ParseOperator | search/controllers/api/_tokenizer.py:52-56 | yields the operator whose text is the stripped fragment, or raises `BadRequest` naming the fragment |
| Tokenizer.ParseFieldQuery | search/controllers/api/_tokenizer.py:59-65 | splits at the first colon: succeeds with the field whose prefix is the part before it and the raw rest, or raises `BadRequest` naming the field name |
| Tokenizer.ClassifyOne | search/controllers/api/_tokenizer.py:35-45 | a tokenised group is kept as it is |
| Tokenizer.TokenizeQuery | search/controllers/api/_tokenizer.py:6-50 | the character loop and the classing loop together compute exactly `Tokenize(q)` |
| Tokenizer.ClassifyTokens | search/controllers/api/_tokenizer.py:35-45 | the classing loop fails at the first token that fails and otherwise classes every token in order |
| Tokenizer.WholeGroupTokenizesInside | search/controllers/api/_tokenizer.py:15-19 | a query wrapped whole in one pair of parentheses tokenises as its inside |
| Tokenizer.ScanToClose | search/controllers/api/_tokenizer.py:12-19 | a scan inside the outer group reaches its closing parenthesis at the last character and returns the tokens of the inside |
| Tokenizer.CloseBeforeOpenFails | search/controllers/api/_tokenizer.py:15-16 | a closing parenthesis before any opening one raises `IndexError` from the empty stack |
| Tokenizer.ScanUnopened | search/controllers/api/_tokenizer.py:12-16 | with no opening parenthesis before it, the scan stops at the closing one with `IndexError` |
| Tokenizer.FieldQueryOfTerm | search/controllers/api/_tokenizer.py:59-65 | a prefix, a colon and a value tokenise as that field with the value unchanged |
| Tokenizer.OperatorOfName | search/controllers/api/_tokenizer.py:52-56 | every operator's text parses back as that operator |
| Tokenizer.PlainRun | search/controllers/api/_tokenizer.py:29-30 | a run without parentheses or spaces is skipped without changing the scan |
| Tokenizer.ThreeTokens | search/controllers/api/_tokenizer.py:23-26 | the first two words are cut at the two spaces and the scan ends with the third word pending |
| Tokenizer.TokenizeThreeWords | search/controllers/api/_tokenizer.py:8-33 | three plain words separated by single spaces scan into three text tokens |
| Tokenizer.FinishThree | search/controllers/api/_tokenizer.py:35-50 | three tokens that class become the tuple of their classes, in order |
| Tokenizer.BinaryQueryTokenizes | search/controllers/api/_tokenizer.py:6-50 | a plain query `field:value OP field:value` tokenises to the triple of term, operator, term |
| Tokenizer.PlainTerm | search/controllers/api/_tokenizer.py:23-30 | a prefix, a colon and a plain value form a plain word |
| Tokenizer.ClassifyTerm | search/controllers/api/_tokenizer.py:38-40 | a fielded word is classed as that field and its raw value |
| Tokenizer.ClassifyOperator | search/controllers/api/_tokenizer.py:41-43 | an operator's text is classed as that operator |
| ApiClassicParser.ScanKeepsTextsNonEmpty | search/controllers/api/classic_parser.py:61-85 | from a state whose text tokens are non-empty, the scan only ever adds non-empty text tokens |
| ApiClassicParser.RawTokensNonEmpty | search/controllers/api/classic_parser.py:61-88 | for every query, no text token of the first pass is empty: repeated spaces are skipped and the final token is added only when something is left |
| ApiClassicParser.SpaceSeparatedTokens | search/controllers/api/classic_parser.py:53-88 | for every query without parentheses or quotes whose only whitespace is the space, the raw tokens are exactly its words (`str.split()`) and the parse is the classing of those words |
| ApiClassicParser.QuotedRun | search/controllers/api/classic_parser.py:73-77 | inside a quote, a run of characters other than parentheses and quotes leaves the scan state as it is: a quoted space never ends a token |
| ApiClassicParser.QuotedValueIsOneToken | search/controllers/api/classic_parser.py:61-88 | a fielded term with a quoted value holding spaces, such as `ti:"dark matter"`, is a single token |
| ApiClassicParser.NestedRun | search/controllers/api/classic_parser.py:75-82 | inside an open parenthesis a run of characters other than parentheses and quotes adds no token and at most moves the token start |
| Tokenizer.ScanKeepsTextsNonEmpty | search/controllers/api/_tokenizer.py:12-30 | from a state whose text tokens are non-empty, the scan only ever adds non-empty text tokens |
| Tokenizer.RawTokensNonEmpty | search/controllers/api/_tokenizer.py:12-33 | for every query, no text token of the first pass is empty |
| Tokenizer.SpaceSeparatedTokens | search/controllers/api/_tokenizer.py:6-50 | for every query without parentheses whose only whitespace is the space, the raw tokens are exactly its words (`str.split()`), quotes or not, and the result is the classing of those words |
| Tokenizer.NestedRun | search/controllers/api/_tokenizer.py:23-28 | inside an open parenthesis a run of characters other than parentheses adds no token and at most moves the token start |
| ApiController.SearchQueryField | search/controllers/api/__init__.py:322-359 | a prefix has a parameter name exactly when it names a field of the query language; any other prefix raises `KeyError` |
| ApiController.Step | search/controllers/api/__init__.py:347-367 | one word keeps the parser state consistent; its only failures are `ValueError` from the colon split and `KeyError` from the prefix lookup |
| ApiController.Run | search/controllers/api/__init__.py:346-367 | the loop keeps the state consistent, and its only failures are `ValueError` and `KeyError` |
| ApiController.SearchQueryOf | search/controllers/api/__init__.py:335-370 | the only failures are `ValueError` and `KeyError` |
| ApiController.RunFailurePersists | search/controllers/api/__init__.py:346-367 | once a word raises, the rest of the words are never read |
| ApiController.ParseSearchQuery | search/controllers/api/__init__.py:335-370 | the loop over the whitespace-separated words computes exactly `SearchQueryOf(query)` |
| ApiController.RunSnoc | search/controllers/api/__init__.py:346 | one more word is one more step of the loop |
| ApiController.RunConcat | search/controllers/api/__init__.py:346 | running over two stretches of words is running over the first, then over the second from where the first left off |
| ApiController.RunNormalises | search/controllers/api/__init__.py:347-350 | parsing keeps every operator `AND`, `OR` or `NOT` |
| ApiController.ParsedOperators | search/controllers/api/__init__.py:335-370 | every operator parsed from a query is `AND`, `OR` or `NOT`, and every parameter it sets has its operator recorded |
| ApiController.RunKeys | search/controllers/api/__init__.py:359-360 | every recorded parameter has a recorded operator, and every recorded operator a parameter (the source's `defaultdict` also holds the key `default_factory`, which the model leaves out) |
| ApiController.OperatorPersists | search/controllers/api/__init__.py:343-360 | the pending operator stays the same until an operator word replaces it |
| ApiController.OperatorWordSets | search/controllers/api/__init__.py:347-350 | an operator word outside a quote sets the pending operator, `ANDNOT` as `NOT`, and changes nothing else |
| ApiController.FieldWordRecords | search/controllers/api/__init__.py:351-360 | a `prefix:value` word outside a quote, with a known prefix, records the prefix's parameter with the value's quotes removed and the pending operator, and opens a quote exactly when the value opens one |
| ApiController.FieldWordSplits | search/controllers/api/__init__.py:347-352 | a word with one colon is no operator word and splits into its prefix and its value |
| ApiController.QuoteContinues | search/controllers/api/__init__.py:361-367 | inside a quote, words that do not end in `"` are appended to the quoted parameter after a space each, and the quote stays open |
| ApiController.QuoteSnoc | search/controllers/api/__init__.py:361-367 | one more word inside the quote is appended after a space |
| ApiController.QuoteNoWords | search/controllers/api/__init__.py:361-367 | no more words inside the quote leave the state as it is |
| ApiController.ContinueStep | search/controllers/api/__init__.py:361-367 | a word not ending in `"` inside a quote is appended after a space and nothing else changes |
| ApiController.QuoteCloses | search/controllers/api/__init__.py:363-367 | a word ending in `"` closes the quote and is appended with its quotes removed |
| ApiController.WordErrors | search/controllers/api/__init__.py:351-359 | outside a quote, a word that is not an operator raises `ValueError` exactly when it does not hold one colon, and fails at all exactly when that or its prefix is unknown |
| ApiController.EmptyQueryParsesEmpty | search/controllers/api/__init__.py:335-370 | an empty query sets no parameters and no operators |
| ApiController.SearchParams | search/controllers/api/__init__.py:64-71 | a query raising `ValueError` becomes `BadRequest` naming the query, any other error escapes unchanged; a query that parses gives its operators and the request's parameters with one more value per parsed term |
| ApiController.ImproperSyntax | search/controllers/api/__init__.py:71 | the error is a `BadRequest` |
| ApiController.WithTerms | search/controllers/api/__init__.py:67-69 | every parsed term is added as one more value of its parameter after the request's own values |
| ApiController.ValuePairs | search/controllers/api/__init__.py:251-253 | one pair per value |
| ApiController.ValuePairsPrefix | search/controllers/api/__init__.py:251-253 | each value is paired with its field, in order |
| ApiController.FieldedTermsMeaning | search/controllers/api/__init__.py:245-261 | one term per value of a supported field, in field order, with that field's operator; `None` exactly when there is no value; success exactly when every such field has an operator |
| ApiController.FieldedEntriesOnError | search/controllers/api/__init__.py:250-258 | a failing call logs every value up to and including the one whose field has no operator, and raises `KeyError` for that field |
| ApiController.DirectFieldParamRaises | search/controllers/api/__init__.py:245-258 | without a `query` parameter the operators are empty, so any supported field given directly raises `KeyError` for the first one |
| ApiController.MergeNothing | search/controllers/api/__init__.py:64-69 | without a `query` parameter nothing is parsed and every parameter keeps its values |
| ApiController.NoTermsAdded | search/controllers/api/__init__.py:68-69 | adding no terms leaves every parameter as it is |
| ApiController.FieldPairsSame | search/controllers/api/__init__.py:250-251 | parameters with the same values give the same pairs |
| ApiController.FieldPairsPrefix | search/controllers/api/__init__.py:250-253 | the pairs of the first fields come first |
| ApiController.QueryTerms.constructor | search/controllers/api/__init__.py:74 | the log starts empty |
| ApiController.QueryTerms.GetFieldedTerms | search/controllers/api/__init__.py:245-261 | returns exactly `FieldedTerms` and appends exactly the entries the loop logs before it returns or raises |
| ApiController.QueryTerms.AddField | search/controllers/api/__init__.py:250-258 | one field's values become terms and are logged, or the field's missing operator ends the call with its `KeyError` after logging its first value |
| ApiController.QueryTerms.AddValues | search/controllers/api/__init__.py:252-258 | each value is logged before its operator is looked up; a field without an operator raises `KeyError` after logging its first value |
| ApiController.QueryTerms.GetIncludeFields | search/controllers/api/__init__.py:236-242 | returns the `include` values in order and logs one entry for each |
| ApiController.QueryTerms.GetClassification | search/controllers/api/__init__.py:313-320 | returns exactly `ClassificationOf` and logs the value only on success |
| ApiController.Logged | search/controllers/api/__init__.py:253 | one entry per pair |
| ApiController.FieldsStep | search/controllers/api/__init__.py:250-251 | the pairs of one more field are those of the fields before followed by its own |
| ApiController.PairsStep | search/controllers/api/__init__.py:252 | one more value is one more pair |
| ApiController.LogStep | search/controllers/api/__init__.py:253 | one more pair logs one more entry |
| ApiController.LoggedConcat | search/controllers/api/__init__.py:253 | logging two stretches of pairs is logging each |
| ApiController.TermStep | search/controllers/api/__init__.py:254-258 | a pair whose field has an operator adds one term with that operator |
| ApiController.OkFinish | search/controllers/api/__init__.py:259-261 | when every pair makes a term, the result is `None` for none and the terms otherwise, and every pair is logged |
| ApiController.FieldLogged | search/controllers/api/__init__.py:250-253 | logging one more field extends the log of the fields before |
| ApiController.ErrorAtField | search/controllers/api/__init__.py:250-258 | the first value of a field without an operator raises `KeyError` for that field, after it is logged |
| ApiController.ErrorStopsLog | search/controllers/api/__init__.py:252-255 | the value whose lookup raises is the last one logged |
| ApiController.FirstMissing | search/controllers/api/__init__.py:254-255 | when the first pairs have operators and the next does not, that one raises and is the last looked at |
| ApiController.FailsAtLast | search/controllers/api/__init__.py:254-255 | a last pair without an operator raises `KeyError`, and its lookup is the last call |
| ApiController.LevelOf | search/controllers/api/__init__.py:292-302 | a value is tried as a group, then an archive, then a category, and is none of them exactly when it is in no table |
| ApiController.ClassificationIds | search/controllers/api/__init__.py:303-310 | the value first, then its unaliased and canonical forms, each only when distinct from those before: one to three distinct ids |
| ApiController.ToClassification | search/controllers/api/__init__.py:289-310 | raises `ValueError` exactly when the value is in no table; otherwise one classification per id, at the level found, starting with the value itself |
| ApiController.ClassificationOf | search/controllers/api/__init__.py:313-320 | fails exactly when the value is in no table, with `BadRequest` naming the parameter and the value |
| ApiController.ClassicIds | search/controllers/api/__init__.py:151-155 | the `id_list` split on commas, empty exactly when the parameter is absent or empty |
| ApiController.ClassicQueryPlan | search/controllers/api/__init__.py:147-198 | `BadRequest` exactly when there are neither ids nor a search query; a search plan exactly when the search query is given and parses, holding the parsed phrase; a given search query that does not parse gives its parse error; the id-only plan has ids |
| ApiController.FilterByIds | search/controllers/api/__init__.py:176-177 | filtering never adds papers |
| ApiController.FilterByIdsMembers | search/controllers/api/__init__.py:176-177 | the kept papers are exactly the results whose `paper_id` or `paper_id_v` is listed |
| ApiController.FilterKeepsAll | search/controllers/api/__init__.py:176-177 | filtering keeps order, so filtering by every result's id keeps them all |
| ApiController.PaperOf | search/controllers/api/__init__.py:228-233 | a found document is returned, a missing one raises `NotFound("No such document")`, and any other lookup error escapes as it is |
| ApiController.FetchAll | search/controllers/api/__init__.py:190 | succeeds exactly when every id's lookup does, with one paper per id in id order |
| ApiController.FetchAllFirstError | search/controllers/api/__init__.py:187-190 | the error is that of the first id whose lookup fails, so one bad id fails the whole request |
| ApiController.ClassicResults | search/controllers/api/__init__.py:163-198 | the id-only plan is the lookups of the ids, failing as they do; a search plan without ids returns the search results; with ids, the results whose `paper_id` or `paper_id_v` is listed, never a paper the search did not return |
| ApiController.ClassicResultsAsWritten | search/controllers/api/__init__.py:175-177 | a search query with an id list raises `AttributeError` on `document_set.results`; every other plan is answered as intended |
| ApiController.SearchWithIdsRaisesAsWritten | search/controllers/api/__init__.py:175-177 | a search with listed ids is answered in the intended code, with no papers when the search found none, and raises in the code as written |
| ClassicApiController.FirstInvalid | search/controllers/classic_api/__init__.py:76-86 | the first id that is not a valid arXiv identifier, with every id before it valid, or none when all are valid |
| ClassicApiController.IdListParam | search/controllers/classic_api/__init__.py:72-88 | an absent or empty `id_list` gives none; otherwise the ids split on commas when all are valid, or the validation error naming the first invalid one |
| ClassicApiController.CountParam | search/controllers/classic_api/__init__.py:90-117 | the absent parameter gives its default; a value that is no integer or is negative fails with the matching message; otherwise its integer value |
| ClassicApiController.CountParamOfNumber | search/controllers/classic_api/__init__.py:90-117 | a printed natural number is read back as itself |
| ClassicApiController.SortByParam | search/controllers/classic_api/__init__.py:120-127 | the absent parameter gives relevance; a value is accepted exactly when it is a sort key's text, and then gives that key |
| ClassicApiController.SortOrderParam | search/controllers/classic_api/__init__.py:128-137 | the absent parameter gives descending; a value is accepted exactly when it is a sort order's text, and then gives that order |
| ClassicApiController.ValidateParams | search/controllers/classic_api/__init__.py:66-137 | succeeds exactly when every parameter validates; otherwise the error is that of the first failing check, in the order id list, `max_results`, `start`, `sortBy`, `sortOrder`; the arguments are the validated values |
| ClassicApiController.Query | search/controllers/classic_api/__init__.py:27-164 | a validation error is returned as is; a search query that does not parse is `BadRequest`; neither phrase nor id list is the `BadRequest` of the controller; otherwise a new query holding the validated arguments and the parsed phrase, with status 200 |
| LegacyClassicController.PhraseParam | search/controllers/classic/__init__.py:67-71 | an absent or empty search query gives no phrase; otherwise the parser's phrase, or the parser's exception |
| LegacyClassicController.IdListParam | search/controllers/classic/__init__.py:74-78 | an absent or empty `id_list` gives none; otherwise ids that join back with commas to the parameter |
| LegacyClassicController.LenientInt | search/controllers/classic/__init__.py:80-92 | the parameter's integer value when it has one, the default when it is absent or no integer |
| LegacyClassicController.LenientIntOfNumber | search/controllers/classic/__init__.py:80-92 | a printed integer is read back as itself |
| LegacyClassicController.Query | search/controllers/classic/__init__.py:27-108 | the parser's exception escapes; neither phrase nor ids is the `BadRequest` of the controller; otherwise a new query with the phrase, the ids, the lenient counts, relevance order descending, and status 200 |
| ControllerUtil.DoesNotStartWithWildcard | search/controllers/util.py:13-27 | empty data passes; data starting with `?` or `*` fails with the leading-wildcard message; otherwise data with some whitespace-separated part starting so fails with the term-wildcard message |
| ControllerUtil.FirstTermStartsAtFirstCharacter | search/controllers/util.py:17-24 | data starting with a wildcard has a first part starting with the same character |
| ControllerUtil.WildcardValidatorMeaning | search/controllers/util.py:13-27 | the validator passes exactly when no whitespace-separated part starts with a wildcard |
| ControllerUtil.HasBalancedQuotes | search/controllers/util.py:30-35 | the only failure is the missing-quote message |
| ControllerUtil.BalancedQuotesMeaning | search/controllers/util.py:30-35 | the validator fails exactly when the data holds an odd number of double quotes |
| ControllerUtil.StripWhiteSpace | search/controllers/util.py:38-42 | no value stays none; a value loses its surrounding whitespace |
| ControllerUtil.StripWhiteSpaceIdempotent | search/controllers/util.py:38-42 | stripping twice is stripping once |
| ControllerUtil.IntArg | search/controllers/util.py:60-61 | an absent key gives its default; a present one its integer value or the `ValueError` |
| ControllerUtil.Paginate | search/controllers/util.py:46-62 | the start is the parameter clamped below at zero and is set before the size is read; the size is the parameter capped at the maximum; either parse failure raises; nothing else changes |
| ControllerUtil.PaginatedPage | search/controllers/util.py:60-61 | a paginated query's page starts at zero or later and spans at most the maximum size |
| ControllerUtil.LetterRunEnd | search/controllers/util.py:10 | the end of the run of letters is within the string and is followed by no letter |
| ControllerUtil.MatchAt | search/controllers/util.py:10 | a match found from `i` ends its surname after `i` with room for `_` and the initial |
| ControllerUtil.RewriteWithoutMatch | search/controllers/util.py:70 | with no match from `i` on, the substitution leaves the rest of the string as it is |
| ControllerUtil.UnderscoresFromIsCount | search/controllers/util.py:70 | the underscores counted from `i` are those of the rest of the string |
| ControllerUtil.RewriteUnderscores | search/controllers/util.py:70 | each substitution removes exactly one underscore, and no other underscore is touched |
| ControllerUtil.MatchStep | search/controllers/util.py:70 | the count holds across one match |
| ControllerUtil.OtherStep | search/controllers/util.py:70 | the count holds across a character that starts no match |
| ControllerUtil.RunUnderscores | search/controllers/util.py:10 | a run of letters holds no underscore |
| ControllerUtil.RewriteMatchUnderscores | search/controllers/util.py:70 | a replaced match contributes no underscore |
| ControllerUtil.ReplacementCounts | search/controllers/util.py:70 | the replacement `, X;` holds no underscore |
| ControllerUtil.RunHasNoUnderscore | search/controllers/util.py:10 | the letters of a run are no underscores |
| ControllerUtil.CatchUnderscoreSyntax | search/controllers/util.py:65-70 | a term without a `surname_X` match is returned unchanged with `False`; one with a match is rewritten, its trailing semicolons stripped, with `True` |
| ControllerUtil.CatchUnderscoreSyntaxRemovesUnderscores | search/controllers/util.py:65-70 | a rewritten term has at least one match, and each match removes exactly one underscore |
| ControllerUtil.SurnameInitialMatches | search/controllers/util.py:10 | for every letter run `w` and letter `c` followed by the end or whitespace, the pattern matches at the start of `w_c` with its underscore right after `w` |
| ControllerUtil.SurnameInitialRewritten | search/controllers/util.py:70 | for every such `w_c` followed by the end or whitespace, the substitution turns it into `w, c;` and resumes right after the initial |
| ControllerUtil.CatchSurnameInitial | search/controllers/util.py:65-70 | for every letter run `w` and letter `c`, the term `w_c` becomes `w, c` with `True` |
| ControllerUtil.CatchSmithJ | search/controllers/util.py:65-70 | `Smith_J` becomes `Smith, J` with `True` |
| ControllerUtil.MatchCountFrom | search/controllers/util.py:67 | a match somewhere after `j` is counted from `j` |
| AdvancedForms.DaysInMonth | search/controllers/advanced/forms.py:70-72 | `calendar.monthrange`: every month has 28 to 31 days |
| AdvancedForms.YearAt | search/controllers/advanced/forms.py:63 | a `%Y` field read at the start is a four-digit year from 0 to 9999 |
| AdvancedForms.MonthAt | search/controllers/advanced/forms.py:63 | a `%m` field read at `i` is a month from 1 to 12 and consumes at least one character |
| AdvancedForms.DayAt | search/controllers/advanced/forms.py:63 | a `%d` field read at `i` is a day from 1 to 31 and consumes at least one character |
| AdvancedForms.Strptime | search/controllers/advanced/forms.py:63 | a parsed date is a valid calendar date; a format without a month gives January 1, one without a day the first of the month |
| AdvancedForms.StrptimeStrftime | search/controllers/advanced/forms.py:54-63 | a date printed in a format parses back to the date truncated to that format |
| AdvancedForms.YearAtPad4 | search/controllers/advanced/forms.py:54-63 | a zero-padded four-digit year is read back |
| AdvancedForms.MonthAtPad2 | search/controllers/advanced/forms.py:54-63 | a zero-padded month is read back |
| AdvancedForms.DayAtPad2 | search/controllers/advanced/forms.py:54-63 | a zero-padded day is read back |
| AdvancedForms.UpperBound | search/controllers/advanced/forms.py:64-73 | rounding up to the end of the period a format leaves open gives a valid date |
| AdvancedForms.UpperBoundIsLast | search/controllers/advanced/forms.py:64-73 | the rounded date is no earlier than any date of the same period |
| AdvancedForms.FirstParse | search/controllers/advanced/forms.py:61-77 | the first format in order that parses the string, with its date, or none exactly when no format parses it |
| AdvancedForms.MultiFormatDateField.constructor | search/controllers/advanced/forms.py:37-48 | the formats and the upper-bound flag are those given; no data yet |
| AdvancedForms.MultiFormatDateField.Process | search/controllers/advanced/forms.py:56-79 | no values leave the data as it was; otherwise the values joined with spaces are parsed by the first format that fits, rounded up when asked, or the data is cleared and `Not a valid date value` raised |
| AdvancedForms.MultiFormatDateField.Value | search/controllers/advanced/forms.py:50-54 | the raw values joined with spaces when there are any; otherwise the data printed in the first format, which parses back to it, or the empty string |
| AdvancedForms.ShowsWhatItWasGiven | search/controllers/advanced/forms.py:50-79 | after processing, a field shows exactly the values it was given, whether they parsed or not |
| AdvancedForms.ReplaceYear | search/controllers/advanced/forms.py:156 | `date.replace(year=...)` keeps month and day and fails exactly for February 29 in a year that is not a leap year |
| AdvancedForms.UpperLimit | search/controllers/advanced/forms.py:156 | the upper limit is a valid date in the next year, the same day whenever that day exists |
| AdvancedForms.YearInBounds | search/controllers/advanced/forms.py:150-158 | no data passes; a date passes exactly when it is between January 1, 1991 and the upper limit; the corrected validator agrees with the source on every day but February 29 |
| AdvancedForms.LeapDayRejectsEveryDate | search/controllers/advanced/forms.py:156 | on February 29 the validator as written raises `ValueError` for a date well within bounds, which the corrected validator accepts |
| AdvancedForms.NothingBefore1991 | search/controllers/advanced/forms.py:155-158 | a date before 1991 always fails, as written and corrected |
| AdvancedForms.ValidateFilterBy | search/controllers/advanced/forms.py:207-218 | a specific year needs a year; a date range needs at least one date, and with both the start strictly before the end; other choices always pass |
| AdvancedForms.DateRangeAccepted | search/controllers/advanced/forms.py:211-218 | a date range passes exactly when some date is given and, when both are, the start is before the end |
| SimpleForms.ValidateQuery | search/controllers/simple/forms.py:52-59 | fails with the too-short message exactly when a search type other than `"None"` is set and the query is empty |
| SimpleForms.Failures | search/controllers/simple/forms.py:17-52 | the messages of the checks that fail, none exactly when every check passes |
| SimpleForms.QueryData | search/controllers/simple/forms.py:19 | the filter strips surrounding whitespace and keeps no data as none |
| SimpleForms.QueryErrors | search/controllers/simple/forms.py:17-59 | the query field has no errors exactly when all three validators pass on the stripped data; the too-short and missing-quote messages appear exactly when their validators fail |
| SimpleForms.WhitespaceOnlyIsTooShort | search/controllers/simple/forms.py:19-59 | with a search type, a query of only whitespace fails with exactly the too-short message |
| SimpleForms.NoSearchTypeSkipsLength | search/controllers/simple/forms.py:54-55 | without a search type the length is not checked and only the wildcard and quote validators decide |
| SimpleForms.StrippingFirstChangesNothing | search/controllers/simple/forms.py:19 | stripping the query before it reaches the form changes no error |
| ClassicQueryBuilder.FieldTermMappingCoverage | search/services/index/classic_api/query_builder.py:11-21 | every field but `Abstract` has a query, and distinct fields give distinct queries |
| ClassicQueryBuilder.TermToQuery | search/services/index/classic_api/query_builder.py:24-33 | an empty term gives the match-all query; any other term translates exactly when its field is not `Abstract`, whose lookup raises `KeyError` |
| ClassicQueryBuilder.QueryBuilderMeaning | search/services/index/classic_api/query_builder.py:36-55 | the builder succeeds exactly on phrases with no non-empty `Abstract` term and only terms under a unary operator, and the query matches exactly when the phrase holds, AND as conjunction, OR as disjunction, ANDNOT and unary as negation |
| ClassicQueryBuilder.EmptyTermInConjunction | search/services/index/classic_api/query_builder.py:33-48 | an empty term joined by AND leaves the other side's meaning unchanged |
| ClassicSearch.UnversionedIds | search/services/index/api_classic/classic_search.py:36 | the ids without a `v`, and only those |
| ClassicSearch.VersionedIds | search/services/index/api_classic/classic_search.py:37 | the ids with a `v`, and only those |
| ClassicSearch.IdPartition | search/services/index/api_classic/classic_search.py:36-37 | every id lands in exactly one of the two lists |
| ClassicSearch.ClassicSearchPlan | search/services/index/api_classic/classic_search.py:9-49 | without a phrase the query matches all; with one it succeeds exactly when the phrase translates; the filter comes from the id list and the sort keys are those given |
| ClassicSearch.IdFilterMeaning | search/services/index/api_classic/classic_search.py:33-47 | with ids, a paper passes exactly when its unversioned id is listed and it is current, or its versioned id is listed; without ids exactly when it is current |
| IndexResults.KeptKey | search/services/index/results.py:27-33 | `email` is dropped, `name` is renamed `full_name`, and any other key is kept as itself exactly when it is a field of `Person` |
| IndexResults.ToAuthor | search/services/index/results.py:24-35 | the loop keeps exactly the renamed fields of `Person`; building the `Person` fails exactly when no `full_name` is left |
| IndexResults.AuthorDataKeys | search/services/index/results.py:26-34 | a key is in the author's data exactly when some entry is kept under it, and never `email` or `name` |
| IndexResults.AuthorDataLastWins | search/services/index/results.py:27-34 | a kept key holds the value of its last entry |
| IndexResults.ToAuthorAsWritten | search/services/index/results.py:24-35 | with `Person` the `TypedDict`, the author raises `AttributeError` exactly when it has an entry other than `email`, and is otherwise empty |
| IndexResults.NamedAuthorRaisesAsWritten | search/services/index/results.py:30-32 | an author with a `name` or `full_name` entry gets its `full_name` from the intended code, and raises in the code as written |
| IndexResults.Chars | search/services/index/results.py:85-86 | iterating a string gives its characters, one string each |
| IndexResults.ConvertField | search/services/index/results.py:66-88 | a non-empty `acm_class` or `msc_class` list is joined with `; `, an empty one is kept, and any other field goes through its own conversion |
| IndexResults.ToDocument | search/services/index/results.py:46-88 | the document holds exactly the document fields present in the hit, each converted |
| IndexResults.SpaceLed | search/services/index/results.py:86 | every joined item but the first is led by a space |
| IndexResults.JoinSemicolonSpace | search/services/index/results.py:86 | joining with `; ` is joining with `;` the items led by a space after the first |
| IndexResults.JoinSpaceFirst | search/services/index/results.py:86 | a space before the first item comes before the whole join |
| IndexResults.JoinedClassesSplit | search/services/index/results.py:86 | class lists without `;` split back at `;` into their items, space-led after the first |
| IndexResults.TruncatedDiv | search/services/index/results.py:130 | `int(a/b)` truncates toward zero |
| IndexResults.ToDocumentSet | search/services/index/results.py:111-149 | a zero page size raises `ZeroDivisionError`; otherwise start, size and total are the query's and the response's, the end is the page end capped at the total, the maximum pages fit `MAX_RESULTS`, and one result per hit, in order |
| IndexResults.ToDocumentAsWritten | search/services/index/results.py:46 | with `Document` the `TypedDict`, every hit raises before a field is copied |
| IndexResults.ToDocumentSetAsWritten | search/services/index/results.py:111-149 | with `Document` the `TypedDict`, a zero page size raises `ZeroDivisionError`, a page with hits raises `AttributeError`, and only a page without hits is returned, empty |
| IndexResults.HitsRaiseAsWritten | search/services/index/results.py:46 | a page with hits gives one document per hit in the intended code, and raises in the code as written |
| IndexResults.PageWithinResults | search/services/index/results.py:136-146 | a page starting within the results ends within them, spans at most its size, and spans all of it unless it reaches the total |
| DomainBase.Query.constructor | search/domain/base.py:221-225 | no order, 50 results from offset 0, older versions and abstracts shown by default flags |
| DomainBase.Query.PageEnd | search/domain/base.py:227-230 | the page ends one page size after its start |
| DomainBase.DefaultPage | search/domain/base.py:221-230 | a default query's page runs from 0 to 50 |
| DomainBase.Display | search/domain/base.py:135-169 | no classification dictionary displays as the empty string; a name is shown as given; otherwise the taxonomy's label for the id, and `KeyError` exactly when the id is missing too |
| DomainBase.ClassificationStringJoins | search/domain/base.py:171-184 | when every present level displays as a non-empty label, the string is those labels joined with ` :: ` |
| DomainBase.AppendShown | search/domain/base.py:174-183 | a present level adds ` :: ` and its label after any label before it, an absent one adds nothing |
| DomainBase.MissingIdRaises | search/domain/base.py:141-144 | a group with neither name nor id raises `KeyError` for `id` |
| DomainBase.ClassificationListString | search/domain/base.py:190-192 | the list renders exactly when each classification does |
| DomainBase.LazyStem | search/domain/base.py:325 | the lazy `(.+?)` stops at the first place from `k` where a version suffix ends the string, or at its end |
| DomainBase.DerivedLatestVersion | search/domain/base.py:322-329 | a set latest version or an empty `latest` is kept; otherwise the derived version is never negative |
| DomainBase.Document.constructor | search/domain/base.py:322-329 | keeps `latest` and derives the latest version from it |
| DomainBase.VersionOfLatest | search/domain/base.py:324-327 | an id ending in `v` and a number has that number as its latest version |
| DomainBase.NoVersionMeansOne | search/domain/base.py:324-329 | an id not ending in a digit has latest version 1 |
| DomainAdvanced.TermStringRoundTrip | search/domain/advanced.py:17-19 | a term renders as `operator field=term`, from which an operator without spaces and a field without `=` are read back with the term |
| DomainAdvanced.ListStringShape | search/domain/advanced.py:25-27 | no terms render as the empty string, one as itself, and each further term is added after `; ` |
| DomainAdvanced.AdvancedFieldsOverride | search/domain/advanced.py:38-53 | the advanced fields are the base query's without `license`, `help` and `full_text`, plus `cross_list_category` |
| DomainAdvanced.AdvancedQuery.constructor | search/domain/advanced.py:55-65 | the base defaults, no date range, no classification, cross-lists included, no terms |
| DomainApi.IncludeFields | search/domain/api.py:40-44 | the included fields are exactly the required fields and those requested, with duplicates merged |
| DomainApi.CardinalityOfSeqSet | search/domain/api.py:43 | merging duplicates never adds fields |
| DomainApi.IncludeFieldsIdempotent | search/domain/api.py:40-44 | building a query from a query's own fields gives the same fields |
| DomainApi.DefaultIncludeFields | search/domain/api.py:10-38 | by default the fields are the five required ones and `title` |
| DomainApi.APIQuery.constructor | search/domain/api.py:28-44 | the base defaults, no date range or classifications or terms, and the requested fields with the required ones added |
| DomainApi.DefaultQueryFields | search/domain/api.py:10-44 | a default API query includes the five required fields and `title` |
| DomainDocuments.MetadataFromDocuments | search/domain/documents.py:112-123 | one page from 0 that holds every document: size, end and total are the count, and every page count is 1 |
| DomainDocuments.DocumentSetFromDocuments | search/domain/documents.py:102-110 | the results are the documents, all of them on the page from 0 |
| DomainDocuments.AgreesWithFirstFullPage | search/domain/documents.py:112-123 | the metadata agrees with that of a search whose first page holds exactly these documents |
| JsonSerializer.GetOrNull | search/serialize/json.py:18-40 | `dict.get`: the value of a present key, `None` for an absent one |
| JsonSerializer.TransformClassification | search/serialize/json.py:15-25 | a classification without a category gives `None`; otherwise exactly its group, archive and category, the first two `None` when missing; a value that is no dictionary raises |
| JsonSerializer.TransformLicense | search/serialize/json.py:61-67 | `None` exactly when the licence has no URI; otherwise exactly its label, `""` when missing, and its URI as `href` |
| JsonSerializer.TransformLatest | search/serialize/json.py:39-57 | `None` when the document has no `latest`; otherwise it succeeds exactly when the document has a `paper_id`, and holds exactly the latest id, the latest version and the two links built for the paper at that version |
| JsonSerializer.TransformFormats | search/serialize/json.py:91-95 | one entry per format, in order, each the format and its link for the paper at its version; a value that is not a list raises |
| JsonSerializer.IsoFormat | search/serialize/json.py:83-90 | only a date has `isoformat`, and it gives the date's ISO text |
| JsonSerializer.Selected | search/serialize/json.py:76-80 | exactly the document's fields that the query includes, or all of them without a query, with their values |
| JsonSerializer.Rewritten | search/serialize/json.py:83-99 | a field present in the data is replaced by its transform, or the transform's error ends the call; all other fields are kept |
| JsonSerializer.WithLinks | search/serialize/json.py:101-104 | adds `href` and `canonical`, replacing any such field, and keeps every other field |
| JsonSerializer.RewritesMeaning | search/serialize/json.py:83-99 | the rewrites succeed exactly when every present rewritten field transforms; they keep the selected keys, leave the other fields as they are and store each transform |
| JsonSerializer.TransformDocumentMeaning | search/serialize/json.py:71-105 | succeeds exactly when the document has `paper_id` and `version` and every rewrite succeeds; the result holds exactly the selected fields and the two links, each link built for the paper at its version, other fields unchanged |
| JsonSerializer.IncludingEverythingIsNoQuery | search/serialize/json.py:76-80 | a query including every field of the document serialises it as no query does |
| JsonSerializer.MapResults | search/serialize/json.py:115-118 | the list succeeds exactly when each element does, and holds each element's result in order |
| JsonSerializer.TransformEntry | search/serialize/json.py:116 | a result entry succeeds exactly when it is a dictionary whose document transforms, and is that transform |
| JsonSerializer.IntOf | search/serialize/json.py:112 | `int` of an integer is itself; of a string, its value exactly when it is an integer's text |
| JsonSerializer.GetOr | search/serialize/json.py:112-124 | `dict.get` with a default |
| JsonSerializer.Serialize | search/serialize/json.py:108-128 | no metadata raises `KeyError`; it succeeds exactly when the metadata is a dictionary whose `total_results` is an integer and every result transforms; the body holds exactly the results and the five metadata fields with their defaults |
| JsonSerializer.AsJson | search/serialize/json.py:141-152 | a mapping with `paper_id` is serialised as one document, any other as a document set |
| RouteSerializer.RouteMetadata | search/routes/api/serialize.py:98-104 | exactly start, end, size, total and query, each the metadata's own value or its default |
| RouteSerializer.Serialize | search/routes/api/serialize.py:92-106 | succeeds exactly when the results are a list that transforms and the metadata a dictionary; the body holds the transformed results and the five metadata fields |
| RouteSerializer.AsJson | search/routes/api/serialize.py:118-123 | a mapping with `paper_id` is serialised as one document, any other as a document set |
| RouteSerializer.SerializersAgree | search/routes/api/serialize.py:92-106 | whenever the newer serialiser succeeds the older one does too, with the same results and the same start, end, size and query |
| ContextProcessors.PageStart | search/routes/context_processors.py:17 | page `p` starts `(p - 1) * size` records in, so never before 0 for a page from 1 on |
| ContextProcessors.PageArgs | search/routes/context_processors.py:16-18 | the request's parameters with `start` set to the page's start as its only value, every other parameter kept |
| ContextProcessors.NextPageStartsOneSizeLater | search/routes/context_processors.py:17 | the next page starts one page size later |
| ContextProcessors.ArgsSansParameters | search/routes/context_processors.py:39-50 | no URL rule raises `ValueError`; otherwise exactly the parameters not removed, each with all its values |
| ContextProcessors.Initials | search/routes/context_processors.py:76 | the first character of each part of the forename, in order |
| ContextProcessors.AuthorName | search/routes/context_processors.py:75-80 | an empty forename gives the surname; any other gives the surname, a comma and the initials joined with spaces |
| ContextProcessors.BlankForename | search/routes/context_processors.py:75-78 | a forename of only whitespace leaves `surname, ` with no initials |
| ContextProcessors.InitialsAreKept | search/routes/context_processors.py:75-78 | a forename already made of initials is kept as it is |
| ContextProcessors.InitialsOfInitials | search/routes/context_processors.py:76 | the initials of initials are themselves |
| ContextProcessors.AuthorSearchQuery | search/routes/context_processors.py:81-83 | the query is `searchtype=author` followed by the name |
| ContextProcessors.ArchiveUrls.constructor | search/routes/context_processors.py:59 | the cache starts empty |
| ContextProcessors.ArchiveUrls.Get | search/routes/context_processors.py:61-67 | a cached key returns its URL and changes nothing; another key computes the URL once and caches it |
| ContextProcessors.ComputedOnce | search/routes/context_processors.py:61-67 | each cached URL was computed exactly once |
| ContextProcessors.DistinctCount | search/routes/context_processors.py:63-66 | a key computed once appears once among the keys computed |
| ContextProcessors.UrlForAuthorSearch | search/routes/context_processors.py:69-85 | the query names the author; with archives in view the base is the cached URL of those archives, and when the key is new it is `url_for` of the archives, added to the cache and recorded as computed once; otherwise the plain search URL with cache and record untouched |
| ContextProcessors.Len | search/routes/context_processors.py:113 | `len` of a list of dates or of a string; anything else has none and raises |
| ContextProcessors.IsCurrent | search/routes/context_processors.py:106-117 | a missing `submitted_date_all` raises; with none, the result is the truth of `is_current`; otherwise the result is never an error, and false only when `is_current` is false or the version differs from the number of dates |
| ContextProcessors.IsCurrentOfWellFormed | search/routes/context_processors.py:111-114 | for a well-formed result, current exactly when flagged current and its version is its number of submission dates |
| ContextProcessors.UncountableDatesCountAsCurrent | search/routes/context_processors.py:110-116 | a result flagged current whose dates cannot be counted is treated as current |
| Filters.LevelLabel | search/filters.py:16-25 | a level without an id raises `KeyError`, since the taxonomy lookup is made before `get` picks the name; it succeeds exactly when the id is known, and then gives the name when present |
| Filters.PresentLevels | search/filters.py:11-25 | one level per classification part that is not `None` |
| Filters.DisplayClassification | search/filters.py:9-27 | succeeds exactly when every present level has a label, and joins the labels with `::` |
| Filters.EagerDefaultRaises | search/filters.py:16-18 | a group with a name but no id raises here, although the domain record would display its name |
| Filters.AgreesWithClassificationString | search/filters.py:9-27 | for a fully labelled classification the filter gives the domain rendering's labels joined with `::` instead of ` :: ` |
| Filters.CategoryName | search/filters.py:30-35 | a missing or empty category raises `No category`; otherwise the category's label |
| Filters.CategoryNameEndsDisplay | search/filters.py:30-35 | the category name ends the classification's display |
| Filters.RenderField | search/filters.py:45-47 | every part starts with the field's name and a colon; a plain value is shown as itself |
| Filters.TruthyFields | search/filters.py:41-44 | only fields with a truthy value are kept |
| Filters.QueryPartsRenderTruthyFields | search/filters.py:40-47 | the parts are the truthy fields, in order, each rendered |
| Filters.DisplayQuery | search/filters.py:38-48 | succeeds exactly when every truthy field renders, and joins the parts with `; ` |
| Filters.QueryPartsErrorPersists | search/filters.py:41-47 | once a field fails to render, the rest of the fields are not read |
| Filters.EmptyQueryShowsNothing | search/filters.py:41-44 | a query with no truthy field has no parts |
| Filters.PartsNameTheirFields | search/filters.py:40-47 | one part per truthy field, each starting with that field's name |
| ArchiveConverter.Resolve | search/converters.py:15-21 | an archive the taxonomy does not know is skipped; a current archive is kept; in a consistent taxonomy a subsumed archive becomes the current archive of its category |
| ArchiveConverter.Kept | search/converters.py:13-21 | never more archives than parts |
| ArchiveConverter.KeptConsistent | search/converters.py:13-21 | in a consistent taxonomy every kept archive is current |
| ArchiveConverter.Parse | search/converters.py:11-24 | no known archive raises `ValidationError`; otherwise the kept archives, never empty |
| ArchiveConverter.ToPython | search/converters.py:11-24 | the loop computes exactly `Parse(t, value)` |
| ArchiveConverter.KeptErrorPersists | search/converters.py:13-21 | once a lookup raises, the rest of the parts are not read |
| ArchiveConverter.KeptCurrent | search/converters.py:13-21 | current archives are kept as they are |
| ArchiveConverter.KeptStep | search/converters.py:13-21 | one more current archive is kept |
| ArchiveConverter.UrlRoundTrip | search/converters.py:11-28 | current archives joined into a URL part parse back to themselves |
| ArchiveConverter.ParseNormalises | search/converters.py:11-28 | parsing the URL part of a parsed value gives the same archives |
| ArchiveConverter.UnknownPartsIgnored | search/converters.py:15-16 | an unknown archive anywhere in the list changes nothing |
| SearchErrors.NewValidationError | search/errors.py:26-31 | a validation error keeps its message and link |
| SearchErrors.Name | search/errors.py:12-14 | the name is the class name |
| SearchErrors.Repr | search/errors.py:20 | `__repr__` is `__str__` |
| SearchErrors.StrFrames | search/errors.py:16-18 | the string is the name, then the message in parentheses |
| SearchErrors.StrDistinguishes | search/errors.py:12-18 | two errors print alike exactly when they have the same class and message |
| SearchErrors.DefaultLink | search/errors.py:26-31 | a validation error without a link gets the default errors page and prints as `ValidationError(message)` |
| UiRoutes.Request.constructor | search/routes/ui.py:52-56 | the request holds the arguments and cookies given |
| UiRoutes.Response.constructor | search/routes/ui.py:97 | a new response has status 200, no headers and no cookies |
| UiRoutes.Response.SetHeaders | search/routes/ui.py:98-99 | the controller's headers are added over the response's own; status and cookies are unchanged |
| UiRoutes.WithDefaultsMeaning | search/routes/ui.py:58-61 | every explicit argument is kept as it is; a missing persisted parameter that the cookie holds is added with the cookie's value; nothing else is added |
| UiRoutes.GetParametersFromCookie | search/routes/ui.py:44-62 | without the cookie the arguments are unchanged; with it they are `WithDefaults` of the decoded cookie; the cookies are unchanged |
| UiRoutes.Persisted | search/routes/ui.py:69-73 | exactly the persisted parameters present in the request, each with its first value |
| UiRoutes.SetParametersInCookie | search/routes/ui.py:66-75 | a response with status 200 gets the cookie of the persisted parameters; any other response is unchanged; status and headers are unchanged |
| UiRoutes.CookieRestoresParameters | search/routes/ui.py:44-75 | a later request without persisted parameters gets back exactly those of the earlier request, with their first values, and keeps its own arguments |
| UiRoutes.Secured | search/routes/ui.py:82-83 | the headers with the framing policy and the frame-options header set, every other header kept |
| UiRoutes.SecuredIdempotent | search/routes/ui.py:82-83 | applying the headers twice is applying them once |
| UiRoutes.ApplyResponseHeaders | search/routes/ui.py:79-84 | the response's headers become `Secured` of the old ones; status and cookies are unchanged |
| UiRoutes.Search | search/routes/ui.py:89-106 | status 200 renders the page with the controller's headers; 301 and 303 redirect to `Location` with the same code, raising `KeyError` without it; any other status raises `InternalServerError` |

## Left out

- Consumer.ProcessStep: a record whose JSON object has no `document_id` is not modelled; the source then calls `index_paper(None)`, whose outcome depends on the collaborators with a `None` id. A payload is either bytes that are not UTF-8, text that is not JSON, JSON that is not an object, or an object with a `document_id`.
- Consumer.ProcessStep: which bytes are valid UTF-8 and which texts are valid JSON is decided outside the model; the record carries the decoder's verdict (`InvalidUtf8`, `InvalidJson`, `NotAnObject`), not its bytes.
- Consumer.WithOneRetry: `time.sleep` between attempts, logging, and the stream and checkpoint machinery of the Kinesis consumer base class are external and not modelled; the collaborators are scripts of outcomes per call.
- UiRoutes.GetParametersFromCookie: the cookie's JSON decoding is the parameter `decode`, assumed to succeed; a malformed cookie, for which `json.loads` raises, is not modelled.
- UiRoutes.SetParametersInCookie: the JSON encoding is the parameter `encode`.
- UiRoutes.Search: `render_template`, `make_response` and the body of `InternalServerError` are Flask calls; only the status dispatch is modelled.
- ClassicQueryBuilder.QueryBuilder: the source's last branch, which gives `Q()` for a phrase of any other shape, is not modelled, because every `Phrase` value is a term, a unary phrase or a binary phrase, so the branch cannot be reached.
- JsonSerializer.Json: there is no floating-point value, and only lists count as iterables (a string or dictionary where a list is expected gives `TypeError`, where Python would iterate its characters or keys).
- Strings.ParseInt: accepts ASCII digits only; Python's `int()` also accepts other Unicode decimal digits.
- IndexResults.ToDocumentSet: `current_page` and `total_pages` are float arithmetic and are not modelled; `int(MAX_RESULTS / size)` is modelled as the truncated integer quotient, which the float division gives exactly for these operands.
- IndexResults.ToDocument: this is the intended behaviour, with `Document` the dataclass of search/domain/base.py; as written, `Document` is the `TypedDict` of search/domain/documents.py and `Document.fields()` raises `AttributeError` on every hit (see "## Findings" and `ToDocumentAsWritten`).
- IndexResults.ToDocumentSet: its results are the intended conversions; as written, every page with hits raises `AttributeError` (see `ToDocumentSetAsWritten`).
- IndexResults.ToDocument: only the loop that copies the fields of `Document` out of a hit and joins `acm_class`/`msc_class` is modelled; the score, the abstract preview, the highlighting and the date parsing that `to_document` also performs are not (the highlighting steps are modelled in `Highlighting`, but not called from here).
- IndexResults.ConvertField: an `acm_class` or `msc_class` holding a string is joined character by character, as Python's `'; '.join` does; other value types are passed through.
- IndexResults.ToAuthor: authors are dictionaries of strings; `Person` is a record of those strings, with only `full_name` required. This is the intended behaviour, with `Person` the dataclass of search/domain/base.py; as written, `Person` is the `TypedDict` of search/domain/documents.py and the loop raises `AttributeError` (see "## Findings" and `ToAuthorAsWritten`).
- IndexResults.KeptKey: states which keys the dataclass `Person` keeps; as written, `Person.fields()` raises before any key other than `email` is kept (see "## Findings").
- IndexResults.AuthorDataKeys: states the keys of the intended `Person`'s arguments; as written no such arguments are gathered, because `Person.fields()` raises (see "## Findings").
- IndexResults.AuthorDataLastWins: states the values of the intended `Person`'s arguments; as written no such arguments are gathered, because `Person.fields()` raises (see "## Findings").
- AdvancedForms.Pad4: years below 1000 render zero-padded to four digits; glibc's `strftime('%Y')`, which `_value` uses, gives fewer digits for them. This affects `AdvancedForms.StrptimeStrftime` and `AdvancedForms.MultiFormatDateField.Value`, whose round trip holds for such years only with the padding.
- AdvancedForms.StrptimeStrftime: the round trip is stated for four-digit zero-padded years; for years below 1000 glibc's `%Y` prints fewer digits (see the `Pad4` line).
- AdvancedForms.MultiFormatDateField.Value: the shown value parses back to the date with the four-digit padded year; for years below 1000 glibc's `%Y` prints fewer digits (see the `Pad4` line).
- AdvancedForms.Strptime: `strptime` and `strftime` are modelled only for the three formats the form uses, over ASCII digits; the current date is a parameter.
- IndexAdvanced.DateRangeQuery: the dates are rendered by `strftime` in the source; the model keeps the format string next to the date. `DateRange`'s `datetime.now()` default is not modelled.
- ClassicSearch.ClassicSearchPlan: `classic_search` imports a module missing from the repository; the sort keys `query.order.to_es()` are a parameter, and the Elasticsearch search session is not modelled.
- ClassicQuery.ClassicAPIQuery: the `SortBy`/`SortOrder` enums come from a module that is not part of this model; their values are the classic API's parameter values.
- ApiController.ClassicResults: `index.SearchSession` is not part of this model; the search's results and the index's document lookup are parameters, and the lookup's other exceptions are named values that escape unchanged. The metadata of the answered `DocumentSet` and the query echoed with it are not modelled. The answer for a search query with an id list is the intended filter; as written that branch raises `AttributeError` (see "## Findings" and `ClassicResultsAsWritten`).
- ClassicApiController.ValidateParams: `parse_arxiv_id` is the parameter `validId`.
- LegacyClassicController.Query: its phrase parser is the parameter `parse`.
- ClassicQueryParser: the Lark grammar and the LALR parser are a library; only the serialiser and the token actions are modelled.
- QueryAlgebra.Q: Elasticsearch queries are an abstract algebra; how Elasticsearch scores and executes them is not modelled.
- ApiController: `SEARCH_FIELDS` and the taxonomy lookups of `_to_classification` are parameters.
- Filters.DisplayClassification: a classification is modelled as the dictionary form the filter's `.get` calls expect (optional `group`, `archive` and `category` dictionaries). The `Classification` the rest of the system passes is the dataclass of search/domain/base.py, which has no `get`, so on it the filter raises `AttributeError`; that case is not modelled.
- Filters.CategoryName: modelled on the dictionary form of a classification, like `DisplayClassification`; on the `Classification` dataclass, `classification.get` raises `AttributeError`, which is not modelled.
- Filters.RenderField: a classification list is rendered through `DisplayClassification` on the dictionary form; with the dataclass items of a `ClassificationList`, a non-empty list raises `AttributeError`, which is not modelled.
- Filters.DisplayQuery: modelled on the dictionary form of classifications; a query whose `classification` list is non-empty holds dataclass items, on which the source raises `AttributeError`, which is not modelled. `AgreesWithClassificationString` relates the filter and the domain rendering on the same parts, but the filter as written only accepts dictionaries and the domain rendering only the dataclass.
- Filters.DisplayQuery: the query's attributes are given as a list of named values with their truthiness and rendering as parameters; the taxonomy's display names are a parameter.
- DomainApi.IncludeFields: the order of `include_fields` after construction comes from a Python set, so the model gives a set.
- ContextProcessors.UrlForAuthorSearch: `url_for`, `urlencode` and `urlparse` are parameters or kept as their parts. Keys are comma-joined as in the source, so `["a,b"]` and `["a", "b"]` share a cache entry.
- ContextProcessors.ArgsSansParameters: `current_url_params` and `url_with_params` are Flask calls; the model works on the request's arguments.
- RouteSerializer: the older serialiser's document transforms are the same code as `JsonSerializer`'s and are taken from it. `AtomXMLSerializer` is a thin layer over feedgen and lxml and is not modelled.
- ArchiveConverter.ToPython: the taxonomy is a parameter.
- SearchErrors.SearchError: errors are values; Python's raise machinery is modelled by `Result` values in the callers.
- Highlighting.EscapeOutside: the HTML `escape` of markupsafe is the parameter `esc`. `_start_safely` is dead code that nothing calls and is not modelled; `highlight()` builds an Elasticsearch request and is not modelled.
- IndexUtil.ParseDatePartial: `DATE_PARTIAL`'s `\d` matches any Unicode decimal digit; the model's are ASCII only.
- IndexUtil.FirstPartial: the same ASCII-only reading of `\d` as `ParseDatePartial`.
- DomainBase.DerivedLatestVersion: the version group `[\d]+` of base.py matches any Unicode decimal digit; the model's digits are ASCII only.
- UiRoutes.Secured: werkzeug's `Headers` compare names without regard to case; the model's headers are a map keyed by the exact name, so a header that differs from `X-Frame-Options` only in case would be a separate entry.
- UiRoutes.Response.SetHeaders: headers are keyed by their exact name, as in `Secured`; werkzeug would replace a header whose name differs only in case.
- ClassicQueryBuilder.IsEmpty: `Term.is_empty` is called by the query builder but not defined in the repository; the model takes a term to be empty when its value is the empty string.
- IndexUtil: the `Q_` helper builds Elasticsearch queries and is not modelled.
- Several loops whose bodies are long (the `query=` scanner, `_get_fielded_terms`, `display_query`) are methods whose inner steps are separate methods, so that each proof stays small; the order of the steps is that of the source.

## Findings

| source | as written | input that shows it | evidently intended | confidence | as-written member | corrected member |
|---|---|---|---|---|---|---|
| search/controllers/advanced/forms.py:156 | the upper limit is `date.today().replace(year=date.today().year + 1)`, which raises `ValueError` when today is February 29 | today 2024-02-29, field date 2000-06-01: the validator fails with "day is out of range for month" instead of passing | an upper limit one year on from any day (February 28 when today is February 29), so that in-range dates pass every day of the year | not executed | AdvancedForms.YearInBoundsAsWritten | AdvancedForms.YearInBounds |
| search/services/index/results.py:32 | `Person.fields()`, where the `Person` imported from search.domain is the `TypedDict` of documents.py (its wildcard import comes last in search/domain/__init__.py), which has no `fields()` | an author `{"name": "Smith"}`: `AttributeError` instead of a person with full name "Smith" | the dataclass `Person` of base.py, whose fields filter the author's keys | not executed | IndexResults.ToAuthorAsWritten | IndexResults.ToAuthor |
| search/controllers/api/__init__.py:176 | `document_set.results` and `paper.paper_id`, attribute reads on the plain dictionaries that `to_documentset` returns (line 172 subscripts the same value) | `search_query=ti:dark&id_list=1234.5678` on a search with no hits: `AttributeError` instead of an empty result list | the listed papers among the search results, `document_set['results']` filtered by `paper['paper_id']` and `paper['paper_id_v']` | not executed | ApiController.ClassicResultsAsWritten | ApiController.ClassicResults |
| search/services/index/results.py:46 | `for key in Document.fields()`, with `Document` the `TypedDict` of documents.py, which has no `fields()` | any search response with at least one hit: `to_documentset` raises `AttributeError` | the dataclass `Document` of base.py, whose fields are copied out of the hit | not executed | IndexResults.ToDocumentSetAsWritten | IndexResults.ToDocumentSet |
