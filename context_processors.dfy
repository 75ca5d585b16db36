/** The helpers the UI templates receive (search/routes/context_processors.py):
    page links, the current URL without some parameters, author-search
    links with their per-archive URL cache, and whether a result is the
    current version. `url_for`, `urlparse` and `urlencode` are Flask and
    standard-library calls: URLs are passed in or kept as their parts, and a
    query string is kept as the parameters it encodes. */
module ContextProcessors {
  import opened Wrappers
  import opened Strings
  import ApiController

  type MultiDict = ApiController.MultiDict

  // ---------------------------------------------------------------------
  // url_for_page

  /** The offset of the first result of a page. */
  function PageStart(page: int, size: int): (start: int)
    ensures page >= 1 && size >= 0 ==> start >= 0
    ensures start + size == page * size
  {
    (page - 1) * size
  }

  /** `url_for_page`'s parameters: the request's own, with `start` set to
      the page's first offset. */
  function PageArgs(args: MultiDict, page: int, size: int): (r: MultiDict)
    ensures r.Keys == args.Keys + {"start"}
    ensures forall k :: k in args && k != "start" ==> r[k] == args[k]
    ensures |r["start"]| == 1 && ParseInt(r["start"][0]) == Some(PageStart(page, size))
  {
    ParseIntOfIntToString(PageStart(page, size));
    args["start" := [IntToString(PageStart(page, size))]]
  }

  /** Consecutive pages start one page size apart. */
  lemma NextPageStartsOneSizeLater(page: int, size: int)
    ensures PageStart(page + 1, size) == PageStart(page, size) + size
  {
  }

  // ---------------------------------------------------------------------
  // current_url_sans_parameters

  /** What `current_url_sans_parameters` raises without a URL rule. */
  datatype NoUrlRule = NoUrlRule

  /** `current_url_sans_parameters`: the request's parameters without the
      named ones, each popped in turn; a request matched by no URL rule
      raises `ValueError`. */
  method ArgsSansParameters(hasRule: bool, args: MultiDict, paramsToRemove: seq<string>)
    returns (r: Result<MultiDict, NoUrlRule>)
    ensures !hasRule <==> r.Err?
    ensures r.Ok? ==> forall k :: k in r.value <==> k in args && k !in paramsToRemove
    ensures r.Ok? ==> forall k :: k in r.value ==> r.value[k] == args[k]
  {
    if !hasRule {
      return Err(NoUrlRule);
    }
    var remaining := args;
    for i := 0 to |paramsToRemove|
      invariant forall k :: k in remaining <==> k in args && k !in paramsToRemove[..i]
      invariant forall k :: k in remaining ==> remaining[k] == args[k]
    {
      assert forall k :: k in paramsToRemove[..i + 1] <==> k in paramsToRemove[..i] || k == paramsToRemove[i];
      remaining := remaining - {paramsToRemove[i]};
    }
    assert paramsToRemove[..|paramsToRemove|] == paramsToRemove;
    return Ok(remaining);
  }

  // ---------------------------------------------------------------------
  // url_for_author_search

  /** The first character of each part. */
  function Initials(parts: seq<string>): (r: seq<string>)
    requires Words(parts)
    ensures |r| == |parts|
    ensures forall i :: 0 <= i < |parts| ==> r[i] == [parts[i][0]]
  {
    seq(|parts|, i requires 0 <= i < |parts| => [parts[i][0]])
  }

  /** The name searched for: the surname, then, when a forename is given,
      a comma and the forename's initials separated by spaces. */
  function AuthorName(forename: string, surname: string): (name: string)
    ensures forename == [] ==> name == surname
    ensures forename != [] ==>
              name == surname + ", " + Join(" ", Initials(SplitWs(forename)))
  {
    if forename != [] then surname + ", " + Join(" ", Initials(SplitWs(forename))) else surname
  }

  /** A forename of nothing but whitespace still adds the comma. */
  lemma BlankForename(forename: string, surname: string)
    requires forename != [] && forall i :: 0 <= i < |forename| ==> IsSpace(forename[i])
    ensures AuthorName(forename, surname) == surname + ", "
  {
    assert LStrip(forename) == [];
  }

  /** A forename already written as initials is kept as it is. */
  lemma InitialsAreKept(initials: seq<string>, surname: string)
    requires initials != [] && Words(initials)
    requires forall i :: 0 <= i < |initials| ==> |initials[i]| == 1
    ensures AuthorName(Join(" ", initials), surname) == surname + ", " + Join(" ", initials)
  {
    JoinStartsWithWord(initials);
    SplitWsJoin(initials);
    InitialsOfInitials(initials);
  }

  lemma InitialsOfInitials(initials: seq<string>)
    requires Words(initials)
    requires forall i :: 0 <= i < |initials| ==> |initials[i]| == 1
    ensures Initials(initials) == initials
  {
    forall i | 0 <= i < |initials|
      ensures Initials(initials)[i] == initials[i]
    {
      assert |initials[i]| == 1;
    }
  }

  /** The query of an author search link: exactly the search type and the
      name, in that order. */
  function AuthorSearchQuery(forename: string, surname: string): (q: seq<(string, string)>)
    ensures |q| == 2 && q[0] == ("searchtype", "author") && q[1] == ("query", AuthorName(forename, surname))
  {
    [("searchtype", "author"), ("query", AuthorName(forename, surname))]
  }

  /** The URLs of archive-restricted searches, computed by `url_for` once
      per key and kept for the life of the template helper. */
  class ArchiveUrls<U> {
    var cache: map<string, U>
    /** The keys `url_for` was called for, in order. */
    ghost var computed: seq<string>

    ghost predicate Valid()
      reads this
    {
      (forall k :: k in cache <==> k in computed)
      && forall i, j :: 0 <= i < j < |computed| ==> computed[i] != computed[j]
    }

    constructor ()
      ensures Valid() && cache == map[] && computed == []
    {
      cache := map[];
      computed := [];
    }

    /** `get_archives_url`: the cached URL for the comma-joined archives,
        computed with `urlFor` only when the key is new. */
    method Get(archives: seq<string>, urlFor: seq<string> -> U) returns (url: U)
      requires Valid()
      modifies this
      ensures Valid()
      ensures Join(",", archives) in old(cache) ==>
                url == old(cache)[Join(",", archives)] && cache == old(cache) && computed == old(computed)
      ensures Join(",", archives) !in old(cache) ==>
                url == urlFor(archives) && cache == old(cache)[Join(",", archives) := url]
                && computed == old(computed) + [Join(",", archives)]
    {
      var key := Join(",", archives);
      if key !in cache {
        cache := cache[key := urlFor(archives)];
        computed := computed + [key];
      }
      url := cache[key];
    }
  }

  /** However often a key is asked for, `url_for` ran for it once. */
  lemma ComputedOnce<U>(cache: ArchiveUrls<U>, key: string)
    requires cache.Valid() && key in cache.cache
    ensures multiset(cache.computed)[key] == 1
  {
    var i :| 0 <= i < |cache.computed| && cache.computed[i] == key;
    DistinctCount(cache.computed, i);
  }

  lemma {:induction false} DistinctCount(s: seq<string>, i: nat)
    requires i < |s|
    requires forall a, b :: 0 <= a < b < |s| ==> s[a] != s[b]
    ensures multiset(s)[s[i]] == 1
    decreases |s|
  {
    var t := s[..|s| - 1];
    assert s == t + [s[|s| - 1]];
    if i < |s| - 1 {
      DistinctCount(t, i);
      assert t[i] == s[i];
      assert s[|s| - 1] != s[i];
    } else {
      assert s[i] !in t by {
        forall a | 0 <= a < |t|
          ensures t[a] != s[i]
        {
          assert t[a] == s[a];
        }
      }
    }
  }

  /** `url_for_author_search`: inside an archive context the archive's
      search URL, otherwise the plain search URL, with the author query. */
  method UrlForAuthorSearch<U>(urls: ArchiveUrls<U>, searchUrl: U, viewArchives: Option<seq<string>>,
                                 forename: string, surname: string, urlFor: seq<string> -> U)
    returns (base: U, query: seq<(string, string)>)
    requires urls.Valid()
    modifies urls
    ensures urls.Valid()
    ensures query == AuthorSearchQuery(forename, surname)
    ensures viewArchives.None? || viewArchives.value == [] ==>
              base == searchUrl && urls.cache == old(urls.cache) && urls.computed == old(urls.computed)
    ensures viewArchives.Some? && viewArchives.value != [] ==>
              var key := Join(",", viewArchives.value);
              key in urls.cache && base == urls.cache[key]
              && (key in old(urls.cache) ==>
                    base == old(urls.cache)[key] && urls.cache == old(urls.cache)
                    && urls.computed == old(urls.computed))
              && (key !in old(urls.cache) ==>
                    base == urlFor(viewArchives.value) && urls.cache == old(urls.cache)[key := base]
                    && urls.computed == old(urls.computed) + [key])
  {
    if viewArchives.Some? && viewArchives.value != [] {
      base := urls.Get(viewArchives.value, urlFor);
    } else {
      base := searchUrl;
    }
    query := AuthorSearchQuery(forename, surname);
  }

  // ---------------------------------------------------------------------
  // is_current

  /** A value of a search result as `is_current` sees it. */
  datatype Value = NoneValue | Flag(b: bool) | Number(n: int) | Dates(items: seq<string>) | Text(s: string)

  /** Python truthiness. */
  predicate Truthy(v: Value)
  {
    match v
    case NoneValue => false
    case Flag(b) => b
    case Number(n) => n != 0
    case Dates(items) => items != []
    case Text(s) => s != []
  }

  /** `len(v)`, where it is defined. */
  function Len(v: Value): (r: Option<nat>)
    ensures v.Dates? ==> r == Some(|v.items|)
    ensures v.Text? ==> r == Some(|v.s|)
    ensures r.None? <==> !v.Dates? && !v.Text?
  {
    match v
    case Dates(items) => Some(|items|)
    case Text(s) => Some(|s|)
    case _ => None
  }

  /** `v == n` for an integer `n`; a boolean compares as 0 or 1. */
  predicate EqualsInt(v: Value, n: int)
  {
    match v
    case Number(m) => m == n
    case Flag(b) => (if b then 1 else 0) == n
    case _ => false
  }

  /** What `is_current` raises outside its `try`: a missing key. */
  datatype MissingKey = MissingKey(key: string)

  /** `is_current`: without submission dates, the result's own flag;
      otherwise the flag and a version equal to the number of submission
      dates, any error in that comparison counting as current. */
  function IsCurrent(result: map<string, Value>): (r: Result<bool, MissingKey>)
    ensures "submitted_date_all" !in result ==> r == Err(MissingKey("submitted_date_all"))
    ensures "submitted_date_all" in result && result["submitted_date_all"] == NoneValue ==>
              (if "is_current" in result then r == Ok(Truthy(result["is_current"]))
               else r == Err(MissingKey("is_current")))
    ensures "submitted_date_all" in result && result["submitted_date_all"] != NoneValue ==> r.Ok?
    ensures r == Ok(false) ==>
              "is_current" in result
              && (!Truthy(result["is_current"])
                  || ("version" in result && "submitted_date_all" in result && Len(result["submitted_date_all"]).Some?
                      && !EqualsInt(result["version"], Len(result["submitted_date_all"]).value)))
  {
    if "submitted_date_all" !in result then Err(MissingKey("submitted_date_all"))
    else if result["submitted_date_all"] == NoneValue then
      if "is_current" in result then Ok(Truthy(result["is_current"])) else Err(MissingKey("is_current"))
    else if "is_current" !in result then Ok(true)
    else if !Truthy(result["is_current"]) then Ok(false)
    else if "version" !in result then Ok(true)
    else
      match Len(result["submitted_date_all"])
      case None => Ok(true)
      case Some(n) => Ok(EqualsInt(result["version"], n))
  }

  /** For a well-formed result, current means flagged current and at the
      version numbered by its count of submissions. */
  lemma IsCurrentOfWellFormed(flag: bool, version: int, dates: seq<string>, rest: map<string, Value>)
    ensures IsCurrent(rest["is_current" := Flag(flag)]["version" := Number(version)]["submitted_date_all" := Dates(dates)])
            == Ok(flag && version == |dates|)
  {
  }

  /** A result whose submission dates cannot be counted counts as current
      when it is flagged current. */
  lemma UncountableDatesCountAsCurrent(result: map<string, Value>)
    requires "submitted_date_all" in result && result["submitted_date_all"] != NoneValue
    requires Len(result["submitted_date_all"]).None?
    requires "is_current" in result && Truthy(result["is_current"])
    ensures IsCurrent(result) == Ok(true)
  {
  }
}
