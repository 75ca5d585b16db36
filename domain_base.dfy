/** The base domain records of `search/domain/base.py`: the `Query` every
    search starts from, the `Classification` of a paper and its rendering,
    and the `latest_version` a `Document` derives from its `latest` id. */
module DomainBase {
  import opened Wrappers
  import opened Strings

  /** `Query.MAXIMUM_size`: the most records one request may retrieve. */
  const MaximumSize: int := 2000

  /** The parameter names of `Query.SUPPORTED_FIELDS`, in their order. */
  const SupportedFields: seq<string> :=
    ["all", "title", "author", "abstract", "comments", "journal_ref",
     "acm_class", "msc_class", "report_num", "paper_id", "doi", "orcid",
     "license", "author_id", "help", "full_text"]

  /** A search query as the UI and the API build it; `paginate` and the
      controllers assign its fields in place. */
  class Query {
    var order: Option<string>
    var size: int
    var pageStart: int
    var includeOlderVersions: bool
    var hideAbstracts: bool

    /** The dataclass defaults. */
    constructor ()
      ensures order == None && size == 50 && pageStart == 0
      ensures !includeOlderVersions && !hideAbstracts
    {
      order := None;
      size := 50;
      pageStart := 0;
      includeOlderVersions := false;
      hideAbstracts := false;
    }

    /** `page_end`: the offset just past the last record of the page. */
    function PageEnd(): (r: int)
      reads this
      ensures r - pageStart == size
    {
      pageStart + size
    }
  }

  /** A default query's page runs from 0 to 50. */
  method DefaultPage() returns (start: int, end: int)
    ensures start == 0 && end == 50
  {
    var q := new Query();
    start := q.pageStart;
    end := q.PageEnd();
  }

  /** A calendar date and time of day; `strftime` renderings of it are not
      modelled. */
  datatype DateTime = DateTime(year: int, month: int, day: int, hour: int, minute: int, second: int)

  /** The three dates a paper can be searched by (`DateRange.date_type`). */
  const SubmittedOriginal: string := "submitted_date_first"
  const SubmittedCurrent: string := "submitted_date"
  const Announced: string := "announced_date_first"

  /** An open or closed date range; a missing bound is open. */
  datatype DateRange = DateRange(startDate: Option<DateTime>, endDate: Option<DateTime>, dateType: string)

  // ---------------------------------------------------------------------
  // Classification

  datatype Level = GroupLevel | ArchiveLevel | CategoryLevel

  /** One level of a classification: the dictionary the index stores, with
      an `id` and, when the index has it, a display `name`. */
  type ClassDict = map<string, string>

  /** A paper's classification. Each level is `None` or a dictionary; an
      empty dictionary is present but falsy. */
  datatype Classification = Classification(
    group: Option<ClassDict>,
    archive: Option<ClassDict>,
    category: Option<ClassDict>)

  /** `group_display`, `archive_display` and `category_display`: `""` for a
      missing level, the stored name when there is one, else the taxonomy's
      label for the id (`names`); a level with neither key raises
      `KeyError('id')`. */
  function Display(level: Level, d: Option<ClassDict>, names: (Level, string) -> string): (r: Result<string, string>)
    ensures d.None? ==> r == Ok("")
    ensures d.Some? && "name" in d.value ==> r == Ok(d.value["name"])
    ensures d.Some? && "name" !in d.value ==> (r.Err? <==> "id" !in d.value)
  {
    match d
    case None => Ok("")
    case Some(m) =>
      if "name" in m then Ok(m["name"])
      else if "id" in m then Ok(names(level, m["id"]))
      else Err("id")
  }

  /** Python's truth value of an optional dictionary. */
  predicate Truthy(d: Option<ClassDict>)
  {
    d.Some? && d.value != map[]
  }

  /** One step of `Classification.__str__`: append the display of a truthy
      level, after `" :: "` when something came before. */
  function AppendLevel(s: Result<string, string>, level: Level, d: Option<ClassDict>,
                       names: (Level, string) -> string): Result<string, string>
  {
    if s.Err? || !Truthy(d) then s
    else
      match Display(level, d, names)
      case Err(e) => Err(e)
      case Ok(shown) => Ok(if s.value == "" then shown else s.value + " :: " + shown)
  }

  /** `Classification.__str__`. */
  function ClassificationString(c: Classification, names: (Level, string) -> string): (r: Result<string, string>)
  {
    var s := AppendLevel(Ok(""), GroupLevel, c.group, names);
    var s := AppendLevel(s, ArchiveLevel, c.archive, names);
    AppendLevel(s, CategoryLevel, c.category, names)
  }

  /** The displays of the truthy levels, group first. */
  function PresentLabels(c: Classification, names: (Level, string) -> string): seq<Result<string, string>>
  {
    (if Truthy(c.group) then [Display(GroupLevel, c.group, names)] else [])
    + (if Truthy(c.archive) then [Display(ArchiveLevel, c.archive, names)] else [])
    + (if Truthy(c.category) then [Display(CategoryLevel, c.category, names)] else [])
  }

  /** The text of a display, `""` for one that raises. */
  function Shown(r: Result<string, string>): string
  {
    if r.Ok? then r.value else ""
  }

  /** The texts of the truthy levels' displays, group first. */
  function ShownLabels(c: Classification, names: (Level, string) -> string): seq<string>
  {
    (if Truthy(c.group) then [Shown(Display(GroupLevel, c.group, names))] else [])
    + (if Truthy(c.archive) then [Shown(Display(ArchiveLevel, c.archive, names))] else [])
    + (if Truthy(c.category) then [Shown(Display(CategoryLevel, c.category, names))] else [])
  }

  /** When every present level has a non-empty label, the rendering is the
      labels of the present levels, group then archive then category, joined
      by `" :: "`. */
  lemma ClassificationStringJoins(c: Classification, names: (Level, string) -> string)
    requires forall k :: 0 <= k < |PresentLabels(c, names)| ==>
      PresentLabels(c, names)[k].Ok? && PresentLabels(c, names)[k].value != ""
    ensures ClassificationString(c, names) == Ok(Join(" :: ", ShownLabels(c, names)))
  {
    var ls := PresentLabels(c, names);
    var g := if Truthy(c.group) then [Display(GroupLevel, c.group, names)] else [];
    var a := if Truthy(c.archive) then [Display(ArchiveLevel, c.archive, names)] else [];
    var t := if Truthy(c.category) then [Display(CategoryLevel, c.category, names)] else [];
    assert ls == g + a + t;
    assert Truthy(c.group) ==> ls[0] == Display(GroupLevel, c.group, names);
    assert Truthy(c.archive) ==> ls[|g|] == Display(ArchiveLevel, c.archive, names);
    assert Truthy(c.category) ==> ls[|g| + |a|] == Display(CategoryLevel, c.category, names);
    var sg := if Truthy(c.group) then [Shown(Display(GroupLevel, c.group, names))] else [];
    var sa := if Truthy(c.archive) then [Shown(Display(ArchiveLevel, c.archive, names))] else [];
    var st := if Truthy(c.category) then [Shown(Display(CategoryLevel, c.category, names))] else [];
    assert Join(" :: ", []) == "";
    AppendShown([], GroupLevel, c.group, names);
    assert [] + sg == sg;
    AppendShown(sg, ArchiveLevel, c.archive, names);
    AppendShown(sg + sa, CategoryLevel, c.category, names);
    assert ShownLabels(c, names) == sg + sa + st;
  }

  /** One rendering step extends the join of the labels so far by the
      level's label, when the level is present. */
  lemma AppendShown(prev: seq<string>, level: Level, d: Option<ClassDict>, names: (Level, string) -> string)
    requires forall k :: 0 <= k < |prev| ==> prev[k] != ""
    requires Truthy(d) ==> Display(level, d, names).Ok? && Display(level, d, names).value != ""
    ensures AppendLevel(Ok(Join(" :: ", prev)), level, d, names)
      == Ok(Join(" :: ", prev + if Truthy(d) then [Shown(Display(level, d, names))] else []))
  {
    if Truthy(d) {
      JoinSnoc(" :: ", prev, Shown(Display(level, d, names)));
      if prev != [] {
        JoinNonEmpty(" :: ", prev);
      }
    } else {
      assert prev + [] == prev;
    }
  }

  /** A level whose dictionary has neither a name nor an id makes the
      rendering raise `KeyError('id')`. */
  lemma MissingIdRaises(c: Classification, names: (Level, string) -> string)
    requires Truthy(c.group) && "name" !in c.group.value && "id" !in c.group.value
    ensures ClassificationString(c, names) == Err("id")
  {
  }

  /** `ClassificationList.__str__`: the items' strings joined by `", "`; the
      first item that fails to render raises. */
  function ClassificationListString(cs: seq<Classification>, names: (Level, string) -> string): (r: Result<string, string>)
    ensures r.Ok? <==> forall k :: 0 <= k < |cs| ==> ClassificationString(cs[k], names).Ok?
  {
    var f := (c: Classification) => ClassificationString(c, names);
    MapResultElementwise(cs, f);
    match MapResult(cs, f)
    case Err(e) => Err(e)
    case Ok(parts) => Ok(Join(", ", parts))
  }

  // ---------------------------------------------------------------------
  // Document.latest_version

  /** The characters `.` matches in a Python regex: all but a newline. */
  predicate NoNewline(s: string)
  {
    forall k :: 0 <= k < |s| ==> s[k] != '\n'
  }

  /** `s` is `v` followed by one or more ASCII digits. */
  predicate VersionTail(s: string)
  {
    |s| >= 2 && s[0] == 'v' && AllDigits(s[1..])
  }

  /** The lazy `(.+?)` of `^(.+?)(?:v(?P<version>[\d]+))?$` tries the shortest
      stem first: the first `k >= 1` at which the rest is empty or a version
      tail. */
  function LazyStem(s: string, k: nat): (r: nat)
    requires 1 <= k <= |s|
    ensures k <= r <= |s|
    ensures r == |s| || VersionTail(s[r..])
    ensures forall j :: k <= j < r ==> !VersionTail(s[j..])
    decreases |s| - k
  {
    if k == |s| || VersionTail(s[k..]) then k else LazyStem(s, k + 1)
  }

  /** The regex applied to `latest`: `None` when it does not match, else the
      `version` group (possibly absent). `$` also matches before one final
      newline, and `.` matches no newline. */
  function MatchVersion(latest: string): (r: Option<Option<string>>)
  {
    var body := if latest != [] && latest[|latest| - 1] == '\n' then latest[..|latest| - 1] else latest;
    if body == [] || !NoNewline(body) then None
    else
      var k := LazyStem(body, 1);
      if k == |body| then Some(None) else Some(Some(body[k + 1..]))
  }

  /** `Document.__post_init__`: a zero `latest_version` with a non-empty
      `latest` becomes the version number the regex finds, or 1. */
  function DerivedLatestVersion(latest: string, latestVersion: int): (r: int)
    ensures latestVersion != 0 || latest == [] ==> r == latestVersion
    ensures latestVersion == 0 && latest != [] ==> r >= 0
  {
    if latestVersion == 0 && latest != [] then
      match MatchVersion(latest)
      case Some(Some(digits)) => DigitsValue(digits)
      case _ => 1
    else latestVersion
  }

  /** A paper's search document; only the fields its constructor derives are
      kept. */
  class Document {
    var latest: string
    var latestVersion: int

    constructor (latest: string, latestVersion: int)
      ensures this.latest == latest
      ensures this.latestVersion == DerivedLatestVersion(latest, latestVersion)
    {
      this.latest := latest;
      this.latestVersion := latestVersion;
      if latestVersion == 0 && latest != [] {
        var m := MatchVersion(latest);
        if m.Some? && m.value.Some? {
          this.latestVersion := DigitsValue(m.value.value);
        } else {
          this.latestVersion := 1;
        }
      }
    }
  }

  /** A `latest` id of the form `<stem>v<n>` yields version `n`. */
  lemma VersionOfLatest(stem: string, n: nat)
    requires stem != [] && NoNewline(stem)
    ensures DerivedLatestVersion(stem + "v" + IntToString(n), 0) == n
  {
    var d := IntToString(n);
    var s := stem + "v" + d;
    var m := |stem|;
    assert s[m + 1..] == d;
    assert s[m..] == "v" + d;
    assert s[|s| - 1] == d[|d| - 1];
    assert d[|d| - 1] != '\n';
    assert NoNewline(s);
    assert s[m] == 'v';
    forall j | 1 <= j < m
      ensures !VersionTail(s[j..])
    {
      assert s[j..][1..][m - j - 1] == 'v';
    }
    var k := LazyStem(s, 1);
    assert VersionTail(s[m..]);
    assert k == m;
    DigitsValueOfIntToString(n);
  }

  /** A `latest` id that does not end in a digit has no version group, so
      the version becomes 1. */
  lemma NoVersionMeansOne(latest: string)
    requires latest != [] && !IsDigit(latest[|latest| - 1]) && latest[|latest| - 1] != '\n'
    ensures DerivedLatestVersion(latest, 0) == 1
  {
    forall j | 1 <= j < |latest|
      ensures !VersionTail(latest[j..])
    {
      assert latest[j..][|latest| - 1 - j] == latest[|latest| - 1];
    }
  }
}
