/** The JSON serialiser of the search API (search/serialize/json.py): which
    fields of a document reach the response, how licences, formats and the
    latest version are rendered, and the metadata of a result set.
    Documents are dictionaries of values; `url_for` is passed in as `url`,
    taking the endpoint, the paper id, the version and whether the link is
    external. */
module JsonSerializer {
  import opened Wrappers
  import opened Strings

  /** A value in a document or a response. `Date` is a date or datetime
      object, shown by its `isoformat()`. */
  datatype Json =
    | Null
    | Str(s: string)
    | Int(i: int)
    | Arr(items: seq<Json>)
    | Obj(fields: map<string, Json>)
    | Date(iso: string)

  /** What serialising raises: a missing key read with `[]`, a method
      called on a value of the wrong type, iteration or `int()` of a value
      that does not allow it. */
  datatype SerializeError = KeyError(key: string) | AttributeError | TypeError | ValueError

  type Document = map<string, Json>
  type UrlFor = (Json, Json, Json, bool) -> string

  /** `d.get(key)`: the value, or `None` when the key is absent. */
  function GetOrNull(d: map<string, Json>, key: string): (r: Json)
    ensures key in d ==> r == d[key]
    ensures key !in d ==> r == Null
  {
    if key in d then d[key] else Null
  }

  /** `_transform_classification`: no category gives `None`, else the
      group, archive and category. */
  function TransformClassification(clsn: Json): (r: Result<Json, SerializeError>)
    ensures !clsn.Obj? ==> r == Err(AttributeError)
    ensures clsn.Obj? ==> r.Ok?
    ensures clsn.Obj? && GetOrNull(clsn.fields, "category") == Null ==> r == Ok(Null)
    ensures r.Ok? && r.value != Null ==>
              r.value.Obj? && r.value.fields.Keys == {"group", "archive", "category"}
              && r.value.fields["category"] == clsn.fields["category"] != Null
              && r.value.fields["group"] == GetOrNull(clsn.fields, "group")
              && r.value.fields["archive"] == GetOrNull(clsn.fields, "archive")
  {
    if !clsn.Obj? then Err(AttributeError)
    else
      var category := GetOrNull(clsn.fields, "category");
      if category == Null then Ok(Null)
      else Ok(Obj(map["group" := GetOrNull(clsn.fields, "group"),
                      "archive" := GetOrNull(clsn.fields, "archive"),
                      "category" := category]))
  }

  /** `_transform_license`: no `uri` gives `None`, else its label (empty by
      default) and the uri as the link. */
  function TransformLicense(license: Json): (r: Result<Json, SerializeError>)
    ensures !license.Obj? ==> r == Err(AttributeError)
    ensures license.Obj? ==> r.Ok? && (r.value == Null <==> GetOrNull(license.fields, "uri") == Null)
    ensures r.Ok? && r.value != Null ==>
              r.value.Obj? && r.value.fields.Keys == {"label", "href"}
              && r.value.fields["href"] == license.fields["uri"]
              && r.value.fields["label"] == (if "label" in license.fields then license.fields["label"] else Str(""))
  {
    if !license.Obj? then Err(AttributeError)
    else
      var uri := GetOrNull(license.fields, "uri");
      if uri == Null then Ok(Null)
      else
        var caption := if "label" in license.fields then license.fields["label"] else Str("");
        Ok(Obj(map["label" := caption, "href" := uri]))
  }

  /** `_transform_latest`: `None` without a `latest`, else the latest id,
      its links and the document's `latest_version` as its version. */
  function TransformLatest(doc: Document, url: UrlFor): (r: Result<Json, SerializeError>)
    ensures GetOrNull(doc, "latest") == Null ==> r == Ok(Null)
    ensures GetOrNull(doc, "latest") != Null ==> (r.Ok? <==> "paper_id" in doc)
    ensures r.Ok? && r.value != Null ==>
              r.value.Obj? && r.value.fields.Keys == {"paper_id", "href", "canonical", "version"}
              && r.value.fields["paper_id"] == doc["latest"]
              && r.value.fields["version"] == GetOrNull(doc, "latest_version")
              && r.value.fields["href"] == Str(url(Str("api.paper"), doc["paper_id"], GetOrNull(doc, "latest_version"), true))
              && r.value.fields["canonical"] == Str(url(Str("abs"), doc["paper_id"], GetOrNull(doc, "latest_version"), false))
    ensures r.Err? ==> r.error == KeyError("paper_id")
  {
    var latest := GetOrNull(doc, "latest");
    if latest == Null then Ok(Null)
    else if "paper_id" !in doc then Err(KeyError("paper_id"))
    else
      var version := GetOrNull(doc, "latest_version");
      Ok(Obj(map["paper_id" := latest,
                 "href" := Str(url(Str("api.paper"), doc["paper_id"], version, true)),
                 "canonical" := Str(url(Str("abs"), doc["paper_id"], version, false)),
                 "version" := version]))
  }

  /** `_transform_format` over the document's formats: one entry per
      format, in order. */
  function TransformFormats(formats: Json, paperId: Json, version: Json, url: UrlFor): (r: Result<Json, SerializeError>)
    ensures !formats.Arr? ==> r == Err(TypeError)
    ensures formats.Arr? ==> r.Ok? && r.value.Arr? && |r.value.items| == |formats.items|
    ensures r.Ok? ==> forall i :: 0 <= i < |formats.items| ==>
              r.value.items[i] == Obj(map["format" := formats.items[i],
                                          "href" := Str(url(formats.items[i], paperId, version, false))])
  {
    if !formats.Arr? then Err(TypeError)
    else
      Ok(Arr(seq(|formats.items|, i requires 0 <= i < |formats.items| =>
        Obj(map["format" := formats.items[i], "href" := Str(url(formats.items[i], paperId, version, false))]))))
  }

  /** `isoformat()` of a date or datetime. */
  function IsoFormat(value: Json): (r: Result<Json, SerializeError>)
    ensures value.Date? <==> r.Ok?
    ensures r.Ok? ==> r.value == Str(value.iso)
  {
    if value.Date? then Ok(Str(value.iso)) else Err(AttributeError)
  }

  /** The fields a query lets through: all of them without a query, else
      those among its `include_fields`. */
  function Selected(doc: Document, selection: Option<set<string>>): (data: Document)
    ensures forall k :: k in data <==> k in doc && (selection.None? || k in selection.value)
    ensures forall k :: k in data ==> data[k] == doc[k]
  {
    map k | k in doc && (selection.None? || k in selection.value) :: doc[k]
  }

  /** Replaces `data[key]` by `f`, the rewrite of the document's value,
      when the key was selected; a failing rewrite raises. */
  function Rewritten(r: Result<Document, SerializeError>, key: string, f: Result<Json, SerializeError>): (s: Result<Document, SerializeError>)
    ensures s.Ok? <==> r.Ok? && (key in r.value ==> f.Ok?)
    ensures r.Err? ==> s == r
    ensures r.Ok? && s.Err? ==> s == Err(f.error)
    ensures s.Ok? ==> s.value.Keys == r.value.Keys
    ensures s.Ok? ==> forall k :: k in s.value && k != key ==> s.value[k] == r.value[k]
    ensures s.Ok? && key in s.value ==> s.value[key] == f.value
  {
    if r.Err? || key !in r.value then r
    else if f.Err? then Err(f.error)
    else Ok(r.value[key := f.value])
  }

  /** The in-place rewrites of `transform_document`, in its order: the
      dates in ISO form, then the formats, the licence and the latest
      version. */
  function Rewrites(doc: Document, selection: Option<set<string>>, url: UrlFor): Result<Document, SerializeError>
    requires "paper_id" in doc && "version" in doc
  {
    var data := Ok(Selected(doc, selection));
    var data := Rewritten(data, "submitted_date_first", IsoFormat(GetOrNull(doc, "submitted_date_first")));
    var data := Rewritten(data, "announced_date_first", IsoFormat(GetOrNull(doc, "announced_date_first")));
    var data := Rewritten(data, "formats", TransformFormats(GetOrNull(doc, "formats"), doc["paper_id"], doc["version"], url));
    var data := Rewritten(data, "license", TransformLicense(GetOrNull(doc, "license")));
    Rewritten(data, "latest", TransformLatest(doc, url))
  }

  /** `transform_document`: the selected fields, rewritten, and the links
      to the paper, which are always added. */
  function TransformDocument(doc: Document, selection: Option<set<string>>, url: UrlFor): (r: Result<Document, SerializeError>)
  {
    if "paper_id" !in doc then Err(KeyError("paper_id"))
    else if "version" !in doc then Err(KeyError("version"))
    else
      match Rewrites(doc, selection, url)
      case Err(e) => Err(e)
      case Ok(d) =>
        Ok(WithLinks(d, Str(url(Str("api.paper"), doc["paper_id"], doc["version"], true)),
                     Str(url(Str("abs"), doc["paper_id"], doc["version"], false))))
  }

  /** `data["href"] = href` and `data["canonical"] = canonical`. */
  function WithLinks(data: Document, href: Json, canonical: Json): (r: Document)
    ensures forall k :: k in r <==> k in data || k == "href" || k == "canonical"
    ensures r["href"] == href && r["canonical"] == canonical
    ensures forall k :: k in data && k != "href" && k != "canonical" ==> r[k] == data[k]
  {
    data["href" := href]["canonical" := canonical]
  }

  /** The fields `transform_document` rewrites. */
  const REWRITTEN: set<string> := {"submitted_date_first", "announced_date_first", "formats", "license", "latest"}

  /** The rewrites that apply to a document all succeed. */
  predicate RewritesSucceed(doc: Document, selection: Option<set<string>>, url: UrlFor)
    requires "paper_id" in doc && "version" in doc
  {
    var sel := Selected(doc, selection);
    ("submitted_date_first" in sel ==> IsoFormat(GetOrNull(doc, "submitted_date_first")).Ok?)
    && ("announced_date_first" in sel ==> IsoFormat(GetOrNull(doc, "announced_date_first")).Ok?)
    && ("formats" in sel ==> TransformFormats(GetOrNull(doc, "formats"), doc["paper_id"], doc["version"], url).Ok?)
    && ("license" in sel ==> TransformLicense(GetOrNull(doc, "license")).Ok?)
    && ("latest" in sel ==> TransformLatest(doc, url).Ok?)
  }

  /** The rewrites keep the selected keys, change only the fields they
      rewrite, and fail exactly when one of them fails. */
  lemma RewritesMeaning(doc: Document, selection: Option<set<string>>, url: UrlFor)
    requires "paper_id" in doc && "version" in doc
    ensures Rewrites(doc, selection, url).Ok? <==> RewritesSucceed(doc, selection, url)
    ensures Rewrites(doc, selection, url).Ok? ==>
              var d := Rewrites(doc, selection, url).value;
              d.Keys == Selected(doc, selection).Keys
              && (forall k :: k in d && k !in REWRITTEN ==> d[k] == doc[k])
              && ("license" in d ==> d["license"] == TransformLicense(GetOrNull(doc, "license")).value)
              && ("latest" in d ==> d["latest"] == TransformLatest(doc, url).value)
  {
    var sel := Selected(doc, selection);
    var d1 := Rewritten(Ok(sel), "submitted_date_first", IsoFormat(GetOrNull(doc, "submitted_date_first")));
    var d2 := Rewritten(d1, "announced_date_first", IsoFormat(GetOrNull(doc, "announced_date_first")));
    var d3 := Rewritten(d2, "formats", TransformFormats(GetOrNull(doc, "formats"), doc["paper_id"], doc["version"], url));
    var d4 := Rewritten(d3, "license", TransformLicense(GetOrNull(doc, "license")));
    var d5 := Rewritten(d4, "latest", TransformLatest(doc, url));
    assert Rewrites(doc, selection, url) == d5;
  }

  /** What `transform_document` keeps: exactly the selected fields and the
      two links; the links point at the paper's version; the fields it
      does not rewrite are the document's own; a licence and a latest
      version are their transforms. It fails only on a missing id or
      version or a failing rewrite. */
  lemma TransformDocumentMeaning(doc: Document, selection: Option<set<string>>, url: UrlFor)
    ensures TransformDocument(doc, selection, url).Ok? <==>
              "paper_id" in doc && "version" in doc && RewritesSucceed(doc, selection, url)
    ensures TransformDocument(doc, selection, url).Ok? ==>
              var d := TransformDocument(doc, selection, url).value;
              (forall k :: k in d <==> k == "href" || k == "canonical" || (k in doc && (selection.None? || k in selection.value)))
              && d["href"] == Str(url(Str("api.paper"), doc["paper_id"], doc["version"], true))
              && d["canonical"] == Str(url(Str("abs"), doc["paper_id"], doc["version"], false))
              && (forall k :: k in d && k !in REWRITTEN && k != "href" && k != "canonical" ==> d[k] == doc[k])
              && ("license" in d ==> d["license"] == TransformLicense(GetOrNull(doc, "license")).value)
              && ("latest" in d ==> d["latest"] == TransformLatest(doc, url).value)
  {
    if "paper_id" in doc && "version" in doc {
      RewritesMeaning(doc, selection, url);
      match Rewrites(doc, selection, url)
      case Err(_) =>
      case Ok(r) =>
        var href := Str(url(Str("api.paper"), doc["paper_id"], doc["version"], true));
        var canonical := Str(url(Str("abs"), doc["paper_id"], doc["version"], false));
        assert TransformDocument(doc, selection, url) == Ok(WithLinks(r, href, canonical));
        assert r.Keys == Selected(doc, selection).Keys;
    }
  }

  /** A query that includes every field of the document selects as much as
      no query at all. */
  lemma IncludingEverythingIsNoQuery(doc: Document, selection: set<string>, url: UrlFor)
    requires doc.Keys <= selection
    ensures TransformDocument(doc, Some(selection), url) == TransformDocument(doc, None, url)
  {
    assert Selected(doc, Some(selection)) == Selected(doc, None);
  }

  /** Each value of a list passed through `f`, in order; the first failure
      is raised. */
  function MapResults(items: seq<Json>, f: Json -> Result<Json, SerializeError>): (r: Result<seq<Json>, SerializeError>)
    ensures r.Ok? <==> forall i :: 0 <= i < |items| ==> f(items[i]).Ok?
    ensures r.Ok? ==> |r.value| == |items| && forall i :: 0 <= i < |items| ==> r.value[i] == f(items[i]).value
  {
    if items == [] then Ok([])
    else
      var rest := MapResults(items[1..], f);
      assert forall i :: 1 <= i < |items| ==> items[i] == items[1..][i - 1];
      match f(items[0])
      case Err(e) => Err(e)
      case Ok(first) =>
        match rest
        case Err(e) => Err(e)
        case Ok(tail) =>
          var all := [first] + tail;
          assert forall i :: 1 <= i < |items| ==> all[i] == tail[i - 1];
          Ok(all)
  }

  /** One entry of a result set's `results`, transformed. */
  function TransformEntry(doc: Json, selection: Option<set<string>>, url: UrlFor): (r: Result<Json, SerializeError>)
    ensures r.Ok? <==> doc.Obj? && TransformDocument(doc.fields, selection, url).Ok?
    ensures r.Ok? ==> r.value == Obj(TransformDocument(doc.fields, selection, url).value)
  {
    if !doc.Obj? then Err(AttributeError)
    else
      match TransformDocument(doc.fields, selection, url)
      case Err(e) => Err(e)
      case Ok(d) => Ok(Obj(d))
  }

  /** The documents of a result set, transformed in order. */
  function TransformAll(docs: seq<Json>, selection: Option<set<string>>, url: UrlFor): Result<seq<Json>, SerializeError>
  {
    MapResults(docs, (doc: Json) => TransformEntry(doc, selection, url))
  }

  /** `int(total_results)` for the values the metadata can hold. */
  function IntOf(value: Json): (r: Result<int, SerializeError>)
    ensures value.Int? ==> r == Ok(value.i)
    ensures value.Str? ==> (r.Ok? <==> ParseInt(value.s).Some?)
    ensures value.Str? && r.Ok? ==> ParseInt(value.s) == Some(r.value)
  {
    match value
    case Int(i) => Ok(i)
    case Str(s) => if ParseInt(s).Some? then Ok(ParseInt(s).value) else Err(ValueError)
    case _ => Err(TypeError)
  }

  /** `d.get(key, default)`. */
  function GetOr(d: map<string, Json>, key: string, default: Json): (r: Json)
    ensures key in d ==> r == d[key]
    ensures key !in d ==> r == default
  {
    if key in d then d[key] else default
  }

  /** `serialize`: the transformed results and the metadata, with `''` for
      missing offsets, `[]` for a missing query and `total_results` made an
      integer, 0 when missing. */
  function Serialize(documentSet: map<string, Json>, selection: Option<set<string>>, url: UrlFor): (r: Result<Json, SerializeError>)
    ensures "metadata" !in documentSet ==> r == Err(KeyError("metadata"))
    ensures r.Ok? <==>
              "metadata" in documentSet && documentSet["metadata"].Obj?
              && IntOf(GetOr(documentSet["metadata"].fields, "total_results", Int(0))).Ok?
              && "results" in documentSet && documentSet["results"].Arr?
              && TransformAll(documentSet["results"].items, selection, url).Ok?
    ensures r.Ok? ==>
              "metadata" in documentSet && documentSet["metadata"].Obj?
              && IntOf(GetOr(documentSet["metadata"].fields, "total_results", Int(0))).Ok?
              && "results" in documentSet && documentSet["results"].Arr?
              && TransformAll(documentSet["results"].items, selection, url).Ok?
              && var meta := documentSet["metadata"].fields;
              r.value.Obj? && r.value.fields.Keys == {"results", "metadata"}
              && r.value.fields["metadata"] == Obj(map[
                   "start" := GetOr(meta, "start", Str("")),
                   "end" := GetOr(meta, "end", Str("")),
                   "size" := GetOr(meta, "size", Str("")),
                   "total_results" := Int(IntOf(GetOr(meta, "total_results", Int(0))).value),
                   "query" := GetOr(meta, "query", Arr([]))])
              && r.value.fields["results"] == Arr(TransformAll(documentSet["results"].items, selection, url).value)
  {
    if "metadata" !in documentSet then Err(KeyError("metadata"))
    else if !documentSet["metadata"].Obj? then Err(AttributeError)
    else
      var meta := documentSet["metadata"].fields;
      match IntOf(GetOr(meta, "total_results", Int(0)))
      case Err(e) => Err(e)
      case Ok(total) =>
        if "results" !in documentSet then Err(KeyError("results"))
        else if !documentSet["results"].Arr? then Err(TypeError)
        else
          match TransformAll(documentSet["results"].items, selection, url)
          case Err(e) => Err(e)
          case Ok(results) =>
            Ok(Obj(map["results" := Arr(results),
                       "metadata" := Obj(map["start" := GetOr(meta, "start", Str("")),
                                             "end" := GetOr(meta, "end", Str("")),
                                             "size" := GetOr(meta, "size", Str("")),
                                             "total_results" := Int(total),
                                             "query" := GetOr(meta, "query", Arr([]))])]))
  }

  /** The response body `as_json` produces, before `jsonify`. */
  datatype Body = Single(document: Document) | Set(body: Json)

  /** `as_json`: a single document exactly when the value has a
      `paper_id`, otherwise a result set. */
  function AsJson(documentOrSet: map<string, Json>, selection: Option<set<string>>, url: UrlFor): (r: Result<Body, SerializeError>)
    ensures r.Ok? ==> (r.value.Single? <==> "paper_id" in documentOrSet)
    ensures "paper_id" in documentOrSet ==>
              (r.Ok? <==> TransformDocument(documentOrSet, selection, url).Ok?)
              && (r.Ok? ==> r.value.document == TransformDocument(documentOrSet, selection, url).value)
    ensures "paper_id" !in documentOrSet ==>
              (r.Ok? <==> Serialize(documentOrSet, selection, url).Ok?)
              && (r.Ok? ==> r.value.body == Serialize(documentOrSet, selection, url).value)
  {
    if "paper_id" in documentOrSet then
      match TransformDocument(documentOrSet, selection, url)
      case Err(e) => Err(e)
      case Ok(d) => Ok(Single(d))
    else
      match Serialize(documentOrSet, selection, url)
      case Err(e) => Err(e)
      case Ok(b) => Ok(Set(b))
  }
}
