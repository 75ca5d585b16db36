/** The older JSON serialiser of the API routes (search/routes/api/serialize.py).
    Its document transforms (`_transform_classification`, `_transform_format`,
    `_transform_latest`, `_transform_license`, `transform_document`) are the
    same code as those of search/serialize/json.py and are taken from
    `JsonSerializer`; its result-set metadata differ: `total` is passed
    through as it is, with `''` as its default. */
module RouteSerializer {
  import opened Wrappers
  import opened JsonSerializer

  /** The metadata of the response: `''` for each missing offset or total,
      `[]` for a missing query. */
  function RouteMetadata(meta: map<string, Json>): (r: Json)
    ensures r.Obj? && r.fields.Keys == {"start", "end", "size", "total", "query"}
    ensures forall k :: k in r.fields && k in meta ==> r.fields[k] == meta[k]
    ensures forall k :: k in r.fields && k !in meta ==> r.fields[k] == (if k == "query" then Arr([]) else Str(""))
  {
    Obj(map["start" := GetOr(meta, "start", Str("")),
            "end" := GetOr(meta, "end", Str("")),
            "size" := GetOr(meta, "size", Str("")),
            "total" := GetOr(meta, "total", Str("")),
            "query" := GetOr(meta, "query", Arr([]))])
  }

  /** `serialize`: the transformed results and the metadata. */
  function Serialize(documentSet: map<string, Json>, selection: Option<set<string>>, url: UrlFor): (r: Result<Json, SerializeError>)
    ensures r.Ok? <==>
              "results" in documentSet && documentSet["results"].Arr?
              && TransformAll(documentSet["results"].items, selection, url).Ok?
              && "metadata" in documentSet && documentSet["metadata"].Obj?
    ensures r.Ok? ==>
              "results" in documentSet && documentSet["results"].Arr? && "metadata" in documentSet
              && documentSet["metadata"].Obj? && TransformAll(documentSet["results"].items, selection, url).Ok?
              && r.value == Obj(map["results" := Arr(TransformAll(documentSet["results"].items, selection, url).value),
                                    "metadata" := RouteMetadata(documentSet["metadata"].fields)])
  {
    if "results" !in documentSet then Err(KeyError("results"))
    else if !documentSet["results"].Arr? then Err(TypeError)
    else
      match TransformAll(documentSet["results"].items, selection, url)
      case Err(e) => Err(e)
      case Ok(results) =>
        if "metadata" !in documentSet then Err(KeyError("metadata"))
        else if !documentSet["metadata"].Obj? then Err(AttributeError)
        else Ok(Obj(map["results" := Arr(results), "metadata" := RouteMetadata(documentSet["metadata"].fields)]))
  }

  /** `as_json`: a single document exactly when the value has a
      `paper_id`, otherwise a result set. */
  function AsJson(documentOrSet: map<string, Json>, selection: Option<set<string>>, url: UrlFor): (r: Result<Body, SerializeError>)
    ensures r.Ok? ==> (r.value.Single? <==> "paper_id" in documentOrSet)
    ensures "paper_id" in documentOrSet ==>
              (r.Ok? <==> TransformDocument(documentOrSet, selection, url).Ok?)
              && (r.Ok? ==> r.value.document == TransformDocument(documentOrSet, selection, url).value)
    ensures "paper_id" !in documentOrSet ==>
              (r.Ok? <==> Serialize(documentOrSet, selection, url).Ok?)
              && (r.Ok? ==> r.value.body == Serialize(documentOrSet, selection, url).value)
  {
    if "paper_id" in documentOrSet then
      match TransformDocument(documentOrSet, selection, url)
      case Err(e) => Err(e)
      case Ok(d) => Ok(Single(d))
    else
      match Serialize(documentOrSet, selection, url)
      case Err(e) => Err(e)
      case Ok(b) => Ok(Set(b))
  }

  /** The two serialisers send the same results and offsets; where the
      newer one reports `total_results` as an integer, the older one
      reports `total` as stored. */
  lemma SerializersAgree(documentSet: map<string, Json>, selection: Option<set<string>>, url: UrlFor)
    requires JsonSerializer.Serialize(documentSet, selection, url).Ok?
    ensures Serialize(documentSet, selection, url).Ok?
    ensures var older := Serialize(documentSet, selection, url).value.fields;
            var newer := JsonSerializer.Serialize(documentSet, selection, url).value.fields;
            older["results"] == newer["results"]
            && forall k :: k in {"start", "end", "size", "query"} ==>
                 older["metadata"].fields[k] == newer["metadata"].fields[k]
  {
  }
}
