/** The template filters of search/filters.py: the `"::"`-joined label of a
    classification, the name of its category, and the one-line rendering of
    a query's non-empty fields. The taxonomy's display names are a
    parameter: `None` for an id the taxonomy does not know, whose lookup
    raises `KeyError`. */
module Filters {
  import opened Wrappers
  import opened Strings
  import opened DomainBase

  /** The exceptions the filters raise. */
  datatype FilterError = KeyError(key: string) | ValueError(message: string)

  /** The taxonomy's display name of an id at a level. */
  type Taxonomy = (Level, string) -> Option<string>

  /** `d.get("name", get_*_display(d["id"]))`: the default is evaluated
      before the lookup, so the id must be present and known even when the
      dictionary has a name. */
  function LevelLabel(level: Level, d: ClassDict, taxonomy: Taxonomy): (r: Result<string, FilterError>)
    ensures "id" !in d ==> r == Err(KeyError("id"))
    ensures r.Ok? <==> "id" in d && taxonomy(level, d["id"]).Some?
    ensures r.Ok? && "name" in d ==> r.value == d["name"]
  {
    if "id" !in d then Err(KeyError("id"))
    else
      match taxonomy(level, d["id"])
      case None => Err(KeyError(d["id"]))
      case Some(shown) => Ok(if "name" in d then d["name"] else shown)
  }

  /** The levels that are not `None`, group first; an empty dictionary
      counts. */
  function PresentLevels(c: Classification): (r: seq<(Level, ClassDict)>)
    ensures |r| == (if c.group.Some? then 1 else 0) + (if c.archive.Some? then 1 else 0)
                   + (if c.category.Some? then 1 else 0)
  {
    (if c.group.Some? then [(GroupLevel, c.group.value)] else [])
    + (if c.archive.Some? then [(ArchiveLevel, c.archive.value)] else [])
    + (if c.category.Some? then [(CategoryLevel, c.category.value)] else [])
  }

  /** `display_classification`: the labels of the present levels joined by
      `"::"`; the first failing lookup escapes. */
  function DisplayClassification(c: Classification, taxonomy: Taxonomy): (r: Result<string, FilterError>)
    ensures var labels := MapResult(PresentLevels(c), (p: (Level, ClassDict)) => LevelLabel(p.0, p.1, taxonomy));
            (r.Ok? <==> labels.Ok?) && (r.Ok? ==> r.value == Join("::", labels.value))
  {
    match MapResult(PresentLevels(c), (p: (Level, ClassDict)) => LevelLabel(p.0, p.1, taxonomy))
    case Err(e) => Err(e)
    case Ok(labels) => Ok(Join("::", labels))
  }

  /** A level that is present, named and without an id makes the filter
      raise `KeyError('id')`, where the classification's own rendering
      shows the name. */
  lemma EagerDefaultRaises(c: Classification, taxonomy: Taxonomy, names: (Level, string) -> string)
    requires c.group.Some? && "name" in c.group.value && "id" !in c.group.value
    ensures DisplayClassification(c, taxonomy) == Err(KeyError("id"))
    ensures Display(GroupLevel, c.group, names) == Ok(c.group.value["name"])
  {
    var f := (p: (Level, ClassDict)) => LevelLabel(p.0, p.1, taxonomy);
    var ps := PresentLevels(c);
    assert ps[0] == (GroupLevel, c.group.value);
    assert f(ps[0]).Err?;
    MapResultElementwise(ps, f);
    MapResultFirstError(ps, f, 0);
  }

  /** Every present level of the classification is labelled. */
  predicate FullyLabelled(c: Classification, taxonomy: Taxonomy)
  {
    && (c.group.Some? ==> Labelled(GroupLevel, c.group.value, taxonomy))
    && (c.archive.Some? ==> Labelled(ArchiveLevel, c.archive.value, taxonomy))
    && (c.category.Some? ==> Labelled(CategoryLevel, c.category.value, taxonomy))
  }

  /** A level with a non-empty name and an id the taxonomy knows. */
  predicate Labelled(level: Level, d: ClassDict, taxonomy: Taxonomy)
  {
    "id" in d && taxonomy(level, d["id"]).Some? && "name" in d && d["name"] != ""
  }

  /** On a classification whose present levels are all named, known and
      not empty, the filter and `Classification.__str__` show the same
      labels in the same order; only the separator differs (`"::"` against
      `" :: "`). */
  lemma AgreesWithClassificationString(c: Classification, taxonomy: Taxonomy, names: (Level, string) -> string)
    requires FullyLabelled(c, taxonomy)
    requires c.group.Some? ==> c.group.value != map[]
    requires c.archive.Some? ==> c.archive.value != map[]
    requires c.category.Some? ==> c.category.value != map[]
    ensures DisplayClassification(c, taxonomy) == Ok(Join("::", ShownLabels(c, names)))
    ensures ClassificationString(c, names) == Ok(Join(" :: ", ShownLabels(c, names)))
  {
    var f := (p: (Level, ClassDict)) => LevelLabel(p.0, p.1, taxonomy);
    var ps := PresentLevels(c);
    var shown := ShownLabels(c, names);
    var g := if c.group.Some? then [(GroupLevel, c.group.value)] else [];
    var a := if c.archive.Some? then [(ArchiveLevel, c.archive.value)] else [];
    var t := if c.category.Some? then [(CategoryLevel, c.category.value)] else [];
    assert ps == g + a + t;
    var sg := if Truthy(c.group) then [Shown(Display(GroupLevel, c.group, names))] else [];
    var sa := if Truthy(c.archive) then [Shown(Display(ArchiveLevel, c.archive, names))] else [];
    var st := if Truthy(c.category) then [Shown(Display(CategoryLevel, c.category, names))] else [];
    assert shown == sg + sa + st;
    assert |ps| == |shown|;
    forall k | 0 <= k < |ps|
      ensures f(ps[k]) == Ok(shown[k])
    {
      if k < |g| {
        assert ps[k] == (GroupLevel, c.group.value) && shown[k] == c.group.value["name"];
      } else if k < |g| + |a| {
        assert ps[k] == (ArchiveLevel, c.archive.value) && shown[k] == c.archive.value["name"];
      } else {
        assert ps[k] == (CategoryLevel, c.category.value) && shown[k] == c.category.value["name"];
      }
    }
    MapResultElementwise(ps, f);
    assert MapResult(ps, f).value == shown;
    ClassificationStringJoins(c, names);
  }

  /** `category_name`: `ValueError("No category")` for a missing or empty
      category, otherwise the category's label. */
  function CategoryName(c: Classification, taxonomy: Taxonomy): (r: Result<string, FilterError>)
    ensures !Truthy(c.category) <==> r == Err(ValueError("No category"))
    ensures Truthy(c.category) ==> r == LevelLabel(CategoryLevel, c.category.value, taxonomy)
  {
    if !Truthy(c.category) then Err(ValueError("No category"))
    else LevelLabel(CategoryLevel, c.category.value, taxonomy)
  }

  /** The category name is the last label the classification filter
      shows. */
  lemma CategoryNameEndsDisplay(c: Classification, taxonomy: Taxonomy)
    requires Truthy(c.category)
    requires DisplayClassification(c, taxonomy).Ok?
    ensures CategoryName(c, taxonomy).Ok?
    ensures EndsWith(DisplayClassification(c, taxonomy).value, CategoryName(c, taxonomy).value)
  {
    var f := (p: (Level, ClassDict)) => LevelLabel(p.0, p.1, taxonomy);
    var ps := PresentLevels(c);
    var n := |ps| - 1;
    assert ps[n] == (CategoryLevel, c.category.value);
    MapResultElementwise(ps, f);
    var labels := MapResult(ps, f).value;
    assert labels == labels[..n] + [labels[n]];
    JoinSnoc("::", labels[..n], labels[n]);
  }

  // ---------------------------------------------------------------------
  // display_query

  /** The value of a query field: a classification list, or any other value
      with its own truth value and `%s` rendering. */
  datatype FieldValue<V> = Classes(items: seq<Classification>) | Plain(v: V)

  /** A dataclass field of the query, in declaration order. */
  datatype QueryField<V> = QueryField(name: string, value: FieldValue<V>)

  /** The query's classification lists are exactly its `classification`
      field, as the query dataclasses declare them. */
  predicate WellTyped<V>(fields: seq<QueryField<V>>)
  {
    forall i :: 0 <= i < |fields| ==> (fields[i].value.Classes? <==> fields[i].name == "classification")
  }

  /** Python's truth value of a field. */
  predicate FieldTruthy<V>(value: FieldValue<V>, truthy: V -> bool)
  {
    match value
    case Classes(items) => items != []
    case Plain(v) => truthy(v)
  }

  /** `"%s: %s" % (attr, value)`, the classifications shown by the filter
      and joined by `", "`. */
  function RenderField<V>(field: QueryField<V>, show: V -> string, taxonomy: Taxonomy): (r: Result<string, FilterError>)
    ensures r.Ok? ==> StartsWith(r.value, field.name + ": ")
    ensures field.value.Plain? ==> r == Ok(field.name + ": " + show(field.value.v))
  {
    match field.value
    case Plain(v) => Ok(field.name + ": " + show(v))
    case Classes(items) =>
      match MapResult(items, (c: Classification) => DisplayClassification(c, taxonomy))
      case Err(e) => Err(e)
      case Ok(shown) => Ok(field.name + ": " + Join(", ", shown))
  }

  /** The parts the loop of `display_query` collects, field by field:
      falsy fields are skipped; the first failing rendering escapes. */
  function QueryParts<V>(fields: seq<QueryField<V>>, truthy: V -> bool, show: V -> string,
                         taxonomy: Taxonomy): Result<seq<string>, FilterError>
  {
    if fields == [] then Ok([])
    else
      var last := fields[|fields| - 1];
      match QueryParts(fields[..|fields| - 1], truthy, show, taxonomy)
      case Err(e) => Err(e)
      case Ok(parts) =>
        if !FieldTruthy(last.value, truthy) then Ok(parts)
        else
          match RenderField(last, show, taxonomy)
          case Err(e) => Err(e)
          case Ok(part) => Ok(parts + [part])
  }

  /** The truthy fields, in order. */
  function TruthyFields<V>(fields: seq<QueryField<V>>, truthy: V -> bool): (r: seq<QueryField<V>>)
    ensures |r| <= |fields|
  {
    if fields == [] then []
    else
      var last := fields[|fields| - 1];
      TruthyFields(fields[..|fields| - 1], truthy) + (if FieldTruthy(last.value, truthy) then [last] else [])
  }

  /** The loop's parts are the renderings of the truthy fields, in order:
      skipping inside the loop and filtering first agree. */
  lemma {:induction false} QueryPartsRenderTruthyFields<V>(fields: seq<QueryField<V>>, truthy: V -> bool,
                                                            show: V -> string, taxonomy: Taxonomy)
    ensures QueryParts(fields, truthy, show, taxonomy)
            == MapResult(TruthyFields(fields, truthy), (f: QueryField<V>) => RenderField(f, show, taxonomy))
    decreases |fields|
  {
    if fields != [] {
      var init := fields[..|fields| - 1];
      var last := fields[|fields| - 1];
      var render := (f: QueryField<V>) => RenderField(f, show, taxonomy);
      QueryPartsRenderTruthyFields(init, truthy, show, taxonomy);
      var kept := TruthyFields(init, truthy);
      if FieldTruthy(last.value, truthy) {
        var ks := kept + [last];
        assert TruthyFields(fields, truthy) == ks;
        assert ks[..|ks| - 1] == kept;
      } else {
        assert TruthyFields(fields, truthy) == kept + [];
        assert kept + [] == kept;
      }
    }
  }

  /** `display_query`: the non-empty fields as `"name: value"`, in
      declaration order, joined by `"; "`. */
  method DisplayQuery<V>(fields: seq<QueryField<V>>, truthy: V -> bool, show: V -> string,
                         taxonomy: Taxonomy) returns (r: Result<string, FilterError>)
    requires WellTyped(fields)
    ensures var parts := QueryParts(fields, truthy, show, taxonomy);
            (r.Ok? <==> parts.Ok?) && (r.Ok? ==> r.value == Join("; ", parts.value))
  {
    var parts: seq<string> := [];
    for i := 0 to |fields|
      invariant QueryParts(fields[..i], truthy, show, taxonomy) == Ok(parts)
    {
      assert fields[..i + 1][..i] == fields[..i];
      var field := fields[i];
      if !FieldTruthy(field.value, truthy) {
        continue;
      }
      var value: string;
      if field.name == "classification" {
        var shown := MapResult(field.value.items, (c: Classification) => DisplayClassification(c, taxonomy));
        if shown.Err? {
          assert QueryParts(fields[..i + 1], truthy, show, taxonomy).Err?;
          QueryPartsErrorPersists(fields, i + 1, truthy, show, taxonomy);
          return Err(shown.error);
        }
        value := Join(", ", shown.value);
      } else {
        value := show(field.value.v);
      }
      parts := parts + [field.name + ": " + value];
    }
    assert fields[..|fields|] == fields;
    r := Ok(Join("; ", parts));
  }

  /** An error in the first `k` fields is the error of the whole loop. */
  lemma {:induction false} QueryPartsErrorPersists<V>(fields: seq<QueryField<V>>, k: nat, truthy: V -> bool,
                                                      show: V -> string, taxonomy: Taxonomy)
    requires k <= |fields| && QueryParts(fields[..k], truthy, show, taxonomy).Err?
    ensures QueryParts(fields, truthy, show, taxonomy) == QueryParts(fields[..k], truthy, show, taxonomy)
    decreases |fields| - k
  {
    if k < |fields| {
      assert fields[..k + 1][..k] == fields[..k];
      QueryPartsErrorPersists(fields, k + 1, truthy, show, taxonomy);
    } else {
      assert fields[..k] == fields;
    }
  }

  /** A query whose fields are all empty renders as `""`. */
  lemma {:induction false} EmptyQueryShowsNothing<V>(fields: seq<QueryField<V>>, truthy: V -> bool,
                                                     show: V -> string, taxonomy: Taxonomy)
    requires forall i :: 0 <= i < |fields| ==> !FieldTruthy(fields[i].value, truthy)
    ensures QueryParts(fields, truthy, show, taxonomy) == Ok([])
    decreases |fields|
  {
    if fields != [] {
      EmptyQueryShowsNothing(fields[..|fields| - 1], truthy, show, taxonomy);
    }
  }

  /** Every part names its field first. */
  lemma PartsNameTheirFields<V>(fields: seq<QueryField<V>>, truthy: V -> bool, show: V -> string, taxonomy: Taxonomy)
    requires QueryParts(fields, truthy, show, taxonomy).Ok?
    ensures var kept := TruthyFields(fields, truthy);
            var parts := QueryParts(fields, truthy, show, taxonomy).value;
            |parts| == |kept|
            && forall k :: 0 <= k < |parts| ==> StartsWith(parts[k], kept[k].name + ": ")
  {
    var render := (f: QueryField<V>) => RenderField(f, show, taxonomy);
    QueryPartsRenderTruthyFields(fields, truthy, show, taxonomy);
    MapResultElementwise(TruthyFields(fields, truthy), render);
  }
}
