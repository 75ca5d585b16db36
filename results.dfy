/** Turning the index's response into search results
    (search/services/index/results.py): author records cleaned of private
    keys, the fields of a document copied out of a hit with the class lists
    joined, and the pagination metadata of a result set. */
module IndexResults {
  import opened Wrappers
  import opened Strings
  import IndexUtil
  import DomainBase

  // ---------------------------------------------------------------------
  // _to_author

  /** The fields of `Person`, in declaration order. */
  const PERSON_FIELDS: seq<string> :=
    ["full_name", "last_name", "first_name", "suffix", "affiliation", "orcid", "author_id"]

  /** The key an author entry is stored under: `email` is dropped, `name`
      becomes `full_name`, and anything that is not a `Person` field is
      dropped. */
  function KeptKey(key: string): (r: Option<string>)
    ensures r.Some? ==> r.value in PERSON_FIELDS
    ensures r.Some? <==> key != "email" && (key == "name" || key in PERSON_FIELDS)
    ensures key == "name" ==> r == Some("full_name")
    ensures key != "name" && r.Some? ==> r.value == key
  {
    if key == "email" then None
    else
      var k := if key == "name" then "full_name" else key;
      if k in PERSON_FIELDS then Some(k) else None
  }

  /** The `Person` arguments gathered from the author's entries, taken in
      the dictionary's order, a later entry for the same key overwriting an
      earlier one. */
  function AuthorData<V>(entries: seq<(string, V)>): map<string, V>
  {
    if entries == [] then map[]
    else
      var data := AuthorData(entries[..|entries| - 1]);
      var last := entries[|entries| - 1];
      match KeptKey(last.0)
      case Some(k) => data[k := last.1]
      case None => data
  }

  /** What `_to_author` raises. `MissingFullName` is the `TypeError` of
      building base.py's `Person` dataclass without its one required
      argument, `full_name`; `NoPersonFields` is the `AttributeError` of
      `Person.fields()` on the `TypedDict` of documents.py (see
      `ToAuthorAsWritten`). */
  datatype AuthorError = MissingFullName | NoPersonFields

  /** `_to_author`: the loop over the author's entries, then `Person(**data)`,
      which needs `full_name` among the arguments. */
  method ToAuthor<V>(entries: seq<(string, V)>) returns (r: Result<map<string, V>, AuthorError>)
    ensures r.Ok? <==> "full_name" in AuthorData(entries)
    ensures r.Ok? ==> r.value == AuthorData(entries)
  {
    var data: map<string, V> := map[];
    for i := 0 to |entries|
      invariant data == AuthorData(entries[..i])
    {
      assert entries[..i + 1][..i] == entries[..i];
      var key := entries[i].0;
      if key == "email" {
        continue;
      } else if key == "name" {
        key := "full_name";
      }
      if key !in PERSON_FIELDS {
        continue;
      }
      data := data[key := entries[i].1];
    }
    assert entries[..|entries|] == entries;
    if "full_name" !in data {
      return Err(MissingFullName);
    }
    return Ok(data);
  }

  /** Whether the loop of `_to_author` reaches `Person.fields()`: every
      entry but an `email` one does. */
  predicate LooksUpFields<V>(entries: seq<(string, V)>)
  {
    exists i :: 0 <= i < |entries| && entries[i].0 != "email"
  }

  /** `_to_author` as written. The wildcard imports of search/domain import
      documents.py last, so the `Person` that results.py imports is the
      `TypedDict`, which has no `fields()`: the first entry that is not
      `email` raises `AttributeError`, and an author with no other entry
      becomes an empty dictionary. */
  method ToAuthorAsWritten<V>(entries: seq<(string, V)>) returns (r: Result<map<string, V>, AuthorError>)
    ensures r.Err? <==> LooksUpFields(entries)
    ensures r.Err? ==> r.error == NoPersonFields
    ensures r.Ok? ==> r.value == map[]
  {
    for i := 0 to |entries|
      invariant forall j :: 0 <= j < i ==> entries[j].0 == "email"
    {
      if entries[i].0 == "email" {
        continue;
      }
      return Err(NoPersonFields);
    }
    return Ok(map[]);
  }

  /** Every author that names a person is lost as written: an entry `name`
      or `full_name` gives the intended `Person` its `full_name`, and makes
      the code as written raise. */
  lemma NamedAuthorRaisesAsWritten<V>(entries: seq<(string, V)>, i: nat)
    requires i < |entries| && (entries[i].0 == "name" || entries[i].0 == "full_name")
    ensures "full_name" in AuthorData(entries)
    ensures LooksUpFields(entries)
  {
    AuthorDataKeys(entries, "full_name");
    assert KeptKey(entries[i].0) == Some("full_name");
  }

  /** A key is kept exactly when some entry maps to it; so neither `email`
      nor `name` ever reaches the `Person`. */
  lemma {:induction false} AuthorDataKeys<V>(entries: seq<(string, V)>, k: string)
    ensures k in AuthorData(entries) <==> exists i :: 0 <= i < |entries| && KeptKey(entries[i].0) == Some(k)
    ensures k in AuthorData(entries) ==> k in PERSON_FIELDS && k != "email" && k != "name"
    decreases |entries|
  {
    if entries != [] {
      var init := entries[..|entries| - 1];
      var n := |entries| - 1;
      AuthorDataKeys(init, k);
      if KeptKey(entries[n].0) == Some(k) {
        assert k in AuthorData(entries);
      } else {
        assert k in AuthorData(entries) <==> k in AuthorData(init);
        if k in AuthorData(init) {
          var i :| 0 <= i < |init| && KeptKey(init[i].0) == Some(k);
          assert init[i] == entries[i];
        }
        if exists i :: 0 <= i < |entries| && KeptKey(entries[i].0) == Some(k) {
          var i :| 0 <= i < |entries| && KeptKey(entries[i].0) == Some(k);
          assert i != n;
          assert init[i] == entries[i];
        }
      }
    }
  }

  /** The value kept under a key is that of the last entry mapped to it:
      with both `name` and `full_name` present, whichever comes later wins. */
  lemma {:induction false} AuthorDataLastWins<V>(entries: seq<(string, V)>, i: nat)
    requires i < |entries| && KeptKey(entries[i].0).Some?
    requires forall j :: i < j < |entries| ==> KeptKey(entries[j].0) != KeptKey(entries[i].0)
    ensures KeptKey(entries[i].0).value in AuthorData(entries)
    ensures AuthorData(entries)[KeptKey(entries[i].0).value] == entries[i].1
    decreases |entries|
  {
    if i < |entries| - 1 {
      var init := entries[..|entries| - 1];
      assert init[i] == entries[i];
      forall j | i < j < |init|
        ensures KeptKey(init[j].0) != KeptKey(init[i].0)
      {
        assert init[j] == entries[j];
      }
      AuthorDataLastWins(init, i);
    }
  }

  // ---------------------------------------------------------------------
  // to_document

  /** The fields of `Document`, in declaration order. */
  const DOCUMENT_FIELDS: seq<string> :=
    ["submitted_date", "announced_date_first", "submitted_date_first",
     "submitted_date_latest", "submitted_date_all", "id", "abstract",
     "abstract_tex", "authors", "authors_freeform", "owners", "modified_date",
     "updated_date", "is_current", "is_withdrawn", "license", "paper_id",
     "paper_id_v", "title", "title_tex", "source", "version", "latest",
     "latest_version", "submitter", "report_num", "proxy", "msc_class",
     "acm_class", "metadata_id", "journal_ref", "doi", "comments",
     "abs_categories", "formats", "primary_classification",
     "secondary_classification", "score", "highlight", "preview", "match",
     "truncated"]

  /** A value stored in a hit: a string, a list of strings, or anything
      else, which only the other conversions look at. */
  datatype FieldValue<V> = Text(s: string) | Texts(items: seq<string>) | Other(v: V)

  /** The one-character strings of `s`, which is what Python iterates a
      string as. */
  function Chars(s: string): (r: seq<string>)
    ensures |r| == |s|
    ensures forall i :: 0 <= i < |s| ==> r[i] == [s[i]]
  {
    seq(|s|, i requires 0 <= i < |s| => [s[i]])
  }

  /** `'; '.join(value)` for a list of classes, or for a string, whose
      characters are then what get joined. */
  function JoinClasses<V>(value: FieldValue<V>): FieldValue<V>
    requires !value.Other?
  {
    match value
    case Texts(items) => Text(Join("; ", items))
    case Text(s) => Text(Join("; ", Chars(s)))
  }

  /** Python truthiness of a string or a list. */
  predicate Truthy<V>(value: FieldValue<V>)
  {
    match value
    case Text(s) => s != []
    case Texts(items) => items != []
    case Other(_) => true
  }

  /** The conversion of one field: a non-empty `acm_class` or `msc_class`
      list is joined with `"; "`; the conversions of the other fields
      (classifications, people, dates) are `other`. */
  function ConvertField<V>(key: string, value: FieldValue<V>, other: (string, FieldValue<V>) -> FieldValue<V>): (r: FieldValue<V>)
    ensures (key == "acm_class" || key == "msc_class") && value.Texts? && value.items != [] ==>
              r == Text(Join("; ", value.items))
    ensures (key == "acm_class" || key == "msc_class") && !Truthy(value) ==> r == value
    ensures key != "acm_class" && key != "msc_class" ==> r == other(key, value)
  {
    if key == "acm_class" || key == "msc_class" then
      if Truthy(value) && !value.Other? then JoinClasses(value) else value
    else other(key, value)
  }

  /** `to_document`'s loop over the fields of `Document`: each one the hit
      has is copied, converted. */
  method ToDocument<V>(raw: map<string, FieldValue<V>>, other: (string, FieldValue<V>) -> FieldValue<V>)
    returns (result: map<string, FieldValue<V>>)
    ensures forall k :: k in result <==> k in raw && k in DOCUMENT_FIELDS
    ensures forall k :: k in result ==> result[k] == ConvertField(k, raw[k], other)
  {
    result := map[];
    for i := 0 to |DOCUMENT_FIELDS|
      invariant forall k :: k in result <==> k in raw && k in DOCUMENT_FIELDS[..i]
      invariant forall k :: k in result ==> result[k] == ConvertField(k, raw[k], other)
    {
      var key := DOCUMENT_FIELDS[i];
      assert forall k :: k in DOCUMENT_FIELDS[..i + 1] <==> k in DOCUMENT_FIELDS[..i] || k == key;
      if key !in raw {
        continue;
      }
      result := result[key := ConvertField(key, raw[key], other)];
    }
    assert DOCUMENT_FIELDS[..|DOCUMENT_FIELDS|] == DOCUMENT_FIELDS;
  }

  /** The classes after the first, each preceded by the space of the
      separator. */
  function SpaceLed(items: seq<string>): (r: seq<string>)
    ensures |r| == |items|
    ensures items != [] ==> r[0] == items[0]
    ensures forall i :: 1 <= i < |items| ==> r[i] == " " + items[i]
  {
    if items == [] then [] else [items[0]] + seq(|items| - 1, i requires 0 <= i < |items| - 1 => " " + items[i + 1])
  }

  lemma {:induction false} JoinSemicolonSpace(items: seq<string>)
    ensures Join("; ", items) == Join(";", SpaceLed(items))
    decreases |items|
  {
    if |items| > 1 {
      JoinSemicolonSpace(items[1..]);
      var rest := SpaceLed(items[1..]);
      var led := SpaceLed(items);
      var tail := Join(";", rest);
      assert Join(";", led) == items[0] + ";" + (" " + tail) by {
        assert led[0] == items[0] && led[1..] == [" " + rest[0]] + rest[1..];
        JoinSpaceFirst(rest);
      }
      assert Join("; ", items) == items[0] + "; " + tail;
      assert items[0] + ";" + (" " + tail) == items[0] + "; " + tail by {
        AppendAssoc(items[0] + ";", " ", tail);
        assert items[0] + ";" + " " == items[0] + "; ";
      }
    }
  }

  /** Putting a space in front of the first part puts it in front of the
      join. */
  lemma JoinSpaceFirst(parts: seq<string>)
    requires parts != []
    ensures Join(";", [" " + parts[0]] + parts[1..]) == " " + Join(";", parts)
  {
    var spaced := [" " + parts[0]] + parts[1..];
    if |parts| > 1 {
      assert spaced[1..] == parts[1..];
      AppendAssoc(" " + parts[0], ";", Join(";", parts[1..]));
      AppendAssoc(" ", parts[0], ";" + Join(";", parts[1..]));
      AppendAssoc(parts[0], ";", Join(";", parts[1..]));
    }
  }

  /** The joined class list splits on `;` back into its classes, each after
      the first with the separator's space in front, when no class itself
      holds a `;`. */
  lemma JoinedClassesSplit(items: seq<string>)
    requires items != []
    requires forall i :: 0 <= i < |items| ==> ';' !in items[i]
    ensures Split(Join("; ", items), ';') == SpaceLed(items)
  {
    JoinSemicolonSpace(items);
    var led := SpaceLed(items);
    forall i | 0 <= i < |led|
      ensures ';' !in led[i]
    {
      if i > 0 {
        assert led[i] == " " + items[i];
      }
    }
    SplitJoin(led, ';');
  }

  // ---------------------------------------------------------------------
  // to_documentset

  /** `int(a / b)`: a float division truncated toward zero. For the
      operands here (`MAX_RESULTS` over a page size) the float quotient
      is exact enough that this is the truncated integer quotient. */
  function TruncatedDiv(a: nat, b: int): (q: int)
    requires b != 0
    ensures b > 0 ==> 0 <= q && q * b <= a < (q + 1) * b
    ensures b < 0 ==> q <= 0 && -q * -b <= a < (-q + 1) * -b
  {
    if b > 0 then a / b else -(a / -b)
  }

  /** The pagination metadata of a result set. `current_page` and
      `total_pages` are float arithmetic and are not part of this model. */
  datatype Metadata = Metadata(start: int, end: int, total: int, size: int, maxPages: int)

  datatype DocumentSet<D> = DocumentSet(metadata: Metadata, results: seq<D>)

  /** What `to_documentset` raises: `ZeroDivision` is `MAX_RESULTS /
      query.size` with a size of zero; `NoDocumentFields` is the
      `AttributeError` of `Document.fields()` on the `TypedDict` of
      documents.py (see `ToDocumentAsWritten`). */
  datatype DocumentSetError = ZeroDivision | NoDocumentFields

  /** The pagination metadata of a page of `query.size` results out of
      `total`. */
  function PageMetadata(query: DomainBase.Query, total: nat): Metadata
    reads query
    requires query.size != 0
  {
    var end := if query.pageStart + query.size < total then query.pageStart + query.size else total;
    Metadata(query.pageStart, end, total, query.size, TruncatedDiv(IndexUtil.MAX_RESULTS, query.size))
  }

  /** `to_documentset`: the page's offsets and sizes, how many pages of this
      size fit under `MAX_RESULTS`, and one converted document per hit. */
  function ToDocumentSet<H, D>(query: DomainBase.Query, hits: seq<H>, total: nat, convert: H -> D): (r: Result<DocumentSet<D>, DocumentSetError>)
    reads query
    ensures r.Err? <==> query.size == 0
    ensures r.Ok? ==> r.value.metadata.start == query.pageStart && r.value.metadata.size == query.size
                      && r.value.metadata.total == total
    ensures r.Ok? ==> r.value.metadata.end <= total && r.value.metadata.end <= query.pageStart + query.size
                      && (r.value.metadata.end == total || r.value.metadata.end == query.pageStart + query.size)
    ensures r.Ok? && query.size > 0 ==>
              r.value.metadata.maxPages * query.size <= IndexUtil.MAX_RESULTS < (r.value.metadata.maxPages + 1) * query.size
    ensures r.Ok? ==> |r.value.results| == |hits| && forall i :: 0 <= i < |hits| ==> r.value.results[i] == convert(hits[i])
  {
    if query.size == 0 then Err(ZeroDivision)
    else
      Ok(DocumentSet(PageMetadata(query, total), seq(|hits|, i requires 0 <= i < |hits| => convert(hits[i]))))
  }

  /** `to_document` as written: its loop ranges over `Document.fields()`,
      and the `Document` that results.py imports is the `TypedDict` of
      documents.py, which has no `fields()`; every hit raises before a
      field is copied. */
  function ToDocumentAsWritten<V>(raw: map<string, FieldValue<V>>): (r: Result<map<string, FieldValue<V>>, DocumentSetError>)
    ensures r.Err?
  {
    Err(NoDocumentFields)
  }

  /** `to_documentset` as written, with `to_document` raising on the first
      hit: only a page without hits is returned. */
  function ToDocumentSetAsWritten<V, D>(query: DomainBase.Query, hits: seq<map<string, FieldValue<V>>>, total: nat)
    : (r: Result<DocumentSet<D>, DocumentSetError>)
    reads query
    ensures r.Err? <==> query.size == 0 || hits != []
    ensures query.size != 0 && hits != [] ==> r == Err(NoDocumentFields)
    ensures r.Ok? ==> r.value.results == []
  {
    if query.size == 0 then Err(ZeroDivision)
    else if hits != [] then Err(ToDocumentAsWritten(hits[0]).error)
    else Ok(DocumentSet(PageMetadata(query, total), []))
  }

  /** Every page that has hits is lost as written: the intended conversion
      returns one document per hit, while the code as written raises. */
  lemma HitsRaiseAsWritten<V, D>(query: DomainBase.Query, hits: seq<map<string, FieldValue<V>>>, total: nat,
                                 convert: map<string, FieldValue<V>> -> D)
    requires query.size != 0 && hits != []
    ensures ToDocumentSet(query, hits, total, convert).Ok?
    ensures |ToDocumentSet(query, hits, total, convert).value.results| == |hits|
    ensures ToDocumentSetAsWritten<V, D>(query, hits, total) == Err(NoDocumentFields)
  {
  }

  /** On a page that starts inside the results, the page holds at most one
      size's worth of them and stops at the last one. */
  lemma PageWithinResults<H, D>(query: DomainBase.Query, hits: seq<H>, total: nat, convert: H -> D)
    requires query.size > 0 && 0 <= query.pageStart <= total
    ensures ToDocumentSet(query, hits, total, convert).Ok?
    ensures var m := ToDocumentSet(query, hits, total, convert).value.metadata;
            m.start <= m.end <= total && m.end - m.start <= m.size
            && (m.end < total ==> m.end - m.start == m.size)
  {
  }
}
