/** The API's query record (search/domain/api.py): the fields every API
    response carries, the extra fields shown by default, and the
    normalisation of the requested fields when a query is built. */
module DomainApi {
  import opened Wrappers
  import opened DomainBase
  import opened DomainAdvanced

  /** `get_required_fields`: the fields every response includes. */
  const REQUIRED_FIELDS: seq<string> := ["paper_id", "paper_id_v", "version", "href", "canonical"]

  /** `get_default_extra_fields`: the extra fields shown when none are asked
      for. */
  const DEFAULT_EXTRA_FIELDS: seq<string> := ["title"]

  /** The normalised `include_fields`: the required fields and the requested
      ones, each once. The list is rebuilt from a set, so its order is not
      defined and the model keeps the set. */
  function IncludeFields(requested: seq<string>): (r: set<string>)
    ensures forall f :: f in r <==> f in REQUIRED_FIELDS || f in requested
    ensures |r| <= |REQUIRED_FIELDS| + |requested|
  {
    CardinalityOfSeqSet(REQUIRED_FIELDS + requested);
    set f | f in REQUIRED_FIELDS + requested
  }

  /** A sequence has at most as many distinct elements as it has entries. */
  lemma {:induction false} CardinalityOfSeqSet(s: seq<string>)
    ensures |set f | f in s| <= |s|
    decreases |s|
  {
    if s != [] {
      CardinalityOfSeqSet(s[1..]);
      assert (set f | f in s) == (set f | f in s[1..]) + {s[0]};
    }
  }

  /** Normalising is idempotent: building a query from an already
      normalised field list keeps it as it is. */
  lemma IncludeFieldsIdempotent(requested: seq<string>, listed: seq<string>)
    requires forall f :: f in listed <==> f in IncludeFields(requested)
    ensures IncludeFields(listed) == IncludeFields(requested)
  {
  }

  /** The default query includes exactly the required fields and the title. */
  lemma DefaultIncludeFields()
    ensures IncludeFields(DEFAULT_EXTRA_FIELDS) == {"paper_id", "paper_id_v", "version", "href", "canonical", "title"}
  {
  }

  /** A query from the API. */
  class APIQuery {
    var order: Option<string>
    var size: int
    var pageStart: int
    var includeOlderVersions: bool
    var hideAbstracts: bool
    var dateRange: Option<DateRange>
    var primaryClassification: seq<Classification>
    var secondaryClassification: seq<seq<Classification>>
    var terms: seq<FieldedSearchTerm>
    var includeFields: set<string>

    /** The dataclass defaults, then `__post_init__` merging the required
        fields into the requested ones. */
    constructor (requested: seq<string>)
      ensures order == None && size == 50 && pageStart == 0
      ensures !includeOlderVersions && !hideAbstracts
      ensures dateRange == None && primaryClassification == [] && secondaryClassification == [] && terms == []
      ensures includeFields == IncludeFields(requested)
    {
      order := None;
      size := 50;
      pageStart := 0;
      includeOlderVersions := false;
      hideAbstracts := false;
      dateRange := None;
      primaryClassification := [];
      secondaryClassification := [];
      terms := [];
      includeFields := IncludeFields(requested);
    }
  }

  /** A query built without field selection includes the required fields
      and the title. */
  method DefaultQueryFields() returns (fields: set<string>)
    ensures fields == {"paper_id", "paper_id_v", "version", "href", "canonical", "title"}
  {
    var q := new APIQuery(DEFAULT_EXTRA_FIELDS);
    DefaultIncludeFields();
    fields := q.includeFields;
  }
}
