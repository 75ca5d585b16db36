/** The advanced-search records of `search/domain/advanced.py`: a fielded
    search term, the list of them the advanced form produces and the
    advanced query that carries them. */
module DomainAdvanced {
  import opened Wrappers
  import opened Strings
  import opened DomainBase

  /** One row of the advanced form: `operator` joins it to the rows before. */
  datatype FieldedSearchTerm = FieldedSearchTerm(operator: string, field: string, term: string)

  /** `FieldedSearchTerm.__str__`: `"<operator> <field>=<term>"`. */
  function TermString(t: FieldedSearchTerm): string
  {
    t.operator + " " + t.field + "=" + t.term
  }

  /** Reads a rendered term back: the operator runs to the first space and
      the field to the first `=` after it. */
  function ParseTermString(s: string): Option<FieldedSearchTerm>
  {
    var i := IndexOf(s, ' ');
    if i == |s| then None
    else
      var rest := s[i + 1..];
      var j := IndexOf(rest, '=');
      if j == |rest| then None
      else Some(FieldedSearchTerm(s[..i], rest[..j], rest[j + 1..]))
  }

  /** The rendering keeps all three parts apart: an operator without spaces
      and a field without `=` are recovered from it, and so is the term,
      whatever it holds. */
  lemma TermStringRoundTrip(t: FieldedSearchTerm)
    requires ' ' !in t.operator && '=' !in t.field
    ensures ParseTermString(TermString(t)) == Some(t)
  {
    var s := TermString(t);
    var rest := t.field + "=" + t.term;
    assert s == t.operator + [' '] + rest;
    IndexOfAfter(t.operator, ' ', rest);
    assert rest == t.field + ['='] + t.term;
    IndexOfAfter(t.field, '=', t.term);
  }

  /** `FieldedSearchList.__str__`: the terms' renderings joined by `"; "`. */
  function ListString(items: seq<FieldedSearchTerm>): string
  {
    Join("; ", seq(|items|, k requires 0 <= k < |items| => TermString(items[k])))
  }

  /** An empty list renders as `""`, and only an empty list does; one more
      term adds `"; "` and its rendering. */
  lemma ListStringShape(items: seq<FieldedSearchTerm>, t: FieldedSearchTerm)
    ensures ListString([]) == ""
    ensures ListString([t]) == TermString(t)
    ensures items != [] ==> ListString(items) != ""
    ensures items != [] ==> ListString(items + [t]) == ListString(items) + "; " + TermString(t)
  {
    var ss := seq(|items|, k requires 0 <= k < |items| => TermString(items[k]));
    var ts := seq(|items + [t]|, k requires 0 <= k < |items + [t]| => TermString((items + [t])[k]));
    assert ts == ss + [TermString(t)];
    JoinSnoc("; ", ss, TermString(t));
    if items != [] {
      JoinNonEmpty("; ", ss);
    }
  }

  /** `AdvancedQuery.SUPPORTED_FIELDS`, in their order. */
  const AdvancedSupportedFields: seq<string> :=
    ["title", "author", "abstract", "comments", "journal_ref", "acm_class",
     "msc_class", "report_num", "paper_id", "cross_list_category", "doi",
     "orcid", "author_id", "all"]

  /** The advanced form's fields are the base query's, less `license`,
      `help` and `full_text`, plus `cross_list_category`. */
  lemma AdvancedFieldsOverride()
    ensures forall f :: f in AdvancedSupportedFields <==>
      (f in SupportedFields && f != "license" && f != "help" && f != "full_text")
      || f == "cross_list_category"
  {
  }

  /** A query from the advanced search form. */
  class AdvancedQuery {
    var order: Option<string>
    var size: int
    var pageStart: int
    var includeOlderVersions: bool
    var hideAbstracts: bool
    var dateRange: Option<DateRange>
    var classification: seq<Classification>
    var includeCrossList: bool
    var terms: seq<FieldedSearchTerm>

    /** The dataclass defaults, the base query's included. */
    constructor ()
      ensures order == None && size == 50 && pageStart == 0
      ensures !includeOlderVersions && !hideAbstracts
      ensures dateRange == None && classification == [] && includeCrossList && terms == []
    {
      order := None;
      size := 50;
      pageStart := 0;
      includeOlderVersions := false;
      hideAbstracts := false;
      dateRange := None;
      classification := [];
      includeCrossList := true;
      terms := [];
    }
  }
}
