/** How the index service prepares a search for a classic API query
    (search/services/index/api_classic/classic_search.py): the query from
    the phrase, a filter from the id list, and the sort. */
module ClassicSearch {
  import opened Wrappers
  import opened Phrases
  import QA = QueryAlgebra
  import ClassicQueryBuilder
  import ClassicQuery

  /** The prepared search: its filter, its query and its sort keys. */
  datatype ClassicPlan = ClassicPlan(filter: QA.Q, query: QA.Q, sort: seq<string>)

  /** An id names a version when it contains a `v`. */
  predicate Versioned(id: string)
  {
    'v' in id
  }

  /** The ids without a version, in order. */
  function UnversionedIds(ids: seq<string>): (r: seq<string>)
    ensures forall id :: id in r <==> id in ids && !Versioned(id)
    ensures |r| <= |ids|
  {
    if ids == [] then []
    else
      var rest := UnversionedIds(ids[1..]);
      assert forall id :: id in ids <==> id == ids[0] || id in ids[1..];
      if Versioned(ids[0]) then rest else [ids[0]] + rest
  }

  /** The ids with a version, in order. */
  function VersionedIds(ids: seq<string>): (r: seq<string>)
    ensures forall id :: id in r <==> id in ids && Versioned(id)
    ensures |r| <= |ids|
  {
    if ids == [] then []
    else
      var rest := VersionedIds(ids[1..]);
      assert forall id :: id in ids <==> id == ids[0] || id in ids[1..];
      if Versioned(ids[0]) then [ids[0]] + rest else rest
  }

  /** Every occurrence of every id lands in exactly one of the two groups. */
  lemma {:induction false} IdPartition(ids: seq<string>)
    ensures multiset(UnversionedIds(ids)) + multiset(VersionedIds(ids)) == multiset(ids)
    ensures |UnversionedIds(ids)| + |VersionedIds(ids)| == |ids|
  {
    if ids != [] {
      IdPartition(ids[1..]);
      assert ids == [ids[0]] + ids[1..];
    }
  }

  /** The filter: with a non-empty id list, the current version of each
      unversioned id or exactly the named version of each versioned id;
      otherwise only current versions. */
  function IdFilter(idList: Option<seq<string>>): QA.Q
  {
    if idList.Some? && idList.value != [] then
      QA.Or(QA.And(QA.TermsFilter("paper_id", UnversionedIds(idList.value)), QA.CurrentOnly),
            QA.TermsFilter("paper_id_v", VersionedIds(idList.value)))
    else QA.CurrentOnly
  }

  /** `classic_search`: the phrase's translation when there is a phrase,
      else the match-all query; the id filter; the query's sort keys
      (`query.order.to_es()`, passed in). A phrase the builder cannot
      translate raises before anything else is set. */
  function ClassicSearchPlan(query: ClassicQuery.ClassicAPIQuery, sortKeys: seq<string>): (r: Result<ClassicPlan, ClassicQueryBuilder.BuildError>)
    reads query
    ensures query.phrase.None? ==> r == Ok(ClassicPlan(IdFilter(query.idList), QA.MatchAll, sortKeys))
    ensures query.phrase.Some? ==>
              (r.Ok? <==> ClassicQueryBuilder.Translatable(query.phrase.value))
    ensures r.Ok? ==> r.value.filter == IdFilter(query.idList) && r.value.sort == sortKeys
  {
    if query.phrase.None? then Ok(ClassicPlan(IdFilter(query.idList), QA.MatchAll, sortKeys))
    else
      ClassicQueryBuilder.QueryBuilderMeaning(query.phrase.value, (q: QA.Q) => true);
      match ClassicQueryBuilder.QueryBuilder(query.phrase.value)
      case Err(e) => Err(e)
      case Ok(q) => Ok(ClassicPlan(IdFilter(query.idList), q, sortKeys))
  }

  /** A stored paper version as the filters see it. */
  datatype Paper = Paper(paperId: string, paperIdV: string, isCurrent: bool)

  /** Whether a paper satisfies a leaf filter: `term`/`terms` filters on
      its id fields and its current flag. Leaves the filters do not use
      are left to `other`. */
  function PaperLeaf(p: Paper, other: QA.Q -> bool): QA.Q -> bool
  {
    (q: QA.Q) =>
      match q
      case TermsFilter(f, vs) =>
        if f == "paper_id" then p.paperId in vs
        else if f == "paper_id_v" then p.paperIdV in vs
        else other(q)
      case TermFilter(f, v) =>
        if f == "is_current" && v == "True" then p.isCurrent else other(q)
      case _ => other(q)
  }

  /** A paper passes the filter of a non-empty id list exactly when it is
      the current version of an id listed without a version, or it is a
      version listed explicitly; without an id list exactly when it is
      current. */
  lemma IdFilterMeaning(idList: Option<seq<string>>, p: Paper, other: QA.Q -> bool)
    ensures idList.Some? && idList.value != [] ==>
              (QA.Matches(IdFilter(idList), PaperLeaf(p, other)) <==>
               (p.paperId in idList.value && !Versioned(p.paperId) && p.isCurrent) ||
               (p.paperIdV in idList.value && Versioned(p.paperIdV)))
    ensures idList.None? || idList.value == [] ==>
              (QA.Matches(IdFilter(idList), PaperLeaf(p, other)) <==> p.isCurrent)
  {
    var leaf := PaperLeaf(p, other);
    assert leaf(QA.CurrentOnly) == p.isCurrent;
    if idList.Some? && idList.value != [] {
      var ids := idList.value;
      var plain := QA.TermsFilter("paper_id", UnversionedIds(ids));
      var versioned := QA.TermsFilter("paper_id_v", VersionedIds(ids));
      assert QA.Matches(plain, leaf) == (p.paperId in UnversionedIds(ids));
      assert QA.Matches(versioned, leaf) == (p.paperIdV in VersionedIds(ids));
      assert QA.Matches(QA.CurrentOnly, leaf) == p.isCurrent;
      assert IdFilter(idList) == QA.Or(QA.And(plain, QA.CurrentOnly), versioned);
    }
  }
}
