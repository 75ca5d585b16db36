/** The route converter for comma-separated archive lists in URL paths
    (search/converters.py). The taxonomy it consults is a parameter: the
    known archives, the subsumed archives with the category each was folded
    into, and the archive each category belongs to. */
module ArchiveConverter {
  import opened Wrappers
  import opened Strings

  /** The parts of `arxiv.taxonomy` the converter reads. */
  datatype Taxonomy = Taxonomy(
    archives: set<string>,
    subsumed: map<string, string>,
    inArchive: map<string, string>)

  /** Why a path part is refused: werkzeug's `ValidationError` when no
      archive is left, `KeyError` for a subsumed archive whose category the
      taxonomy lacks. */
  datatype ConvertError = ValidationError | KeyError(key: string)

  /** The taxonomy as arXiv ships it: every subsumed archive is an archive
      folded into a known category, whose own archive is current (known and
      not subsumed); no archive name holds a comma. */
  predicate Consistent(t: Taxonomy)
  {
    && (forall a :: a in t.archives ==> ',' !in a)
    && (forall a :: a in t.subsumed ==>
          t.subsumed[a] in t.inArchive
          && t.inArchive[t.subsumed[a]] in t.archives
          && t.inArchive[t.subsumed[a]] !in t.subsumed)
  }

  /** An archive that is known and not subsumed. */
  predicate Current(t: Taxonomy, a: string)
  {
    a in t.archives && a !in t.subsumed
  }

  /** The archive one path part stands for: `None` for an unknown one, the
      archive of its category for a subsumed one. */
  function Resolve(t: Taxonomy, a: string): (r: Option<Result<string, ConvertError>>)
    ensures r.None? <==> a !in t.archives
    ensures Current(t, a) ==> r == Some(Ok(a))
    ensures Consistent(t) && a in t.archives ==> r.Some? && r.value.Ok? && Current(t, r.value.value)
  {
    if a !in t.archives then None
    else if a !in t.subsumed then Some(Ok(a))
    else if t.subsumed[a] !in t.inArchive then Some(Err(KeyError(t.subsumed[a])))
    else Some(Ok(t.inArchive[t.subsumed[a]]))
  }

  /** The archives the loop keeps from the parts, in order. */
  function Kept(t: Taxonomy, parts: seq<string>): (r: Result<seq<string>, ConvertError>)
    ensures r.Ok? ==> |r.value| <= |parts|
  {
    if parts == [] then Ok([])
    else
      match Kept(t, parts[..|parts| - 1])
      case Err(e) => Err(e)
      case Ok(kept) =>
        match Resolve(t, parts[|parts| - 1])
        case None => Ok(kept)
        case Some(Err(e)) => Err(e)
        case Some(Ok(a)) => Ok(kept + [a])
  }

  /** With the taxonomy as shipped, no lookup fails and every archive kept
      is current. */
  lemma {:induction false} KeptConsistent(t: Taxonomy, parts: seq<string>)
    requires Consistent(t)
    ensures Kept(t, parts).Ok?
    ensures AllCurrent(t, Kept(t, parts).value)
    decreases |parts|
  {
    if parts != [] {
      var init := parts[..|parts| - 1];
      var last := parts[|parts| - 1];
      KeptConsistent(t, init);
      var kept := Kept(t, init).value;
      match Resolve(t, last)
      case None =>
        assert Kept(t, parts) == Ok(kept);
      case Some(res) =>
        assert res.Ok? && Current(t, res.value);
        assert Kept(t, parts) == Ok(kept + [res.value]);
    }
  }

  /** `to_python` as a function of the path part. */
  function Parse(t: Taxonomy, value: string): (r: Result<seq<string>, ConvertError>)
    ensures r.Ok? ==> r.value != []
    ensures Kept(t, Split(value, ',')) == Ok([]) ==> r == Err(ValidationError)
    ensures Kept(t, Split(value, ',')).Err? ==> r == Kept(t, Split(value, ','))
    ensures Kept(t, Split(value, ',')).Ok? && Kept(t, Split(value, ',')).value != [] ==> r == Kept(t, Split(value, ','))
  {
    match Kept(t, Split(value, ','))
    case Err(e) => Err(e)
    case Ok(kept) => if kept == [] then Err(ValidationError) else Ok(kept)
  }

  /** `ArchiveConverter.to_python`: the known archives of the comma-separated
      list, in order, each subsumed one replaced by the archive its category
      now belongs to; `ValidationError` when none is known. */
  method ToPython(t: Taxonomy, value: string) returns (r: Result<seq<string>, ConvertError>)
    ensures r == Parse(t, value)
  {
    var parts := Split(value, ',');
    var validArchives: seq<string> := [];
    for i := 0 to |parts|
      invariant Kept(t, parts[..i]) == Ok(validArchives)
    {
      assert parts[..i + 1][..i] == parts[..i];
      var archive := parts[i];
      if archive !in t.archives {
        continue;
      }
      if archive in t.subsumed {
        var cat := t.subsumed[archive];
        if cat !in t.inArchive {
          KeptErrorPersists(t, parts, i + 1);
          assert parts[..|parts|] == parts;
          return Err(KeyError(cat));
        }
        archive := t.inArchive[cat];
      }
      validArchives := validArchives + [archive];
    }
    assert parts[..|parts|] == parts;
    if validArchives == [] {
      return Err(ValidationError);
    }
    r := Ok(validArchives);
  }

  /** An error in the first `k` parts is the error of the whole list. */
  lemma {:induction false} KeptErrorPersists(t: Taxonomy, parts: seq<string>, k: nat)
    requires k <= |parts| && Kept(t, parts[..k]).Err?
    ensures Kept(t, parts) == Kept(t, parts[..k])
    decreases |parts| - k
  {
    if k < |parts| {
      assert parts[..k + 1][..k] == parts[..k];
      KeptErrorPersists(t, parts, k + 1);
    } else {
      assert parts[..k] == parts;
    }
  }

  /** `ArchiveConverter.to_url`: the archives joined by commas. */
  function ToUrl(value: seq<string>): string
  {
    Join(",", value)
  }

  /** Every archive of the list is current. */
  predicate AllCurrent(t: Taxonomy, xs: seq<string>)
  {
    forall i :: 0 <= i < |xs| ==> Current(t, xs[i])
  }

  /** Current archives are kept as they are. */
  lemma {:induction false} KeptCurrent(t: Taxonomy, xs: seq<string>)
    requires AllCurrent(t, xs)
    ensures Kept(t, xs) == Ok(xs)
    decreases |xs|
  {
    if xs != [] {
      assert AllCurrent(t, xs[..|xs| - 1]);
      KeptCurrent(t, xs[..|xs| - 1]);
      KeptStep(t, xs);
    }
  }

  /** A current archive after parts that keep themselves is kept too. */
  lemma KeptStep(t: Taxonomy, xs: seq<string>)
    requires xs != [] && Kept(t, xs[..|xs| - 1]) == Ok(xs[..|xs| - 1]) && Current(t, xs[|xs| - 1])
    ensures Kept(t, xs) == Ok(xs)
  {
    assert xs[..|xs| - 1] + [xs[|xs| - 1]] == xs;
  }

  /** A non-empty list of current archives survives the trip through the
      URL unchanged. */
  lemma UrlRoundTrip(t: Taxonomy, xs: seq<string>)
    requires Consistent(t)
    requires xs != [] && AllCurrent(t, xs)
    ensures Parse(t, ToUrl(xs)) == Ok(xs)
  {
    assert forall i :: 0 <= i < |xs| ==> ',' !in xs[i];
    SplitJoin(xs, ',');
    KeptCurrent(t, xs);
  }

  /** With the taxonomy as shipped, parsing a path that parses, writing it
      back and parsing again gives the same archives: the converter
      normalises in one step. */
  lemma ParseNormalises(t: Taxonomy, value: string)
    requires Consistent(t)
    requires Parse(t, value).Ok?
    ensures Parse(t, ToUrl(Parse(t, value).value)) == Parse(t, value)
  {
    KeptConsistent(t, Split(value, ','));
    UrlRoundTrip(t, Parse(t, value).value);
  }

  /** A part naming no known archive changes nothing, wherever it stands. */
  lemma {:induction false} UnknownPartsIgnored(t: Taxonomy, before: seq<string>, unknown: string, after: seq<string>)
    requires unknown !in t.archives
    ensures Kept(t, before + [unknown] + after) == Kept(t, before + after)
    decreases |after|
  {
    if after == [] {
      assert (before + [unknown] + after)[..|before| + 1 - 1] == before;
      assert before + after == before;
    } else {
      var n := |after| - 1;
      UnknownPartsIgnored(t, before, unknown, after[..n]);
      var s := before + [unknown] + after;
      var u := before + after;
      assert s[..|s| - 1] == before + [unknown] + after[..n];
      assert u[..|u| - 1] == before + after[..n];
      assert s[|s| - 1] == after[n] == u[|u| - 1];
    }
  }
}
