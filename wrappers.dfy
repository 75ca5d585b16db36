/** Option and Result, the shapes the model uses for Python's `None` and for
    raised exceptions. */
module Wrappers {

  datatype Option<+T> = None | Some(value: T)
  {
    function GetOr(default: T): T
    {
      match this
      case Some(v) => v
      case None => default
    }
  }

  datatype Result<+T, +E> = Ok(value: T) | Err(error: E)

  /** A loop that maps every element through `f` and lets the first
      exception escape: the mapped sequence, or the first error. */
  function MapResult<A, B, E>(xs: seq<A>, f: A -> Result<B, E>): (r: Result<seq<B>, E>)
    ensures r.Ok? ==> |r.value| == |xs|
  {
    if xs == [] then Ok([])
    else
      match MapResult(xs[..|xs| - 1], f)
      case Err(e) => Err(e)
      case Ok(ys) =>
        match f(xs[|xs| - 1])
        case Err(e) => Err(e)
        case Ok(y) => Ok(ys + [y])
  }

  /** Appending an element keeps the sequence as the front. */
  lemma SnocFront<T>(s: seq<T>, x: T)
    ensures (s + [x])[..|s|] == s && (s + [x])[|s|] == x
  {
  }

  /** A prefix of a prefix is a prefix. */
  lemma PrefixOfPrefix<T>(s: seq<T>, i: nat, j: nat)
    requires i <= j <= |s|
    ensures s[..j][..i] == s[..i]
  {
  }

  /** A non-empty sequence is its front followed by its last element. */
  lemma FrontLast<T>(s: seq<T>)
    requires s != []
    ensures s[..|s| - 1] + [s[|s| - 1]] == s
  {
  }

  /** A failure in the first `k` elements is the failure of the whole map. */
  lemma {:induction false} MapResultFailurePersists<A, B, E>(xs: seq<A>, f: A -> Result<B, E>, k: nat)
    requires k <= |xs| && MapResult(xs[..k], f).Err?
    ensures MapResult(xs, f) == MapResult(xs[..k], f)
    decreases |xs| - k
  {
    if k < |xs| {
      assert xs[..k + 1][..k] == xs[..k];
      MapResultFailurePersists(xs, f, k + 1);
    } else {
      assert xs[..k] == xs;
    }
  }

  /** The map succeeds exactly when `f` succeeds on every element, and
      then maps element by element. */
  lemma {:induction false} MapResultElementwise<A, B, E>(xs: seq<A>, f: A -> Result<B, E>)
    ensures MapResult(xs, f).Ok? <==> forall k :: 0 <= k < |xs| ==> f(xs[k]).Ok?
    ensures MapResult(xs, f).Ok? ==> forall k :: 0 <= k < |xs| ==> MapResult(xs, f).value[k] == f(xs[k]).value
    decreases |xs|
  {
    if xs != [] {
      var n := |xs| - 1;
      var init := xs[..n];
      MapResultElementwise(init, f);
      if MapResult(init, f).Ok? && f(xs[n]).Ok? {
        var v := MapResult(xs, f).value;
        assert v == MapResult(init, f).value + [f(xs[n]).value];
        forall k | 0 <= k < |xs|
          ensures f(xs[k]).Ok? && v[k] == f(xs[k]).value
        {
          if k < n {
            assert init[k] == xs[k];
          }
        }
      } else if MapResult(init, f).Err? {
        var k :| 0 <= k < n && f(init[k]).Err?;
        assert init[k] == xs[k];
      }
    }
  }

  /** A failing map raises the error of the first element that fails. */
  lemma {:induction false} MapResultFirstError<A, B, E>(xs: seq<A>, f: A -> Result<B, E>, k: nat)
    requires k < |xs| && f(xs[k]).Err?
    requires forall m :: 0 <= m < k ==> f(xs[m]).Ok?
    ensures MapResult(xs, f) == Err(f(xs[k]).error)
    decreases |xs|
  {
    var n := |xs| - 1;
    var init := xs[..n];
    if k < n {
      assert init[k] == xs[k];
      assert forall m :: 0 <= m < k ==> init[m] == xs[m];
      MapResultFirstError(init, f, k);
    } else {
      assert forall m :: 0 <= m < n ==> init[m] == xs[m];
      MapResultElementwise(init, f);
    }
  }

  /** How many elements the loop behind `MapResult` hands to `f` before it
      stops: all of them, or up to and including the first that fails. */
  function MapResultCalls<A, B, E>(xs: seq<A>, f: A -> Result<B, E>): (n: nat)
    ensures n <= |xs|
    ensures MapResult(xs, f).Ok? ==> n == |xs|
  {
    if xs == [] then 0
    else if MapResult(xs[..|xs| - 1], f).Err? then MapResultCalls(xs[..|xs| - 1], f)
    else |xs|
  }

  /** A failing map stops at its first failing element: `f` succeeded on
      every element before it. */
  lemma {:induction false} MapResultCallsStop<A, B, E>(xs: seq<A>, f: A -> Result<B, E>)
    requires MapResult(xs, f).Err?
    ensures 1 <= MapResultCalls(xs, f)
    ensures f(xs[MapResultCalls(xs, f) - 1]) == Err(MapResult(xs, f).error)
    ensures forall m :: 0 <= m < MapResultCalls(xs, f) - 1 ==> f(xs[m]).Ok?
    decreases |xs|
  {
    var n := |xs| - 1;
    var init := xs[..n];
    if MapResult(init, f).Err? {
      MapResultCallsStop(init, f);
      var c := MapResultCalls(init, f);
      assert init[c - 1] == xs[c - 1];
      assert forall m :: 0 <= m < c - 1 ==> init[m] == xs[m];
    } else {
      MapResultElementwise(init, f);
      assert forall m :: 0 <= m < n ==> init[m] == xs[m];
    }
  }

  /** Elements after a failure are never handed to `f`. */
  lemma {:induction false} MapResultCallsPersist<A, B, E>(xs: seq<A>, f: A -> Result<B, E>, k: nat)
    requires k <= |xs| && MapResult(xs[..k], f).Err?
    ensures MapResultCalls(xs, f) == MapResultCalls(xs[..k], f)
    decreases |xs| - k
  {
    if k < |xs| {
      assert xs[..k + 1][..k] == xs[..k];
      MapResultFailurePersists(xs[..k + 1], f, k);
      MapResultCallsPersist(xs, f, k + 1);
    } else {
      assert xs[..k] == xs;
    }
  }

  /** Concatenation of sequences is associative. */
  lemma AppendAssoc<T>(a: seq<T>, b: seq<T>, c: seq<T>)
    ensures a + b + c == a + (b + c)
  {
  }
}
