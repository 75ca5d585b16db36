/** The advanced-search query builder of `search/services/index/advanced.py`:
    the fielded terms of the advanced form are grouped by operator
    precedence (NOT, then AND, then OR) into a binary tree, which becomes a
    boolean query; date range, classification and version filters are
    added around it. */
module IndexAdvanced {
  import opened Wrappers
  import opened DomainBase
  import opened DomainAdvanced
  import opened QueryAlgebra
  import IndexUtil

  /** A grouped term: a single fielded term, or the tuple
      `(left, operator, right)` built by `_group_terms`. */
  datatype Grouped =
    | Single(term: FieldedSearchTerm)
    | Group(left: Grouped, op: string, right: Grouped)

  /** The errors the builder raises: the `assert len(terms) == 1` of
      `_group_terms` and the `TypeError` of `_grouped_terms_to_q`. */
  datatype BuildError = GroupingAssertion | InvalidOperator

  /** The fielded terms of a grouped term, left to right. */
  function Leaves(g: Grouped): (r: seq<FieldedSearchTerm>)
    ensures |r| >= 1
  {
    match g
    case Single(t) => [t]
    case Group(l, _, r) => Leaves(l) + Leaves(r)
  }

  /** `_get_operator`: the operator of the leftmost term. */
  function Operator(g: Grouped): string
  {
    match g
    case Single(t) => t.operator
    case Group(l, _, _) => Operator(l)
  }

  /** The operator of a grouped term is the operator of its first term. */
  lemma {:induction false} OperatorIsFirst(g: Grouped)
    ensures Operator(g) == Leaves(g)[0].operator
  {
    match g
    case Single(_) =>
    case Group(l, _, _) =>
      OperatorIsFirst(l);
  }

  /** The terms of a list of grouped terms, in order. */
  function AllLeaves(gs: seq<Grouped>): seq<FieldedSearchTerm>
    decreases |gs|
  {
    if gs == [] then [] else AllLeaves(gs[..|gs| - 1]) + Leaves(gs[|gs| - 1])
  }

  /** `query.terms[:]`, each term on its own. */
  function Singles(terms: seq<FieldedSearchTerm>): (r: seq<Grouped>)
    ensures |r| == |terms|
    ensures forall k :: 0 <= k < |r| ==> r[k] == Single(terms[k])
  {
    seq(|terms|, k requires 0 <= k < |terms| => Single(terms[k]))
  }

  /** The passes of `_group_terms`, tightest operator first. */
  const GroupOrder: seq<string> := ["NOT", "AND", "OR"]

  /** One pass of `_group_terms` for `op`, read left to right: each element
      whose operator is `op` is folded into the group before it, as the
      right operand; any other element starts a new group. */
  function Pass(gs: seq<Grouped>, op: string): (r: seq<Grouped>)
    ensures |r| <= |gs|
    ensures |r| == 0 <==> |gs| == 0
    decreases |gs|
  {
    if gs == [] then []
    else
      var done := Pass(gs[..|gs| - 1], op);
      var x := gs[|gs| - 1];
      if done != [] && Operator(x) == op then done[..|done| - 1] + [Group(done[|done| - 1], op, x)]
      else done + [x]
  }

  /** The list after the first `p` passes. */
  function Passes(gs: seq<Grouped>, p: nat): seq<Grouped>
    requires p <= |GroupOrder|
  {
    if p == 0 then gs else Pass(Passes(gs, p - 1), GroupOrder[p - 1])
  }

  lemma PassesNext(gs: seq<Grouped>, p: nat)
    requires p < |GroupOrder|
    ensures Passes(gs, p + 1) == Pass(Passes(gs, p), GroupOrder[p])
  {
  }

  /** What `_group_terms` returns: the one group left after the three
      passes, or the failed assertion when there is not exactly one. */
  function GroupTermsOf(terms: seq<FieldedSearchTerm>): Result<Grouped, BuildError>
  {
    var gs := Passes(Singles(terms), 3);
    if |gs| == 1 then Ok(gs[0]) else Err(GroupingAssertion)
  }

  // ---------------------------------------------------------------------
  // The in-place grouping

  /** One step of a pass, merging the next element into the current group:
      `terms[i] = (terms[i], op, terms[i + 1])` then `terms.pop(i + 1)`. */
  lemma MergeStep(orig: seq<Grouped>, op: string, k: nat, terms: seq<Grouped>, i: nat)
    requires 1 <= k <= |orig|
    requires terms == Pass(orig[..k], op) + orig[k..]
    requires i == |Pass(orig[..k], op)| - 1 && i < |terms| - 1
    requires Operator(terms[i + 1]) == op
    ensures k < |orig|
    ensures var merged := terms[i := Group(terms[i], op, terms[i + 1])];
            merged[..i + 1] + merged[i + 2..] == Pass(orig[..k + 1], op) + orig[k + 1..]
  {
    var done := Pass(orig[..k], op);
    assert orig[..k + 1][..k] == orig[..k];
    assert orig[..k + 1][k] == orig[k];
    assert terms[i] == done[i] && terms[i + 1] == orig[k];
    var merged := terms[i := Group(terms[i], op, terms[i + 1])];
    assert merged[..i + 1] == done[..i] + [Group(done[i], op, orig[k])];
    assert merged[i + 2..] == orig[k + 1..];
  }

  /** One step of a pass that keeps the next element as a group of its own. */
  lemma KeepStep(orig: seq<Grouped>, op: string, k: nat, terms: seq<Grouped>, i: nat)
    requires 1 <= k <= |orig|
    requires terms == Pass(orig[..k], op) + orig[k..]
    requires i == |Pass(orig[..k], op)| - 1 && i < |terms| - 1
    requires Operator(terms[i + 1]) != op
    ensures k < |orig|
    ensures terms == Pass(orig[..k + 1], op) + orig[k + 1..]
    ensures i + 1 == |Pass(orig[..k + 1], op)| - 1
  {
    assert orig[..k + 1][..k] == orig[..k];
    assert orig[..k + 1][k] == orig[k];
    assert orig[k..] == [orig[k]] + orig[k + 1..];
  }

  /** The pass ends when its index reaches the last element: every element
      has then been read. */
  lemma PassFinished(orig: seq<Grouped>, op: string, k: nat, terms: seq<Grouped>, i: nat)
    requires 1 <= k <= |orig|
    requires terms == Pass(orig[..k], op) + orig[k..]
    requires i == |Pass(orig[..k], op)| - 1 && i >= |terms| - 1
    ensures terms == Pass(orig, op)
  {
    assert orig[..k] == orig;
  }

  /** One pass of `_group_terms`'s outer loop, for `op`: the inner `while`
      over the list. */
  method GroupPass(orig: seq<Grouped>, op: string) returns (terms: seq<Grouped>)
    ensures terms == Pass(orig, op)
  {
    terms := orig;
    ghost var k := if orig == [] then 0 else 1;
    var i := 0;
    if orig != [] {
      assert orig[..1] == [orig[0]];
      assert orig == orig[..1] + orig[1..];
    }
    while i < |terms| - 1
      invariant orig == [] ==> terms == [] && k == 0
      invariant orig != [] ==> 1 <= k <= |orig|
      invariant orig != [] ==> terms == Pass(orig[..k], op) + orig[k..]
      invariant orig != [] ==> i == |Pass(orig[..k], op)| - 1
      decreases |terms| - i
    {
      if Operator(terms[i + 1]) == op {
        MergeStep(orig, op, k, terms, i);
        terms := terms[i := Group(terms[i], op, terms[i + 1])];
        terms := terms[..i + 1] + terms[i + 2..];
        i := i - 1;
      } else {
        KeepStep(orig, op, k, terms, i);
      }
      i := i + 1;
      k := k + 1;
    }
    if orig != [] {
      PassFinished(orig, op, k, terms, i);
    }
  }

  /** `_group_terms`: works on a copy of the query's terms, which it leaves
      as they are, and returns the single group the passes leave. */
  method GroupTerms(query: AdvancedQuery) returns (r: Result<Grouped, BuildError>)
    ensures r == GroupTermsOf(query.terms)
  {
    var terms := Singles(query.terms);
    ghost var singles := terms;
    for p := 0 to 3
      invariant terms == Passes(singles, p)
    {
      PassesNext(singles, p);
      terms := GroupPass(terms, GroupOrder[p]);
    }
    assert terms == Passes(Singles(query.terms), 3);
    if |terms| == 1 {
      r := Ok(terms[0]);
    } else {
      r := Err(GroupingAssertion);
    }
  }

  // ---------------------------------------------------------------------
  // What the grouping keeps: the terms, in order

  lemma AllLeavesSnoc(gs: seq<Grouped>, g: Grouped)
    ensures AllLeaves(gs + [g]) == AllLeaves(gs) + Leaves(g)
  {
    assert (gs + [g])[..|gs|] == gs;
  }

  /** A pass only regroups: the terms stay the same, in the same order. */
  lemma {:induction false} PassLeaves(gs: seq<Grouped>, op: string)
    ensures AllLeaves(Pass(gs, op)) == AllLeaves(gs)
    decreases |gs|
  {
    if gs != [] {
      var init := gs[..|gs| - 1];
      var x := gs[|gs| - 1];
      var done := Pass(init, op);
      PassLeaves(init, op);
      assert gs == init + [x];
      AllLeavesSnoc(init, x);
      if done != [] && Operator(x) == op {
        var n := |done| - 1;
        assert done == done[..n] + [done[n]];
        AllLeavesSnoc(done[..n], done[n]);
        AllLeavesSnoc(done[..n], Group(done[n], op, x));
        AppendAssoc(AllLeaves(done[..n]), Leaves(done[n]), Leaves(x));
      } else {
        AllLeavesSnoc(done, x);
      }
    }
  }

  lemma {:induction false} SinglesLeaves(terms: seq<FieldedSearchTerm>)
    ensures AllLeaves(Singles(terms)) == terms
    decreases |terms|
  {
    if terms != [] {
      var init := terms[..|terms| - 1];
      SinglesLeaves(init);
      assert Singles(terms) == Singles(init) + [Single(terms[|terms| - 1])];
      AllLeavesSnoc(Singles(init), Single(terms[|terms| - 1]));
      assert terms == init + [terms[|terms| - 1]];
    }
  }

  lemma {:induction false} PassesLeaves(gs: seq<Grouped>, p: nat)
    requires p <= |GroupOrder|
    ensures AllLeaves(Passes(gs, p)) == AllLeaves(gs)
  {
    if p > 0 {
      PassesLeaves(gs, p - 1);
      PassLeaves(Passes(gs, p - 1), GroupOrder[p - 1]);
    }
  }

  // ---------------------------------------------------------------------
  // Which operators are left between the groups

  /** The operators of all elements but the first, in order: the operators
      by which each later element would still be joined to the ones before. */
  function HeadOps(gs: seq<Grouped>): (r: seq<string>)
    ensures gs != [] ==> |r| == |gs| - 1
    decreases |gs|
  {
    if |gs| <= 1 then [] else HeadOps(gs[..|gs| - 1]) + [Operator(gs[|gs| - 1])]
  }

  /** `ops` less every occurrence of `op`. */
  function Without(ops: seq<string>, op: string): (r: seq<string>)
    ensures forall o :: o in r <==> o in ops && o != op
    decreases |ops|
  {
    if ops == [] then []
    else
      var rest := Without(ops[..|ops| - 1], op);
      if ops[|ops| - 1] == op then rest else rest + [ops[|ops| - 1]]
  }

  lemma HeadOpsSnoc(gs: seq<Grouped>, g: Grouped)
    requires gs != []
    ensures HeadOps(gs + [g]) == HeadOps(gs) + [Operator(g)]
  {
    assert (gs + [g])[..|gs|] == gs;
  }

  lemma HeadOpsLast(gs: seq<Grouped>, g: Grouped)
    requires gs != [] && Operator(g) == Operator(gs[|gs| - 1])
    ensures HeadOps(gs[..|gs| - 1] + [g]) == HeadOps(gs[..|gs| - 1] + [gs[|gs| - 1]])
  {
    var n := |gs| - 1;
    if n > 0 {
      HeadOpsSnoc(gs[..n], g);
      HeadOpsSnoc(gs[..n], gs[n]);
    }
  }

  /** A pass for `op` joins every later element whose operator is `op` to
      the one before, and only those: the operators left between the groups
      are the old ones less `op`, in order. */
  lemma {:induction false} PassHeadOps(gs: seq<Grouped>, op: string)
    ensures HeadOps(Pass(gs, op)) == Without(HeadOps(gs), op)
    decreases |gs|
  {
    if |gs| > 1 {
      var init := gs[..|gs| - 1];
      var x := gs[|gs| - 1];
      PassHeadOps(init, op);
      FrontLast(gs);
      HeadOpsSnoc(init, x);
      SnocFront(HeadOps(init), Operator(x));
      var done := Pass(init, op);
      if Operator(x) == op {
        JoinHeadOps(done, op, x);
      } else {
        HeadOpsSnoc(done, x);
      }
    }
  }

  /** An element joined to the last group leaves the operators between the
      groups as they were. */
  lemma JoinHeadOps(done: seq<Grouped>, op: string, x: Grouped)
    requires done != []
    ensures HeadOps(done[..|done| - 1] + [Group(done[|done| - 1], op, x)]) == HeadOps(done)
  {
    var n := |done| - 1;
    assert Operator(Group(done[n], op, x)) == Operator(done[n]);
    HeadOpsLast(done, Group(done[n], op, x));
    FrontLast(done);
  }

  /** The first element keeps its operator through a pass. */
  lemma {:induction false} PassKeepsFirst(gs: seq<Grouped>, op: string)
    requires gs != []
    ensures Operator(Pass(gs, op)[0]) == Operator(gs[0])
    decreases |gs|
  {
    if |gs| > 1 {
      var init := gs[..|gs| - 1];
      PassKeepsFirst(init, op);
      assert init[0] == gs[0];
    }
  }

  /** The operators of the terms after the first. */
  function LaterOperators(terms: seq<FieldedSearchTerm>): (r: seq<string>)
    ensures terms != [] ==> |r| == |terms| - 1
    decreases |terms|
  {
    if |terms| <= 1 then [] else LaterOperators(terms[..|terms| - 1]) + [terms[|terms| - 1].operator]
  }

  lemma {:induction false} SinglesHeadOps(terms: seq<FieldedSearchTerm>)
    ensures HeadOps(Singles(terms)) == LaterOperators(terms)
    decreases |terms|
  {
    if |terms| > 1 {
      var init := terms[..|terms| - 1];
      SinglesHeadOps(init);
      assert Singles(terms) == Singles(init) + [Single(terms[|terms| - 1])];
      HeadOpsSnoc(Singles(init), Single(terms[|terms| - 1]));
    }
  }

  lemma {:induction false} PassesShape(terms: seq<FieldedSearchTerm>, p: nat)
    requires p <= |GroupOrder|
    ensures var gs := Passes(Singles(terms), p);
            && (|gs| == 0 <==> terms == [])
            && AllLeaves(gs) == terms
            && HeadOps(gs) == WithoutAll(LaterOperators(terms), GroupOrder[..p])
            && (terms != [] ==> Operator(gs[0]) == terms[0].operator)
  {
    if p == 0 {
      SinglesLeaves(terms);
      SinglesHeadOps(terms);
    } else {
      PassesShape(terms, p - 1);
      var prev := Passes(Singles(terms), p - 1);
      PassLeaves(prev, GroupOrder[p - 1]);
      PassHeadOps(prev, GroupOrder[p - 1]);
      if terms != [] {
        PassKeepsFirst(prev, GroupOrder[p - 1]);
      }
      PrefixOfPrefix(GroupOrder, p - 1, p);
    }
  }

  /** `ops` less every occurrence of each of `drop`, removed in order. */
  function WithoutAll(ops: seq<string>, drop: seq<string>): (r: seq<string>)
    ensures forall o :: o in r <==> o in ops && o !in drop
    decreases |drop|
  {
    if drop == [] then ops else Without(WithoutAll(ops, drop[..|drop| - 1]), drop[|drop| - 1])
  }

  /** `_group_terms` leaves exactly one group, so its assertion holds,
      exactly when there are terms and every term after the first is joined
      by `NOT`, `AND` or `OR`; the group then holds all the terms in their
      order, and its operator is the first term's. */
  lemma GroupTermsResult(terms: seq<FieldedSearchTerm>)
    ensures GroupTermsOf(terms).Ok? <==>
              terms != [] && forall k :: 1 <= k < |terms| ==> terms[k].operator in GroupOrder
    ensures GroupTermsOf(terms).Ok? ==>
              && Leaves(GroupTermsOf(terms).value) == terms
              && Operator(GroupTermsOf(terms).value) == terms[0].operator
  {
    PassesShape(terms, 3);
    var gs := Passes(Singles(terms), 3);
    assert GroupOrder[..3] == GroupOrder;
    if terms != [] {
      LaterOperatorsAt(terms);
      if |gs| == 1 {
        assert AllLeaves(gs) == AllLeaves(gs[..0]) + Leaves(gs[0]);
        assert gs[..0] == [];
      } else {
        var o := HeadOps(gs)[0];
        assert o in HeadOps(gs);
      }
    }
  }

  lemma {:induction false} LaterOperatorsAt(terms: seq<FieldedSearchTerm>)
    ensures forall o :: o in LaterOperators(terms) <==> exists k :: 1 <= k < |terms| && terms[k].operator == o
    decreases |terms|
  {
    if |terms| > 1 {
      var init := terms[..|terms| - 1];
      LaterOperatorsAt(init);
      forall o | o in LaterOperators(terms)
        ensures exists k :: 1 <= k < |terms| && terms[k].operator == o
      {
        if o !in LaterOperators(init) {
          assert terms[|terms| - 1].operator == o;
        } else {
          var k :| 1 <= k < |init| && init[k].operator == o;
          assert terms[k] == init[k];
        }
      }
      forall o | exists k :: 1 <= k < |terms| && terms[k].operator == o
        ensures o in LaterOperators(terms)
      {
        var k :| 1 <= k < |terms| && terms[k].operator == o;
        if k < |init| {
          assert init[k] == terms[k];
        }
      }
    }
  }

  // ---------------------------------------------------------------------
  // Precedence

  /** How loosely an operator binds: NOT 0, AND 1, OR 2. */
  function Rank(op: string): nat
  {
    if op == "NOT" then 0 else if op == "AND" then 1 else if op == "OR" then 2 else 3
  }

  /** The loosest operator in a grouped term; -1 for a single term. */
  function MaxRank(g: Grouped): int
  {
    match g
    case Single(_) => -1
    case Group(l, op, r) =>
      var m := if MaxRank(l) < MaxRank(r) then MaxRank(r) else MaxRank(l);
      if m < Rank(op) then Rank(op) else m
  }

  /** Grouped by precedence: every operator is NOT, AND or OR; the left
      operand of an operator holds no looser operator, the right operand
      only tighter ones. */
  predicate Nested(g: Grouped)
  {
    match g
    case Single(_) => true
    case Group(l, op, r) =>
      && op in GroupOrder && Nested(l) && Nested(r)
      && MaxRank(l) <= Rank(op) && MaxRank(r) < Rank(op)
  }

  lemma {:induction false} PassNested(gs: seq<Grouped>, op: string)
    requires op in GroupOrder
    requires forall g :: g in gs ==> Nested(g) && MaxRank(g) < Rank(op)
    ensures forall g :: g in Pass(gs, op) ==> Nested(g) && MaxRank(g) <= Rank(op)
    decreases |gs|
  {
    if gs != [] {
      var init := gs[..|gs| - 1];
      var x := gs[|gs| - 1];
      assert forall g :: g in init ==> g in gs;
      PassNested(init, op);
      var done := Pass(init, op);
      if done != [] && Operator(x) == op {
        var n := |done| - 1;
        assert done[n] in done;
        assert forall g :: g in done[..n] ==> g in done;
      }
    }
  }

  lemma {:induction false} PassesNested(terms: seq<FieldedSearchTerm>, p: nat)
    requires p <= |GroupOrder|
    ensures forall g :: g in Passes(Singles(terms), p) ==> Nested(g) && MaxRank(g) < p
  {
    if p > 0 {
      PassesNested(terms, p - 1);
      assert Rank(GroupOrder[p - 1]) == p - 1;
      PassNested(Passes(Singles(terms), p - 1), GroupOrder[p - 1]);
    }
  }

  /** NOT binds tighter than AND, and AND tighter than OR: the group
      `_group_terms` returns is nested by precedence. */
  lemma GroupTermsNested(terms: seq<FieldedSearchTerm>)
    ensures GroupTermsOf(terms).Ok? ==> Nested(GroupTermsOf(terms).value)
  {
    PassesNested(terms, 3);
    var gs := Passes(Singles(terms), 3);
    if |gs| == 1 {
      assert gs[0] in gs;
    }
  }

  // ---------------------------------------------------------------------
  // `_grouped_terms_to_q`, `_fielded_terms_to_q`

  /** A term's own field query. */
  function TermQuery(t: FieldedSearchTerm): Q
  {
    FieldQuery(t.field, t.term)
  }

  function TermQueries(ts: seq<FieldedSearchTerm>): (r: seq<Q>)
    ensures |r| == |ts|
    ensures forall k :: 0 <= k < |ts| ==> r[k] == TermQuery(ts[k])
  {
    seq(|ts|, k requires 0 <= k < |ts| => TermQuery(ts[k]))
  }

  /** `_grouped_terms_to_q`: both operands first, then OR to `a | b`, AND to
      `a & b`, NOT to `a & ~b`, and any other operator a `TypeError`. */
  function GroupedToQ(g: Grouped): (r: Result<Q, BuildError>)
    ensures r.Err? ==> r.error == InvalidOperator
  {
    match g
    case Single(t) => Ok(TermQuery(t))
    case Group(l, op, rt) =>
      match GroupedToQ(l)
      case Err(e) => Err(e)
      case Ok(a) =>
        match GroupedToQ(rt)
        case Err(e) => Err(e)
        case Ok(b) =>
          if op == "OR" then Ok(Or(a, b))
          else if op == "AND" then Ok(And(a, b))
          else if op == "NOT" then Ok(And(a, Not(b)))
          else Err(InvalidOperator)
  }

  /** Every operator of the group is one `_grouped_terms_to_q` knows. */
  predicate KnownOperators(g: Grouped)
  {
    match g
    case Single(_) => true
    case Group(l, op, r) => op in GroupOrder && KnownOperators(l) && KnownOperators(r)
  }

  /** The translation succeeds exactly when every operator is known. */
  lemma {:induction false} GroupedToQSucceeds(g: Grouped)
    ensures GroupedToQ(g).Ok? <==> KnownOperators(g)
  {
    match g
    case Single(t) =>
    case Group(l, op, r) =>
      GroupedToQSucceeds(l);
      GroupedToQSucceeds(r);
  }

  /** A translation that succeeds queries the group's terms in their
      order. */
  lemma {:induction false} GroupedToQQueries(g: Grouped)
    requires GroupedToQ(g).Ok?
    ensures FieldQueries(GroupedToQ(g).value) == TermQueries(Leaves(g))
  {
    match g
    case Single(t) =>
    case Group(l, op, r) =>
      GroupedToQQueries(l);
      GroupedToQQueries(r);
      TermQueriesConcat(Leaves(l), Leaves(r));
  }

  lemma TermQueriesConcat(a: seq<FieldedSearchTerm>, b: seq<FieldedSearchTerm>)
    ensures TermQueries(a + b) == TermQueries(a) + TermQueries(b)
  {
  }

  lemma {:induction false} NestedKnown(g: Grouped)
    requires Nested(g)
    ensures KnownOperators(g)
  {
    match g
    case Single(_) =>
    case Group(l, _, r) =>
      NestedKnown(l);
      NestedKnown(r);
  }

  /** `_fielded_terms_to_q`: one term is its own field query, several are
      grouped and translated, none match everything. */
  function FieldedTermsToQ(terms: seq<FieldedSearchTerm>): Result<Q, BuildError>
  {
    if |terms| == 1 then Ok(TermQuery(terms[0]))
    else if |terms| > 1 then
      match GroupTermsOf(terms)
      case Err(e) => Err(e)
      case Ok(g) => GroupedToQ(g)
    else Ok(MatchAll)
  }

  /** No terms give the match-all query. Otherwise the translation fails
      exactly when a term after the first is joined by an operator other
      than NOT, AND or OR, and it queries every term, in order; the only
      error that can arise is the grouping assertion, never the
      `TypeError`. */
  lemma FieldedTermsToQMeaning(terms: seq<FieldedSearchTerm>)
    ensures terms == [] ==> FieldedTermsToQ(terms) == Ok(MatchAll)
    ensures FieldedTermsToQ(terms).Ok? <==> forall k :: 1 <= k < |terms| ==> terms[k].operator in GroupOrder
    ensures FieldedTermsToQ(terms).Err? ==> FieldedTermsToQ(terms).error == GroupingAssertion
    ensures FieldedTermsToQ(terms).Ok? ==> FieldQueries(FieldedTermsToQ(terms).value) == TermQueries(terms)
  {
    if |terms| > 1 {
      GroupTermsResult(terms);
      GroupTermsNested(terms);
      var r := GroupTermsOf(terms);
      if r.Ok? {
        NestedKnown(r.value);
        GroupedToQSucceeds(r.value);
        GroupedToQQueries(r.value);
      }
    }
  }

  // ---------------------------------------------------------------------
  // `_date_range`

  /** The `strftime` formats: announcement dates by month, the others to
      the second. */
  const MonthFormat: string := "%Y-%m"
  const TimestampFormat: string := "%Y-%m-%dT%H:%M:%S%z"

  /** `_date_range`: match everything without a range; otherwise a range
      on the range's date field with `gte` for a start and `lt` for an end. */
  function DateRangeQuery(dateRange: Option<DateRange>): (q: Q)
    ensures dateRange.None? <==> q == MatchAll
    ensures dateRange.Some? ==>
      var d := dateRange.value;
      var fmt := if d.dateType == Announced then MonthFormat else TimestampFormat;
      && q.Range? && q.field == d.dateType
      && (q.gte.Some? <==> d.startDate.Some?)
      && (q.lt.Some? <==> d.endDate.Some?)
      && (q.gte.Some? ==> q.gte.value == DateBound(d.startDate.value, fmt))
      && (q.lt.Some? ==> q.lt.value == DateBound(d.endDate.value, fmt))
  {
    match dateRange
    case None => MatchAll
    case Some(d) =>
      var fmt := if d.dateType == Announced then MonthFormat else TimestampFormat;
      var gte := if d.startDate.Some? then Some(DateBound(d.startDate.value, fmt)) else None;
      var lt := if d.endDate.Some? then Some(DateBound(d.endDate.value, fmt)) else None;
      Range(d.dateType, gte, lt)
  }

  // ---------------------------------------------------------------------
  // `advanced_search`

  /** What `advanced_search` applies to the search: the `is_current`
      filter or not, the query, and the sort. */
  datatype SearchPlan = SearchPlan(currentOnly: bool, query: Q, sort: seq<IndexUtil.SortKey>)

  /** The classification filter: primary classification, or either
      classification when cross-lists are included. */
  function ClassificationQuery(classification: seq<Classification>, includeCrossList: bool): Q
  {
    var primary := ClassificationLimit("primary_classification", classification);
    if includeCrossList then Or(primary, ClassificationLimit("secondary_classification", classification))
    else primary
  }

  /** Relevance order boosts current versions. */
  function Boosted(q: Q): Q
  {
    FunctionScore(q, 5, 5, CurrentOnly)
  }

  function AdvancedSearch(query: AdvancedQuery): (r: Result<SearchPlan, BuildError>)
    reads query
    ensures r.Ok? <==> FieldedTermsToQ(query.terms).Ok?
    ensures r.Ok? ==> r.value.currentOnly == !query.includeOlderVersions
    ensures r.Ok? ==> r.value.sort == IndexUtil.SortParams(query.order)
    ensures r.Ok? ==> (r.value.query.FunctionScore? <==> query.order.None? || query.order.value == "relevance")
  {
    match FieldedTermsToQ(query.terms)
    case Err(e) => Err(e)
    case Ok(terms) =>
      var q := And(And(terms, DateRangeQuery(query.dateRange)),
                   ClassificationQuery(query.classification, query.includeCrossList));
      var relevance := query.order.None? || query.order.value == "relevance";
      Ok(SearchPlan(!query.includeOlderVersions, if relevance then Boosted(q) else q,
                    IndexUtil.SortParams(query.order)))
  }

  /** A document matches the plan's query exactly when it matches the terms,
      the date range and the classification filter; the relevance boost
      changes the ranking only. */
  lemma AdvancedSearchMatches(query: AdvancedQuery, leaf: Q -> bool)
    requires AdvancedSearch(query).Ok?
    ensures Matches(AdvancedSearch(query).value.query, leaf) <==>
              && Matches(FieldedTermsToQ(query.terms).value, leaf)
              && Matches(DateRangeQuery(query.dateRange), leaf)
              && Matches(ClassificationQuery(query.classification, query.includeCrossList), leaf)
  {
    var terms := FieldedTermsToQ(query.terms).value;
    var q := And(And(terms, DateRangeQuery(query.dateRange)),
                 ClassificationQuery(query.classification, query.includeCrossList));
    assert Matches(Boosted(q), leaf) == Matches(q, leaf);
  }
}
