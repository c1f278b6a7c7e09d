/** What the span tree promises its viewers: it does not depend on the order in which
    rows arrive, its roll-ups add up, and live placeholders behave like the spans they
    stand for. */
module TraceTreeLaws {
  import opened Wrappers
  import opened SpanLinks
  import opened SpanForest
  import opened SpanShape
  import opened TraceRows
  import T = TraceTree

  // ---------------------------------------------------------------------
  // Independence of arrival order
  // ---------------------------------------------------------------------

  ghost predicate SameMembership(s: seq<string>, t: seq<string>) {
    forall n :: n in s <==> n in t
  }

  /** There is only one way to put a set of rows in order. */
  lemma {:induction false} OrderIsUnique(spans: map<string, TraceSpan>, s: seq<string>, t: seq<string>)
    requires Given(spans.Keys, s) && Given(spans.Keys, t) && InOrder(spans, s) && InOrder(spans, t)
    requires Once(s) && Once(t) && SameMembership(s, t)
    requires forall n :: n in spans ==> spans[n].spanId == n
    ensures s == t
    decreases |s|
  {
    OnceSameMembers(s, t);
    assert |s| == |multiset(s)| == |multiset(t)| == |t|;
    if s != [] {
      assert s[0] in t;
      assert t[0] in s;
      StartThenIdTotal(spans[s[0]], spans[t[0]]);
      assert s[0] == t[0];
      RestMembership(s, t);
      OrderIsUnique(spans, s[1..], t[1..]);
    }
  }

  lemma RestMembership(s: seq<string>, t: seq<string>)
    requires s != [] && t != [] && s[0] == t[0] && Once(s) && Once(t) && SameMembership(s, t)
    ensures SameMembership(s[1..], t[1..])
  {
    forall n ensures n in s[1..] <==> n in t[1..] {
      assert n in s[1..] <==> n in s && n != s[0];
      assert n in t[1..] <==> n in t && n != t[0];
    }
  }

  lemma SiblingsAlike(a: Rows, b: Rows, parent: Option<string>)
    requires IsRows(a) && IsRows(b) && a.spans == b.spans && Parents(a) == Parents(b)
    ensures Siblings(a, parent) == Siblings(b, parent)
  {
    SiblingsAre(a, parent);
    SiblingsAre(b, parent);
    OrderIsUnique(a.spans, Siblings(a, parent), Siblings(b, parent));
  }

  /** Without parent cycles the rows decide the tree: their order does not matter. */
  lemma RowsDecideTheTree(a: Rows, b: Rows)
    requires IsRows(a) && IsRows(b) && a.spans == b.spans && Acyclic(Resolved(a))
    ensures ShapeOf(a) == ShapeOf(b) && OrphanIds(a) == OrphanIds(b)
  {
    AcyclicIsUncut(Resolved(a), a.order);
    AcyclicIsUncut(Resolved(a), b.order);
    forall parent { SiblingsAlike(a, b, parent); }
    forall n | n in a.spans ensures Orphaned(a, n) <==> Orphaned(b, n) {
      assert !OnCycle(Resolved(a), n);
      assert !IsCut(Resolved(a), a.order, n) && !IsCut(Resolved(a), b.order, n);
    }
  }

  predicate DistinctIds(spans: seq<TraceSpan>) {
    forall i, j :: 0 <= i < j < |spans| ==> spans[i].spanId != spans[j].spanId
  }

  /** With distinct ids the rows are exactly the given spans. */
  lemma DistinctRows(spans: seq<TraceSpan>, n: string)
    requires DistinctIds(spans)
    ensures n in Indexed(spans).spans ==> Indexed(spans).spans[n] in spans && Indexed(spans).spans[n].spanId == n
    ensures forall s :: s in spans && s.spanId == n ==> n in Indexed(spans).spans && Indexed(spans).spans[n] == s
  {
    if n in Indexed(spans).spans {
      var i := IndexedIsGiven(spans, n);
    }
    forall s | s in spans && s.spanId == n ensures n in Indexed(spans).spans && Indexed(spans).spans[n] == s {
      var i :| 0 <= i < |spans| && spans[i] == s;
      assert FirstOf(spans, i, n);
      IndexedKeepsFirst(spans, i, n);
    }
  }

  lemma PermutedRows(a: seq<TraceSpan>, b: seq<TraceSpan>)
    requires DistinctIds(a) && DistinctIds(b) && forall s :: s in a <==> s in b
    ensures Indexed(a).spans == Indexed(b).spans
  {
    forall n
      ensures n in Indexed(a).spans <==> n in Indexed(b).spans
      ensures n in Indexed(a).spans ==> Indexed(a).spans[n] == Indexed(b).spans[n]
    {
      DistinctRows(a, n);
      DistinctRows(b, n);
    }
  }

  lemma EarliestIsUnique(a: Rows, b: Rows, m: string, v: int, w: int)
    requires IsRows(a) && IsRows(b) && a.spans == b.spans
    requires Earliest(a, |a.order|, m, v) && Earliest(b, |b.order|, m, w)
    ensures v <= w
  {
    var j :| 0 <= j < |b.order| && Misses(b, b.order[j], m) && b.spans[b.order[j]].startOffsetNs == w;
    assert Lists(a.order, b.order[j]);
    var i :| 0 <= i < |a.order| && a.order[i] == b.order[j];
    assert Misses(a, a.order[i], m);
  }

  lemma MissedAlike(a: Rows, b: Rows, m: string)
    requires IsRows(a) && IsRows(b) && a.spans == b.spans && Missed(a, |a.order|, m)
    ensures Missed(b, |b.order|, m)
  {
    var j :| 0 <= j < |a.order| && Misses(a, a.order[j], m);
    assert Lists(b.order, a.order[j]);
    var i :| 0 <= i < |b.order| && b.order[i] == a.order[j];
    assert Misses(b, b.order[i], m);
  }

  lemma StartAlike(a: Rows, b: Rows, m: string)
    requires IsRows(a) && IsRows(b) && a.spans == b.spans && m in Pending(a).at
    ensures m in Pending(b).at && Pending(a).at[m] == Pending(b).at[m]
  {
    StartAt(a, |a.order|, m);
    MissedAlike(a, b, m);
    StartAt(b, |b.order|, m);
    EarliestIsUnique(a, b, m, Pending(a).at[m], Pending(b).at[m]);
    EarliestIsUnique(b, a, m, Pending(b).at[m], Pending(a).at[m]);
  }

  /** The placeholders and their starts depend on the rows only. */
  lemma PendingAlike(a: Rows, b: Rows)
    requires IsRows(a) && IsRows(b) && a.spans == b.spans
    ensures Pending(a).at == Pending(b).at
  {
    forall m | m in Pending(a).at ensures m in Pending(b).at && Pending(a).at[m] == Pending(b).at[m] {
      StartAlike(a, b, m);
    }
    forall m | m in Pending(b).at ensures m in Pending(a).at {
      StartAlike(b, a, m);
    }
  }

  lemma WithPendingAlike(a: Rows, b: Rows)
    requires IsRows(a) && IsRows(b) && a.spans == b.spans
    ensures WithPending(a).spans == WithPending(b).spans
  {
    PendingAlike(a, b);
    WithPendingAdds(a);
    WithPendingAdds(b);
  }

  /** A placeholder is a root, so it closes no cycle. */
  lemma {:induction false} PlaceholderOffWalk(r: Rows, n: string, d: string, k: nat)
    requires IsRows(r) && n in r.spans && d in r.spans && Up(Resolved(WithPending(r)), n, k) == Some(d)
    ensures Up(Resolved(r), n, k) == Some(d)
    decreases k
  {
    WithPendingAdds(r);
    var p, q := Resolved(r), Resolved(WithPending(r));
    if k > 0 {
      var m: string := q[n].value;
      if m in r.spans {
        PlaceholderOffWalk(r, m, d, k - 1);
      }
    }
  }

  lemma PendingClosesNoCycle(r: Rows)
    requires IsRows(r) && Acyclic(Resolved(r))
    ensures Acyclic(Resolved(WithPending(r)))
  {
    WithPendingAdds(r);
    var q := Resolved(WithPending(r));
    forall n | n in q ensures !OnCycle(q, n) {
      if OnCycle(q, n) {
        var k: nat :| k > 0 && Up(q, n, k) == Some(n);
        if n in r.spans {
          PlaceholderOffWalk(r, n, n, k);
          assert OnCycle(Resolved(r), n);
        }
      }
    }
  }

  /** For spans with distinct ids and no parent cycles the whole tree, with its flags and
      roll-ups, is the same for every permutation of the input, live or not. */
  lemma SameTreeInEveryOrder(a: seq<TraceSpan>, b: seq<TraceSpan>, evals: seq<EvalResult>, pendingParents: bool)
    requires DistinctIds(a) && multiset(a) == multiset(b) && Acyclic(Resolved(Indexed(a)))
    ensures var x, y := AllRows(a, pendingParents), AllRows(b, pendingParents);
            && IsRows(x) && IsRows(y) && x.spans == y.spans
            && ShapeOf(x) == ShapeOf(y) && OrphanIds(x) == OrphanIds(y) && OwnOf(x, evals) == OwnOf(y, evals)
            && PendingIds(a, pendingParents) == PendingIds(b, pendingParents)
  {
    PermutationIsDistinct(a, b);
    PermutedRows(a, b);
    PendingAlike(Indexed(a), Indexed(b));
    WithPendingAlike(Indexed(a), Indexed(b));
    PendingClosesNoCycle(Indexed(a));
    AllRowsIsRows(a, pendingParents);
    AllRowsIsRows(b, pendingParents);
    RowsDecideTheTree(AllRows(a, pendingParents), AllRows(b, pendingParents));
  }

  lemma PermutationIsDistinct(a: seq<TraceSpan>, b: seq<TraceSpan>)
    requires DistinctIds(a) && multiset(a) == multiset(b)
    ensures DistinctIds(b) && forall s :: s in a <==> s in b
  {
    forall s ensures s in a <==> s in b {
      assert s in a <==> s in multiset(a);
      assert s in b <==> s in multiset(b);
    }
    forall i, j | 0 <= i < j < |b| ensures b[i].spanId != b[j].spanId {
      if b[i].spanId == b[j].spanId {
        assert b[i] in a && b[j] in a;
        assert b[i] == b[j];
        assert b == b[..i] + [b[i]] + b[i + 1..j] + [b[j]] + b[j + 1..];
        DistinctCountsOne(a, b[i]);
        assert false;
      }
    }
  }

  lemma {:induction false} DistinctCountsOne(a: seq<TraceSpan>, s: TraceSpan)
    requires DistinctIds(a)
    ensures multiset(a)[s] <= 1
  {
    if a != [] {
      DistinctCountsOne(a[1..], s);
      assert a == [a[0]] + a[1..];
      if s == a[0] {
        assert s !in a[1..];
      }
    }
  }

  /** Two nodes a viewer cannot tell apart. */
  ghost predicate NodesAlike(a: T.SpanNode, b: T.SpanNode)
    reads a, b
  {
    && a.span == b.span && T.Ids(a.children) == T.Ids(b.children) && a.depth == b.depth
    && a.orphaned == b.orphaned && a.pending == b.pending && a.rollup == b.rollup && a.evals == b.evals
  }

  ghost predicate TreesAlike(x: T.SpanTree, y: T.SpanTree)
    reads x.byId.nodes.Values, y.byId.nodes.Values
  {
    && x.byId.nodes.Keys == y.byId.nodes.Keys && T.Ids(x.roots) == T.Ids(y.roots)
    && x.nodeCount == y.nodeCount && x.orphanCount == y.orphanCount && x.pendingCount == y.pendingCount
    && forall n :: n in x.byId.nodes ==> NodesAlike(x.byId.nodes[n], y.byId.nodes[n])
  }

  /** What is built from a permutation cannot be told apart, node by node. */
  lemma BuiltAlike(a: seq<TraceSpan>, b: seq<TraceSpan>, evals: seq<EvalResult>, pendingParents: bool,
                   r: Rows, s: Rows, x: T.SpanTree, y: T.SpanTree)
    requires DistinctIds(a) && multiset(a) == multiset(b) && Acyclic(Resolved(Indexed(a)))
    requires r == AllRows(a, pendingParents) && s == AllRows(b, pendingParents)
    requires IsRows(r) && IsShape(ShapeOf(r)) && IsRows(s) && IsShape(ShapeOf(s))
    requires T.Built(x, r, PendingIds(a, pendingParents), evals) && T.Built(y, s, PendingIds(b, pendingParents), evals)
    ensures TreesAlike(x, y)
  {
    SameTreeInEveryOrder(a, b, evals, pendingParents);
    BuiltIsBuiltAs(x, r, PendingIds(a, pendingParents), evals);
    BuiltIsBuiltAs(y, s, PendingIds(b, pendingParents), evals);
    BuiltFromSame(evals, PendingIds(a, pendingParents), r, s, ShapeOf(r), OrphanIds(r), x, y);
  }

  /** Node `n` carries what the rows `r` and the shape say. */
  ghost predicate Carrying(node: T.SpanNode, n: string, r: Rows, sh: Shape, evals: seq<EvalResult>,
                           pendingIds: set<string>, orphanIds: set<string>)
    requires IsShape(sh) && n in sh.parents && n in r.spans && n in sh.kids
    reads node
  {
    && node.span == r.spans[n] && T.Ids(node.children) == sh.kids[n] && node.depth == DepthsOf(sh.parents)[n]
    && node.orphaned == (n in orphanIds) && node.pending == (n in pendingIds)
    && node.rollup == Roll(OwnOf(r, evals), SubtreeOf(sh, n)) && node.evals == FiledAfter(r, evals, |evals|)[n]
  }

  lemma IdsOf(m: T.NodeMap, ns: seq<T.SpanNode>, ids: seq<string>)
    requires T.Named(m) && T.Are(m, ns, ids)
    ensures T.Ids(ns) == ids
  {
    assert forall i :: 0 <= i < |ids| ==> T.Ids(ns)[i] == ids[i];
  }

  lemma BuiltCarries(tree: T.SpanTree, r: Rows, pendingIds: set<string>, evals: seq<EvalResult>, n: string)
    requires IsRows(r) && IsShape(ShapeOf(r)) && T.Built(tree, r, pendingIds, evals) && n in tree.byId.nodes
    ensures n in r.spans && Carrying(tree.byId.nodes[n], n, r, ShapeOf(r), evals, pendingIds, OrphanIds(r))
  {
    T.HoldsIsNamed(tree.byId, r);
    IdsOf(tree.byId, tree.byId.nodes[n].children, ShapeOf(r).kids[n]);
  }

  /** The whole tree carries them, in the order of the shape. */
  ghost predicate BuiltAs(tree: T.SpanTree, r: Rows, sh: Shape, evals: seq<EvalResult>, pendingIds: set<string>,
                          orphanIds: set<string>)
    requires IsShape(sh) && r.spans.Keys == sh.parents.Keys == sh.kids.Keys
    reads tree.byId.nodes.Values
  {
    && tree.byId.nodes.Keys == r.spans.Keys && T.Ids(tree.roots) == sh.roots
    && tree.nodeCount == |r.spans| && tree.orphanCount == |orphanIds| && tree.pendingCount == |pendingIds|
    && forall n :: n in tree.byId.nodes ==> Carrying(tree.byId.nodes[n], n, r, sh, evals, pendingIds, orphanIds)
  }

  lemma BuiltIsBuiltAs(tree: T.SpanTree, r: Rows, pendingIds: set<string>, evals: seq<EvalResult>)
    requires IsRows(r) && IsShape(ShapeOf(r)) && T.Built(tree, r, pendingIds, evals)
    ensures r.spans.Keys == ShapeOf(r).parents.Keys == ShapeOf(r).kids.Keys
    ensures BuiltAs(tree, r, ShapeOf(r), evals, pendingIds, OrphanIds(r))
  {
    T.HoldsIsNamed(tree.byId, r);
    IdsOf(tree.byId, tree.roots, ShapeOf(r).roots);
    forall n | n in tree.byId.nodes
      ensures Carrying(tree.byId.nodes[n], n, r, ShapeOf(r), evals, pendingIds, OrphanIds(r))
    {
      BuiltCarries(tree, r, pendingIds, evals, n);
    }
  }

  lemma SameValues(r: Rows, s: Rows, evals: seq<EvalResult>)
    requires r.spans == s.spans
    ensures OwnOf(r, evals) == OwnOf(s, evals) && FiledAfter(r, evals, |evals|) == FiledAfter(s, evals, |evals|)
  {
  }

  lemma BuiltFromSame(evals: seq<EvalResult>, pendingIds: set<string>, r: Rows, s: Rows, sh: Shape,
                      orphanIds: set<string>, x: T.SpanTree, y: T.SpanTree)
    requires IsShape(sh) && r.spans.Keys == sh.parents.Keys == sh.kids.Keys && r.spans == s.spans
    requires BuiltAs(x, r, sh, evals, pendingIds, orphanIds) && BuiltAs(y, s, sh, evals, pendingIds, orphanIds)
    ensures TreesAlike(x, y)
  {
    SameValues(r, s, evals);
  }

  // ---------------------------------------------------------------------
  // Roll-ups add up
  // ---------------------------------------------------------------------

  /** Of the first `i` results, how many name a span of `ids`; and how many of those
      failed. */
  function ResultsNaming(evals: seq<EvalResult>, ids: set<string>, i: nat): nat
    requires i <= |evals|
  {
    if i == 0 then 0 else ResultsNaming(evals, ids, i - 1) + if evals[i - 1].spanId in ids then 1 else 0
  }

  function ResultsFailing(evals: seq<EvalResult>, ids: set<string>, i: nat): nat
    requires i <= |evals|
  {
    if i == 0 then 0
    else ResultsFailing(evals, ids, i - 1) + if evals[i - 1].spanId in ids && Fails(evals[i - 1]) then 1 else 0
  }

  /** `b` is `a` with one more result, if the span is `named`. */
  ghost predicate Counts(a: Rollup, b: Rollup, named: bool, fails: bool) {
    b == if named then a.(evalCount := a.evalCount + 1, evalFailCount := a.evalFailCount + if fails then 1 else 0) else a
  }

  lemma CountsAdd(a: Rollup, b: Rollup, c: Rollup, d: Rollup, here: bool, there: bool, fails: bool)
    requires Counts(a, b, here, fails) && Counts(c, d, there, fails) && !(here && there)
    ensures Counts(Plus(a, c), Plus(b, d), here || there, fails)
  {
  }

  /** One more result changes the sum by what it adds to its own span. */
  lemma {:induction false} SumNext(own: map<string, Rollup>, next: map<string, Rollup>, ids: seq<string>, id: string,
                                   fails: bool)
    requires Once(ids)
    requires forall i :: 0 <= i < |ids| ==> Counts(Own(own, ids[i]), Own(next, ids[i]), ids[i] == id, fails)
    ensures Counts(Sum(own, ids), Sum(next, ids), id in ids, fails)
  {
    if ids != [] {
      SumNext(own, next, ids[1..], id, fails);
      CountsAdd(Own(own, ids[0]), Own(next, ids[0]), Sum(own, ids[1..]), Sum(next, ids[1..]), ids[0] == id,
                id in ids[1..], fails);
    }
  }

  /** The results counted over a set of spans are those that name one of them. */
  lemma {:induction false} SumCountsResults(r: Rows, evals: seq<EvalResult>, i: nat, ids: seq<string>)
    requires i <= |evals| && Once(ids) && Given(r.spans.Keys, ids)
    ensures Sum(OwnAfter(r, evals, i), ids).evalCount == ResultsNaming(evals, (set n | n in ids), i)
    ensures Sum(OwnAfter(r, evals, i), ids).evalFailCount == ResultsFailing(evals, (set n | n in ids), i)
    decreases i
  {
    if i > 0 {
      SumCountsResults(r, evals, i - 1, ids);
      SumNext(OwnAfter(r, evals, i - 1), OwnAfter(r, evals, i), ids, evals[i - 1].spanId, Fails(evals[i - 1]));
    } else {
      SumStartsBlank(r, evals, ids);
    }
  }

  lemma {:induction false} SumStartsBlank(r: Rows, evals: seq<EvalResult>, ids: seq<string>)
    requires Given(r.spans.Keys, ids)
    ensures Sum(OwnAfter(r, evals, 0), ids).evalCount == 0 && Sum(OwnAfter(r, evals, 0), ids).evalFailCount == 0
  {
    if ids != [] {
      SumStartsBlank(r, evals, ids[1..]);
      assert ids[0] in r.spans;
    }
  }

  lemma RootsSum(sh: Shape, own: map<string, Rollup>, order: seq<string>)
    requires IsShape(sh) && Once(order) && forall n :: n in order <==> n in sh.parents
    ensures RollAll(own, ForestOf(sh)) == Sum(own, order)
  {
    var forest := ForestOf(sh);
    ForestHoldsEverySpanOnce(sh);
    OnceSameMembers(PreAll(forest), order);
    RollAllIsSum(own, forest);
    SumOfPermutation(own, PreAll(forest), order);
  }

  lemma OrderCounts(r: Rows, evals: seq<EvalResult>)
    requires IsRows(r)
    ensures Sum(OwnOf(r, evals), r.order).spanCount == |r.order|
  {
    SumCounts(OwnOf(r, evals), r.order);
  }

  lemma OrderTotals(r: Rows, evals: seq<EvalResult>)
    requires IsRows(r)
    ensures var total := Sum(OwnOf(r, evals), r.order);
            && total.evalCount == ResultsNaming(evals, r.spans.Keys, |evals|)
            && total.evalFailCount == ResultsFailing(evals, r.spans.Keys, |evals|)
  {
    SumCountsResults(r, evals, |evals|, r.order);
    assert (set n | n in r.order) == r.spans.Keys by { RowsAreListed(r); }
  }

  /** The roll-ups of the roots, together. */
  ghost function RootTotal(r: Rows, evals: seq<EvalResult>): Rollup
    requires IsRows(r)
  {
    ShapeIsShape(r);
    RollAll(OwnOf(r, evals), ForestOf(ShapeOf(r)))
  }

  lemma RootTotalIsSum(r: Rows, evals: seq<EvalResult>)
    requires IsRows(r)
    ensures RootTotal(r, evals) == Sum(OwnOf(r, evals), r.order)
  {
    ShapeIsShape(r);
    RowsAreListed(r);
    RootsSum(ShapeOf(r), OwnOf(r, evals), r.order);
  }

  /** The roots' roll-ups together are the sum of every span's own values, count every
      span once, and count exactly the results that name a span of the tree. */
  lemma RootsTotalEverything(r: Rows, evals: seq<EvalResult>)
    requires IsRows(r)
    ensures var total := RootTotal(r, evals);
            && total == Sum(OwnOf(r, evals), r.order)
            && total.spanCount == |r.order|
            && total.evalCount == ResultsNaming(evals, r.spans.Keys, |evals|)
            && total.evalFailCount == ResultsFailing(evals, r.spans.Keys, |evals|)
  {
    OrderTotals(r, evals);
    OrderCounts(r, evals);
    RootTotalIsSum(r, evals);
  }

  // ---------------------------------------------------------------------
  // Collapsing one span
  // ---------------------------------------------------------------------

  lemma {:induction false} ShownDown(sh: Shape, bound: nat, a: string, n: string, collapsed: set<string>)
    requires IsShape(sh) && Within(sh.parents, bound) && a in sh.parents && n in sh.parents
    requires Leads(sh.parents, n, a) && !Hidden(sh.parents, collapsed, n)
    ensures ShownIn(Grow(sh, bound, a), Grow(sh, bound, n), collapsed)
    decreases bound + 1 - DepthOf(sh.parents, a), 0
  {
    if a != n {
      var k: nat :| Up(sh.parents, n, k) == Some(a);
      assert k > 0;
      LeadsThroughKid(sh, a, n);
      KidsAtLevel(sh, a);
      ShownAllDown(sh, bound, sh.kids[a], DepthOf(sh.parents, a) + 1, n, collapsed);
    }
  }

  lemma {:induction false} ShownAllDown(sh: Shape, bound: nat, ns: seq<string>, level: nat, n: string,
                                        collapsed: set<string>)
    requires IsShape(sh) && Within(sh.parents, bound) && AtLevel(sh.parents, ns, level) && level <= bound + 1
    requires n in sh.parents && !Hidden(sh.parents, collapsed, n)
    requires exists i :: 0 <= i < |ns| && Leads(sh.parents, n, ns[i])
    ensures ShownInAll(GrowAll(sh, bound, ns, level), Grow(sh, bound, n), collapsed)
    decreases bound + 1 - level, |ns|
  {
    assert AtLevel(sh.parents, ns[1..], level);
    if Leads(sh.parents, n, ns[0]) {
      ShownDown(sh, bound, ns[0], n, collapsed);
    } else {
      var i :| 0 <= i < |ns| && Leads(sh.parents, n, ns[i]);
      assert ns[1..][i - 1] == ns[i];
      ShownAllDown(sh, bound, ns[1..], level, n, collapsed);
    }
  }

  lemma ShownInForest(sh: Shape, n: string, collapsed: set<string>)
    requires IsShape(sh) && n in sh.parents && !Hidden(sh.parents, collapsed, n)
    ensures ShownInAll(ForestOf(sh), SubtreeOf(sh, n), collapsed)
  {
    RootsAtLevel(sh);
    WalkEndsAtRoot(sh, n);
    ShownAllDown(sh, DeepestOf(sh.parents, sh.parents.Keys), sh.roots, 0, n, collapsed);
  }

  lemma InsideIs(sh: Shape, n: string, i: nat)
    requires IsShape(sh) && n in sh.parents && i < |Pre(SubtreeOf(sh, n))|
    ensures Pre(SubtreeOf(sh, n))[i] in sh.parents && Leads(sh.parents, Pre(SubtreeOf(sh, n))[i], n)
  {
    var bound, m := DeepestOf(sh.parents, sh.parents.Keys), Pre(SubtreeOf(sh, n))[i];
    assert m in Pre(SubtreeOf(sh, n));
    SubtreeIsInDomain(sh, bound, n, m);
    SubtreeIsBelow(sh, bound, n, m);
  }

  /** Collapsing a span with nothing collapsed above it or inside it hides as many rows
      as the viewer prints: its roll-up's span count, less one. */
  lemma CollapseHidesWhatIsPrinted(r: Rows, evals: seq<EvalResult>, sh: Shape, n: string, collapsed: set<string>)
    requires IsRows(r) && sh == ShapeOf(r) && IsShape(sh) && n in sh.parents && !Hidden(sh.parents, collapsed, n)
    requires forall m :: m in sh.parents && Leads(sh.parents, m, n) ==> m !in collapsed
    ensures |VisibleAll(ForestOf(sh), collapsed)| - |VisibleAll(ForestOf(sh), collapsed + {n})|
              == Roll(OwnOf(r, evals), SubtreeOf(sh, n)).spanCount - 1
  {
    var own, sub := OwnOf(r, evals), SubtreeOf(sh, n);
    ShownInForest(sh, n, collapsed);
    ForestHoldsEverySpanOnce(sh);
    forall i | 0 <= i < |Pre(sub)| ensures Pre(sub)[i] !in collapsed && Own(own, Pre(sub)[i]).spanCount == 1 {
      InsideIs(sh, n, i);
    }
    CollapseHidesRollupCount(ForestOf(sh), sub, collapsed, own);
  }

  // ---------------------------------------------------------------------
  // Live placeholders
  // ---------------------------------------------------------------------

  /** The children of a span on no cycle are all the rows that name it. */
  lemma ChildrenOfUncut(r: Rows, m: string)
    requires IsRows(r) && m in r.spans && !OnCycle(Resolved(r), m)
    ensures forall n :: n in Siblings(r, Some(m)) <==> n in r.spans && Resolved(r)[n] == Some(m)
  {
    SiblingsAre(r, Some(m));
    forall n | n in r.spans && Resolved(r)[n] == Some(m) ensures Parents(r)[n] == Some(m) {
      if OnCycle(Resolved(r), n) {
        var p := Resolved(r);
        assert Up(p, m, 0) == Some(m);
        assert Up(p, n, 1) == Some(m);
        CycleLeads(p, n, m);
      }
      OffCycleKeepsParent(Resolved(r), r.order, n);
    }
  }

  lemma PlaceholderOffCycle(r: Rows, m: string)
    requires IsRows(r) && m in Pending(r).at
    ensures m in WithPending(r).spans && Resolved(WithPending(r))[m] == None && !OnCycle(Resolved(WithPending(r)), m)
  {
    WithPendingAdds(r);
    var p := Resolved(WithPending(r));
    assert forall k: nat :: k > 0 ==> Up(p, m, k) == None;
  }

  /** The children of a placeholder are the rows that miss it. */
  lemma PlaceholderChildren(r: Rows, m: string)
    requires IsRows(r) && m in Pending(r).at
    ensures IsRows(WithPending(r))
    ensures forall n :: n in Siblings(WithPending(r), Some(m)) <==> n in r.spans && Misses(r, n, m)
  {
    WithPendingAdds(r);
    PlaceholderOffCycle(r, m);
    ChildrenOfUncut(WithPending(r), m);
    forall n | n in WithPending(r).spans
      ensures Resolved(WithPending(r))[n] == Some(m) <==> n in r.spans && Misses(r, n, m)
    {
      LeadsToPlaceholder(r, m, n);
    }
  }

  lemma LeadsToPlaceholder(r: Rows, m: string, n: string)
    requires IsRows(r) && m in Pending(r).at && n in WithPending(r).spans
    ensures Resolved(WithPending(r))[n] == Some(m) <==> n in r.spans && Misses(r, n, m)
  {
    WithPendingAdds(r);
    StartAt(r, |r.order|, m);
  }

  lemma PlaceholderIsRoot(r: Rows, m: string)
    requires IsRows(r) && m in Pending(r).at
    ensures var all := WithPending(r);
            IsRows(all) && m in all.spans && Parents(all)[m] == None && !Orphaned(all, m)
  {
    WithPendingAdds(r);
    PlaceholderOffCycle(r, m);
    OffCycleKeepsParent(Resolved(WithPending(r)), WithPending(r).order, m);
  }

  /** Of the rows that miss `m`, the first in display order starts where the
      placeholder does. */
  lemma FirstStartsEarliest(r: Rows, all: Rows, m: string, v: int, kids: seq<string>)
    requires IsRows(r) && Earliest(r, |r.order|, m, v) && (forall n :: n in r.spans ==> n in all.spans && all.spans[n] == r.spans[n])
    requires Given(all.spans.Keys, kids) && InOrder(all.spans, kids)
    requires forall n :: n in kids <==> n in r.spans && Misses(r, n, m)
    ensures kids != [] && all.spans[kids[0]].startOffsetNs == v
  {
    var j :| 0 <= j < |r.order| && Misses(r, r.order[j], m) && r.spans[r.order[j]].startOffsetNs == v;
    assert r.order[j] in kids;
    var k :| 0 <= k < |kids| && kids[k] == r.order[j];
    assert k > 0 ==> StartThenId(all.spans[kids[0]], all.spans[kids[k]]);
    assert kids[0] in kids;
    assert Lists(r.order, kids[0]);
    var f :| 0 <= f < |r.order| && r.order[f] == kids[0];
    assert Misses(r, r.order[f], m);
  }

  /** Every missing parent has exactly one placeholder (the rows list every id once): a
      root with at least one child, starting where its first child starts, and no
      orphan. */
  lemma PlaceholderHoldsItsChildren(r: Rows, m: string)
    requires IsRows(r) && m in Pending(r).at
    ensures var all := WithPending(r);
            && IsRows(all) && m in all.spans && Parents(all)[m] == None && !Orphaned(all, m)
            && Siblings(all, Some(m)) != [] && Siblings(all, Some(m))[0] in all.spans
            && all.spans[m].startOffsetNs == all.spans[Siblings(all, Some(m))[0]].startOffsetNs
  {
    WithPendingAdds(r);
    StartAt(r, |r.order|, m);
    PlaceholderIsRoot(r, m);
    PlaceholderChildren(r, m);
    SiblingsAre(WithPending(r), Some(m));
    FirstStartsEarliest(r, WithPending(r), m, Pending(r).at[m], Siblings(WithPending(r), Some(m)));
  }

  /** A missing parent is one that some row names and no row is: those, and only those,
      get a placeholder. */
  lemma PlaceholdersAreTheMissing(r: Rows, m: string)
    requires IsRows(r)
    ensures m in Pending(r).at <==> exists n :: n in r.spans && Misses(r, n, m)
  {
    StartsAreEarliest(r, |r.order|);
    if n :| n in r.spans && Misses(r, n, m) {
      assert Lists(r.order, n);
      var j :| 0 <= j < |r.order| && r.order[j] == n;
      assert Misses(r, r.order[j], m);
    }
    if m in Pending(r).at {
      var j :| 0 <= j < |r.order| && Misses(r, r.order[j], m);
      assert r.order[j] in r.spans;
    }
  }

  /** In live mode only self-references and cycle cuts are orphans. */
  lemma LiveOrphans(r: Rows, n: string)
    requires IsRows(r) && n in WithPending(r).spans
    ensures var all := WithPending(r);
            Orphaned(all, n) <==> (n != "" && all.spans[n].parentSpanId == n) || IsCut(Resolved(all), all.order, n)
  {
    WithPendingAdds(r);
    var m := WithPending(r).spans[n].parentSpanId;
    if m != "" && m != n && m !in WithPending(r).spans {
      assert Misses(r, n, m);
      PlaceholdersAreTheMissing(r, m);
    }
  }

  /** After the arrival the rows that resolve to the parent are those that missed it. */
  lemma ArrivalMember(before: Rows, after: Rows, m: string, n: string)
    requires IsRows(before) && IsRows(after) && m in Pending(before).at && after.spans.Keys == before.spans.Keys + {m}
    requires forall n :: n in before.spans ==> after.spans[n] == before.spans[n]
    ensures (n in WithPending(after).spans && Resolved(WithPending(after))[n] == Some(m))
              <==> n in before.spans && Misses(before, n, m)
  {
    WithPendingAdds(after);
    PlaceholdersAreTheMissing(before, m);
  }

  lemma ArrivalMembers(before: Rows, after: Rows, m: string)
    requires IsRows(before) && IsRows(after) && m in Pending(before).at && after.spans.Keys == before.spans.Keys + {m}
    requires forall n :: n in before.spans ==> after.spans[n] == before.spans[n]
    requires IsRows(WithPending(before)) && IsRows(WithPending(after)) && !OnCycle(Resolved(WithPending(after)), m)
    requires m in WithPending(after).spans
    ensures SameMembership(Siblings(WithPending(after), Some(m)), Siblings(WithPending(before), Some(m)))
  {
    PlaceholderChildren(before, m);
    ChildrenOfUncut(WithPending(after), m);
    forall n ensures n in Siblings(WithPending(after), Some(m)) <==> n in Siblings(WithPending(before), Some(m)) {
      ArrivalMember(before, after, m, n);
    }
  }

  lemma SameStarts(before: Rows, after: Rows, m: string, ns: seq<string>)
    requires IsRows(before) && IsRows(after) && m in Pending(before).at && after.spans.Keys == before.spans.Keys + {m}
    requires forall n :: n in before.spans ==> after.spans[n] == before.spans[n]
    requires Given(WithPending(after).spans.Keys, ns) && InOrder(WithPending(after).spans, ns)
    requires forall n :: n in ns ==> n in before.spans
    ensures Given(WithPending(before).spans.Keys, ns) && InOrder(WithPending(before).spans, ns)
  {
    WithPendingAdds(before);
    WithPendingAdds(after);
    forall i | 0 <= i < |ns|
      ensures ns[i] in WithPending(before).spans && WithPending(before).spans[ns[i]] == WithPending(after).spans[ns[i]]
    {
      assert ns[i] in ns;
    }
  }

  /** When the real parent arrives and closes no cycle, it has the placeholder's
      children, in the same order. */
  lemma ArrivalKeepsChildren(before: Rows, after: Rows, m: string)
    requires IsRows(before) && IsRows(after) && m in Pending(before).at && after.spans.Keys == before.spans.Keys + {m}
    requires forall n :: n in before.spans ==> after.spans[n] == before.spans[n]
    requires !OnCycle(Resolved(WithPending(after)), m)
    ensures IsRows(WithPending(before)) && IsRows(WithPending(after))
    ensures Siblings(WithPending(after), Some(m)) == Siblings(WithPending(before), Some(m))
  {
    WithPendingAdds(before);
    WithPendingAdds(after);
    ArrivalMembers(before, after, m);
    var kids, was := Siblings(WithPending(after), Some(m)), Siblings(WithPending(before), Some(m));
    SiblingsAre(WithPending(before), Some(m));
    SiblingsAre(WithPending(after), Some(m));
    PlaceholderChildren(before, m);
    SameStarts(before, after, m, kids);
    OrderIsUnique(WithPending(before).spans, kids, was);
  }

  lemma {:induction false} SumAgrees(own: map<string, Rollup>, other: map<string, Rollup>, ids: seq<string>)
    requires forall i :: 0 <= i < |ids| ==> Own(own, ids[i]) == Own(other, ids[i])
    ensures Sum(own, ids) == Sum(other, ids)
  {
    if ids != [] {
      SumAgrees(own, other, ids[1..]);
    }
  }

  /** No values but counts. */
  ghost predicate OnlyCounts(a: Rollup) {
    a == ZeroRollup.(spanCount := a.spanCount, evalCount := a.evalCount, evalFailCount := a.evalFailCount)
  }

  lemma {:induction false} SumOnlyCounts(own: map<string, Rollup>, ids: seq<string>)
    requires forall i :: 0 <= i < |ids| ==> OnlyCounts(Own(own, ids[i]))
    ensures OnlyCounts(Sum(own, ids))
  {
    if ids != [] {
      SumOnlyCounts(own, ids[1..]);
    }
  }

  /** A placeholder carries one span, its results, and no value of its own. */
  lemma PlaceholderOwn(r: Rows, evals: seq<EvalResult>)
    requires IsRows(r)
    ensures forall i :: 0 <= i < |Pending(r).order| ==>
              var own := Own(OwnOf(WithPending(r), evals), Pending(r).order[i]); OnlyCounts(own) && own.spanCount == 1
  {
    WithPendingAdds(r);
    StartsAreEarliest(r, |r.order|);
    forall i | 0 <= i < |Pending(r).order| ensures Pending(r).order[i] in Pending(r).at {
      assert Pending(r).order[i] in Pending(r).order;
    }
  }

  lemma PlaceholderResults(r: Rows, evals: seq<EvalResult>)
    requires IsRows(r)
    ensures var sum := Sum(OwnOf(WithPending(r), evals), Pending(r).order);
            && sum.evalCount == ResultsNaming(evals, Pending(r).at.Keys, |evals|)
            && sum.evalFailCount == ResultsFailing(evals, Pending(r).at.Keys, |evals|)
  {
    var st, all := Pending(r), WithPending(r);
    StartsListed(r, |r.order|);
    assert Given(all.spans.Keys, st.order) by { WithPendingAdds(r); }
    SumCountsResults(all, evals, |evals|, st.order);
    assert (set m | m in st.order) == st.at.Keys;
  }

  lemma PlaceholderSum(r: Rows, evals: seq<EvalResult>)
    requires IsRows(r)
    ensures Sum(OwnOf(WithPending(r), evals), Pending(r).order) ==
              ZeroRollup.(spanCount := |Pending(r).order|,
                          evalCount := ResultsNaming(evals, Pending(r).at.Keys, |evals|),
                          evalFailCount := ResultsFailing(evals, Pending(r).at.Keys, |evals|))
  {
    PlaceholderOwn(r, evals);
    SumOnlyCounts(OwnOf(WithPending(r), evals), Pending(r).order);
    SumCounts(OwnOf(WithPending(r), evals), Pending(r).order);
    PlaceholderResults(r, evals);
  }

  /** `total` with more spans and more results. */
  ghost function Gaining(total: Rollup, spans: nat, results: nat, failing: nat): Rollup {
    total.(spanCount := total.spanCount + spans, evalCount := total.evalCount + results,
           evalFailCount := total.evalFailCount + failing)
  }

  lemma LiveRowsSum(r: Rows, evals: seq<EvalResult>)
    requires IsRows(r)
    ensures Sum(OwnOf(WithPending(r), evals), r.order) == Sum(OwnOf(r, evals), r.order)
  {
    WithPendingAdds(r);
    OwnAgrees(r, WithPending(r), evals);
  }

  lemma OrderOfLive(r: Rows)
    requires IsRows(r)
    ensures WithPending(r).order == r.order + Pending(r).order
  {
    WithPendingAdds(r);
  }

  lemma SumOfParts(own: map<string, Rollup>, whole: seq<string>, a: seq<string>, b: seq<string>, x: Rollup, spans: nat,
                   results: nat, failing: nat)
    requires whole == a + b && Sum(own, a) == x
    requires Sum(own, b) == ZeroRollup.(spanCount := spans, evalCount := results, evalFailCount := failing)
    ensures Sum(own, whole) == Gaining(x, spans, results, failing)
  {
    SumAppends(own, a, b);
    PlusGains(x, spans, results, failing);
  }

  lemma PlusGains(x: Rollup, spans: nat, results: nat, failing: nat)
    ensures Plus(x, ZeroRollup.(spanCount := spans, evalCount := results, evalFailCount := failing)) ==
            Gaining(x, spans, results, failing)
  {
  }

  lemma LiveSums(r: Rows, evals: seq<EvalResult>)
    requires IsRows(r)
    ensures Sum(OwnOf(WithPending(r), evals), WithPending(r).order) ==
              Gaining(Sum(OwnOf(r, evals), r.order), |Pending(r).order|, ResultsNaming(evals, Pending(r).at.Keys, |evals|),
                      ResultsFailing(evals, Pending(r).at.Keys, |evals|))
  {
    LiveRowsSum(r, evals);
    OrderOfLive(r);
    PlaceholderSum(r, evals);
    SumOfParts(OwnOf(WithPending(r), evals), WithPending(r).order, r.order, Pending(r).order,
               Sum(OwnOf(r, evals), r.order), |Pending(r).order|, ResultsNaming(evals, Pending(r).at.Keys, |evals|),
               ResultsFailing(evals, Pending(r).at.Keys, |evals|));
  }

  /** Against the build without placeholders the totals gain one span per placeholder and
      the results that name a placeholder, and nothing else. */
  lemma LiveTotals(r: Rows, evals: seq<EvalResult>)
    requires IsRows(r)
    ensures IsRows(WithPending(r))
    ensures RootTotal(WithPending(r), evals) ==
              Gaining(RootTotal(r, evals), |Pending(r).order|, ResultsNaming(evals, Pending(r).at.Keys, |evals|),
                      ResultsFailing(evals, Pending(r).at.Keys, |evals|))
  {
    assert IsRows(WithPending(r)) by { WithPendingAdds(r); }
    RootTotalIsSum(r, evals);
    RootTotalIsSum(WithPending(r), evals);
    LiveSums(r, evals);
  }

  lemma OwnAgrees(r: Rows, all: Rows, evals: seq<EvalResult>)
    requires IsRows(r) && forall n :: n in r.spans ==> n in all.spans && all.spans[n] == r.spans[n]
    ensures Sum(OwnOf(all, evals), r.order) == Sum(OwnOf(r, evals), r.order)
  {
    SumAgrees(OwnOf(all, evals), OwnOf(r, evals), r.order);
  }

  lemma {:induction false} NoResultNames(evals: seq<EvalResult>, ids: set<string>, i: nat)
    requires i <= |evals|
    ensures ResultsNaming(evals, ids, i) == 0 <==> forall j :: 0 <= j < i ==> evals[j].spanId !in ids
    ensures ResultsFailing(evals, ids, i) <= ResultsNaming(evals, ids, i)
    decreases i
  {
    if i > 0 {
      NoResultNames(evals, ids, i - 1);
    }
  }

  /** The totals other than the span count agree exactly when no evaluation result names a
      span that is still open. */
  lemma LiveTotalsMatchIff(r: Rows, evals: seq<EvalResult>)
    requires IsRows(r)
    ensures IsRows(WithPending(r))
    ensures (RootTotal(WithPending(r), evals).(spanCount := RootTotal(r, evals).spanCount) == RootTotal(r, evals)) <==>
            forall i :: 0 <= i < |evals| ==> evals[i].spanId !in Pending(r).at
  {
    LiveTotals(r, evals);
    NoResultNames(evals, Pending(r).at.Keys, |evals|);
    GainsNothingIff(RootTotal(r, evals), |Pending(r).order|, ResultsNaming(evals, Pending(r).at.Keys, |evals|),
                    ResultsFailing(evals, Pending(r).at.Keys, |evals|));
  }

  lemma GainsNothingIff(total: Rollup, spans: nat, results: nat, failing: nat)
    requires failing <= results
    ensures (Gaining(total, spans, results, failing).(spanCount := total.spanCount) == total) <==> results == 0
  {
  }

  // ---------------------------------------------------------------------
  // With a cycle the order does matter
  // ---------------------------------------------------------------------

  lemma TwoCycle(p: Links)
    requires p == map["a" := Some("b"), "b" := Some("a")]
    ensures OnCycle(p, "a") && OnCycle(p, "b") && SameCycle(p, "a", "b")
    ensures Up(p, "a", 0) == Some("a") && Up(p, "b", 0) == Some("b")
  {
    assert Up(p, "a", 1) == Some("b") && Up(p, "b", 1) == Some("a");
    assert Up(p, "a", 2) == Some("a") && Up(p, "b", 2) == Some("b");
  }

  /** Two spans that name each other: whichever row comes first becomes the orphan root. */
  lemma CyclesDependOnOrder(a: TraceSpan, b: TraceSpan)
    requires a.spanId == "a" && a.parentSpanId == "b" && b.spanId == "b" && b.parentSpanId == "a"
    ensures var spans := map["a" := a, "b" := b];
            OrphanIds(Rows(["a", "b"], spans)) == {"a"} && OrphanIds(Rows(["b", "a"], spans)) == {"b"}
  {
    var spans := map["a" := a, "b" := b];
    var p := Resolved(Rows(["a", "b"], spans));
    assert "a" != "b" && "a" != "" && "b" != "";
    assert p == map["a" := Some("b"), "b" := Some("a")];
    TwoCycle(p);
    assert EntryAt(p, "a", "a", 0) && EntryAt(p, "b", "b", 0);
    assert CutFrom(p, ["a", "b"], 0, "a");
    assert CutFrom(p, ["b", "a"], 0, "b");
    if IsCut(p, ["a", "b"], "b") {
      CycleHasOneCut(p, ["a", "b"], "a", "b");
    }
    if IsCut(p, ["b", "a"], "a") {
      CycleHasOneCut(p, ["b", "a"], "a", "b");
    }
  }

  /** The links, children and roots of the tree of a payload. */
  ghost function TreeShape(spans: seq<TraceSpan>, pendingParents: bool): Shape {
    AllRowsIsRows(spans, pendingParents);
    ShapeOf(AllRows(spans, pendingParents))
  }

  ghost predicate OrderDoesNotMatter(spans: seq<TraceSpan>, pendingParents: bool) {
    forall other :: multiset(spans) == multiset(other) ==>
      TreeShape(other, pendingParents) == TreeShape(spans, pendingParents)
  }

  lemma {:induction false} IndexedFirst(spans: seq<TraceSpan>)
    requires spans != []
    ensures Indexed(spans).order != [] && Indexed(spans).order[0] == spans[0].spanId
    decreases |spans|
  {
    var k := |spans| - 1;
    if k > 0 {
      IndexedFirst(spans[..k]);
    }
  }

  lemma AllRowsFirst(spans: seq<TraceSpan>, pendingParents: bool)
    requires spans != []
    ensures AllRows(spans, pendingParents).order != [] && AllRows(spans, pendingParents).order[0] == spans[0].spanId
  {
    IndexedFirst(spans);
    if pendingParents {
      OrderOfLive(Indexed(spans));
    }
  }

  /** The payload with one of its rows moved to the front. */
  lemma Fronted(spans: seq<TraceSpan>, n: string) returns (moved: seq<TraceSpan>)
    requires n in Indexed(spans).spans
    ensures multiset(moved) == multiset(spans) && moved != [] && moved[0].spanId == n
  {
    var i := IndexedIsGiven(spans, n);
    moved := [spans[i]] + spans[..i] + spans[i + 1..];
    assert spans == spans[..i] + [spans[i]] + spans[i + 1..];
  }

  lemma SameRows(a: seq<TraceSpan>, b: seq<TraceSpan>, pendingParents: bool)
    requires DistinctIds(a) && multiset(a) == multiset(b)
    ensures AllRows(a, pendingParents).spans == AllRows(b, pendingParents).spans
  {
    PermutationIsDistinct(a, b);
    PermutedRows(a, b);
    WithPendingAlike(Indexed(a), Indexed(b));
  }

  /** Placeholders leave the links between given rows as they are. */
  lemma {:induction false} WalkWithPlaceholders(r: Rows, n: string, d: string, k: nat)
    requires IsRows(r) && Up(Resolved(r), n, k) == Some(d)
    ensures Up(Resolved(WithPending(r)), n, k) == Some(d)
    decreases k
  {
    WithPendingAdds(r);
    if k > 0 {
      WalkWithPlaceholders(r, Resolved(r)[n].value, d, k - 1);
    }
  }

  lemma CycleInAllRows(spans: seq<TraceSpan>, pendingParents: bool, c: string)
    requires OnCycle(Resolved(Indexed(spans)), c)
    ensures OnCycle(Resolved(AllRows(spans, pendingParents)), c)
  {
    var k: nat :| k > 0 && Up(Resolved(Indexed(spans)), c, k) == Some(c);
    if pendingParents {
      WalkWithPlaceholders(Indexed(spans), c, c, k);
    }
  }

  /** A cycle member's parent is another member of its cycle. */
  lemma NextOnCycle(r: Rows, c: string) returns (d: string)
    requires OnCycle(Resolved(r), c)
    ensures c in r.spans && d in r.spans && d != c && SameCycle(Resolved(r), c, d)
  {
    var p := Resolved(r);
    CycleReturns(p, c, 0);
    MembersHaveParents(p, c, c);
    d := p[c].value;
    assert Up(p, d, 0) == Some(d);
    assert Up(p, c, 1) == Some(d);
  }

  /** Two members of a cycle, each put first in turn, give two different trees. */
  lemma CycleOrderMatters(spans: seq<TraceSpan>, pendingParents: bool, c: string)
    requires DistinctIds(spans) && OnCycle(Resolved(Indexed(spans)), c)
    ensures !OrderDoesNotMatter(spans, pendingParents)
  {
    var d := NextOnCycle(Indexed(spans), c);
    var a := Fronted(spans, c);
    var b := Fronted(spans, d);
    SameRows(spans, a, pendingParents);
    SameRows(spans, b, pendingParents);
    AllRowsFirst(a, pendingParents);
    AllRowsFirst(b, pendingParents);
    SameCycleInAllRows(spans, pendingParents, c, d);
    CycleDependsOnOrder(Resolved(AllRows(spans, pendingParents)), c, d,
                        AllRows(a, pendingParents).order, AllRows(b, pendingParents).order);
    assert TreeShape(a, pendingParents).parents != TreeShape(b, pendingParents).parents;
  }

  lemma SameCycleInAllRows(spans: seq<TraceSpan>, pendingParents: bool, c: string, d: string)
    requires SameCycle(Resolved(Indexed(spans)), c, d)
    ensures SameCycle(Resolved(AllRows(spans, pendingParents)), c, d) && c in Resolved(AllRows(spans, pendingParents))
  {
    CycleInAllRows(spans, pendingParents, c);
    CycleIsInDomain(Resolved(AllRows(spans, pendingParents)), c);
    var k: nat :| Up(Resolved(Indexed(spans)), c, k) == Some(d);
    if pendingParents {
      WalkWithPlaceholders(Indexed(spans), c, d, k);
    }
  }

  /** With distinct ids, live or not: all permutations give one tree if and only if the
      parent links have no cycle. */
  lemma SameTreeIffAcyclic(spans: seq<TraceSpan>, pendingParents: bool)
    requires DistinctIds(spans)
    ensures OrderDoesNotMatter(spans, pendingParents) <==> Acyclic(Resolved(Indexed(spans)))
  {
    var p := Resolved(Indexed(spans));
    if Acyclic(p) {
      forall other | multiset(spans) == multiset(other)
        ensures TreeShape(other, pendingParents) == TreeShape(spans, pendingParents)
      {
        SameTreeInEveryOrder(spans, other, [], pendingParents);
      }
    } else {
      var c :| c in p && OnCycle(p, c);
      CycleOrderMatters(spans, pendingParents, c);
    }
  }
}
