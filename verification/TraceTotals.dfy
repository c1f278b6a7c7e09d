/** What the roll-ups of a built tree add up to, in the rows' own fields. */
module TraceTotals {
  import opened Wrappers
  import opened TextOrder
  import opened SpanLinks
  import opened SpanForest
  import opened SpanShape
  import opened TraceRows
  import opened TraceTreeLaws
  import T = TraceTree

  // ---------------------------------------------------------------------
  // Plain totals
  // ---------------------------------------------------------------------

  function IntTotal(ids: seq<string>, value: string -> int): int {
    if ids == [] then 0 else value(ids[0]) + IntTotal(ids[1..], value)
  }

  function RealTotal(ids: seq<string>, value: string -> real): real {
    if ids == [] then 0.0 else value(ids[0]) + RealTotal(ids[1..], value)
  }

  function InputTokens(spans: map<string, TraceSpan>): string -> int {
    n => if n in spans then spans[n].inputTokens else 0
  }

  function OutputTokens(spans: map<string, TraceSpan>): string -> int {
    n => if n in spans then spans[n].outputTokens else 0
  }

  function TotalTokens(spans: map<string, TraceSpan>): string -> int {
    n => if n in spans then spans[n].totalTokens else 0
  }

  function Durations(spans: map<string, TraceSpan>): string -> int {
    n => if n in spans then spans[n].durationNs else 0
  }

  function Costs(spans: map<string, TraceSpan>): string -> real {
    n => if n in spans then spans[n].costUsd else 0.0
  }

  ghost function Errors(spans: map<string, TraceSpan>, ids: seq<string>): set<string> {
    set n | n in ids && n in spans && spans[n].statusCode == "ERROR"
  }

  ghost function Retries(spans: map<string, TraceSpan>, ids: seq<string>): set<string> {
    set n | n in ids && n in spans && spans[n].retryAttempt >= 2
  }

  /** The results that name one of the spans, and those of them that did not pass. */
  ghost function Results(evals: seq<EvalResult>, ids: seq<string>): set<int> {
    set k | 0 <= k < |evals| && evals[k].spanId in ids
  }

  ghost function Failures(evals: seq<EvalResult>, ids: seq<string>): set<int> {
    set k | 0 <= k < |evals| && evals[k].spanId in ids && (evals[k].errorType != "" || !evals[k].passed)
  }

  /** `roll` is the total of the spans `ids`, field by field. */
  ghost predicate Totals(roll: Rollup, spans: map<string, TraceSpan>, ids: seq<string>, evals: seq<EvalResult>) {
    && roll.spanCount == |ids|
    && roll.errorCount == |Errors(spans, ids)| && roll.retryCount == |Retries(spans, ids)|
    && roll.inputTokens == IntTotal(ids, InputTokens(spans)) && roll.outputTokens == IntTotal(ids, OutputTokens(spans))
    && roll.totalTokens == IntTotal(ids, TotalTokens(spans)) && roll.costUsd == RealTotal(ids, Costs(spans))
    && roll.durationNs == IntTotal(ids, Durations(spans))
    && roll.evalCount == |Results(evals, ids)| && roll.evalFailCount == |Failures(evals, ids)|
  }

  // ---------------------------------------------------------------------
  // Sums of own values are these totals
  // ---------------------------------------------------------------------

  lemma {:induction false} TokensAddUp(r: Rows, evals: seq<EvalResult>, ids: seq<string>)
    requires Given(r.spans.Keys, ids)
    ensures var sum := Sum(OwnOf(r, evals), ids);
            && sum.spanCount == |ids| && sum.inputTokens == IntTotal(ids, InputTokens(r.spans))
            && sum.outputTokens == IntTotal(ids, OutputTokens(r.spans))
            && sum.totalTokens == IntTotal(ids, TotalTokens(r.spans))
            && sum.costUsd == RealTotal(ids, Costs(r.spans)) && sum.durationNs == IntTotal(ids, Durations(r.spans))
  {
    if ids != [] {
      TokensAddUp(r, evals, ids[1..]);
      assert ids[0] in r.spans;
    }
  }

  lemma HeadIsNew(ids: seq<string>)
    requires ids != [] && Once(ids)
    ensures ids[0] !in ids[1..] && forall n :: n in ids <==> n == ids[0] || n in ids[1..]
  {
    assert ids == [ids[0]] + ids[1..];
  }

  lemma ErrorsSplit(spans: map<string, TraceSpan>, ids: seq<string>)
    requires ids != [] && Once(ids) && ids[0] in spans
    ensures |Errors(spans, ids)| == |Errors(spans, ids[1..])| + if spans[ids[0]].statusCode == "ERROR" then 1 else 0
  {
    var rest := Errors(spans, ids[1..]);
    HeadIsNew(ids);
    if spans[ids[0]].statusCode == "ERROR" {
      assert Errors(spans, ids) == rest + {ids[0]};
    } else {
      assert Errors(spans, ids) == rest;
    }
  }

  lemma RetriesSplit(spans: map<string, TraceSpan>, ids: seq<string>)
    requires ids != [] && Once(ids) && ids[0] in spans
    ensures |Retries(spans, ids)| == |Retries(spans, ids[1..])| + if spans[ids[0]].retryAttempt >= 2 then 1 else 0
  {
    var rest := Retries(spans, ids[1..]);
    HeadIsNew(ids);
    if spans[ids[0]].retryAttempt >= 2 {
      assert Retries(spans, ids) == rest + {ids[0]};
    } else {
      assert Retries(spans, ids) == rest;
    }
  }

  lemma {:induction false} ErrorsAddUp(r: Rows, evals: seq<EvalResult>, ids: seq<string>)
    requires Given(r.spans.Keys, ids) && Once(ids)
    ensures var sum := Sum(OwnOf(r, evals), ids);
            sum.errorCount == |Errors(r.spans, ids)| && sum.retryCount == |Retries(r.spans, ids)|
  {
    if ids == [] {
      assert Errors(r.spans, ids) == {} && Retries(r.spans, ids) == {};
    } else {
      ErrorsAddUp(r, evals, ids[1..]);
      assert ids[0] in r.spans;
      ErrorsSplit(r.spans, ids);
      RetriesSplit(r.spans, ids);
    }
  }

  /** The places before `i` of the results that name one of the spans. */
  ghost function NamedBefore(evals: seq<EvalResult>, ids: set<string>, i: nat): set<int>
    requires i <= |evals|
  {
    set k | 0 <= k < i && evals[k].spanId in ids
  }

  ghost function FailedBefore(evals: seq<EvalResult>, ids: set<string>, i: nat): set<int>
    requires i <= |evals|
  {
    set k | 0 <= k < i && evals[k].spanId in ids && (evals[k].errorType != "" || !evals[k].passed)
  }

  /** Results counted one by one are as many as their places. */
  lemma {:induction false} NamedCounted(evals: seq<EvalResult>, ids: set<string>, i: nat)
    requires i <= |evals|
    ensures ResultsNaming(evals, ids, i) == |NamedBefore(evals, ids, i)|
  {
    if i > 0 {
      NamedCounted(evals, ids, i - 1);
      if evals[i - 1].spanId in ids {
        assert NamedBefore(evals, ids, i) == NamedBefore(evals, ids, i - 1) + {i - 1};
      } else {
        assert NamedBefore(evals, ids, i) == NamedBefore(evals, ids, i - 1);
      }
    } else {
      assert NamedBefore(evals, ids, i) == {};
    }
  }

  lemma {:induction false} FailedCounted(evals: seq<EvalResult>, ids: set<string>, i: nat)
    requires i <= |evals|
    ensures ResultsFailing(evals, ids, i) == |FailedBefore(evals, ids, i)|
  {
    if i > 0 {
      FailedCounted(evals, ids, i - 1);
      if evals[i - 1].spanId in ids && (evals[i - 1].errorType != "" || !evals[i - 1].passed) {
        assert FailedBefore(evals, ids, i) == FailedBefore(evals, ids, i - 1) + {i - 1};
      } else {
        assert FailedBefore(evals, ids, i) == FailedBefore(evals, ids, i - 1);
      }
    } else {
      assert FailedBefore(evals, ids, i) == {};
    }
  }

  lemma ResultsAddUp(r: Rows, evals: seq<EvalResult>, ids: seq<string>)
    requires Given(r.spans.Keys, ids) && Once(ids)
    ensures var sum := Sum(OwnOf(r, evals), ids);
            sum.evalCount == |Results(evals, ids)| && sum.evalFailCount == |Failures(evals, ids)|
  {
    var those := set n | n in ids;
    SumCountsResults(r, evals, |evals|, ids);
    NamedCounted(evals, those, |evals|);
    FailedCounted(evals, those, |evals|);
    assert Results(evals, ids) == NamedBefore(evals, those, |evals|);
    assert Failures(evals, ids) == FailedBefore(evals, those, |evals|);
  }

  lemma SumIsTotal(r: Rows, evals: seq<EvalResult>, ids: seq<string>)
    requires Given(r.spans.Keys, ids) && Once(ids)
    ensures Totals(Sum(OwnOf(r, evals), ids), r.spans, ids, evals)
  {
    TokensAddUp(r, evals, ids);
    ErrorsAddUp(r, evals, ids);
    ResultsAddUp(r, evals, ids);
  }

  // ---------------------------------------------------------------------
  // Roots and subtrees
  // ---------------------------------------------------------------------

  /** The roots' roll-ups together are the totals of all rows. */
  lemma RootsTotalTheRows(r: Rows, evals: seq<EvalResult>)
    requires IsRows(r)
    ensures Totals(RootTotal(r, evals), r.spans, r.order, evals)
  {
    RootTotalIsSum(r, evals);
    SumIsTotal(r, evals, r.order);
  }

  /** The spans at and below `n`, each once, in display order. */
  ghost function Below(r: Rows, n: string): seq<string>
    requires IsRows(r) && n in r.spans
  {
    ShapeIsShape(r);
    Pre(SubtreeOf(ShapeOf(r), n))
  }

  lemma SubtreeMember(sh: Shape, n: string, m: string)
    requires IsShape(sh) && n in sh.parents && m in sh.parents
    ensures m in Pre(SubtreeOf(sh, n)) <==> Leads(sh.parents, m, n)
  {
    SubtreeIsBelow(sh, DeepestOf(sh.parents, sh.parents.Keys), n, m);
  }

  lemma SubtreeHasOnce(sh: Shape, n: string)
    requires IsShape(sh) && n in sh.parents
    ensures Once(Pre(SubtreeOf(sh, n)))
  {
    SubtreeOnce(sh, DeepestOf(sh.parents, sh.parents.Keys), n);
  }

  /** They are the spans whose chain of parents leads to `n`. */
  lemma BelowAre(r: Rows, n: string)
    requires IsRows(r) && n in r.spans
    ensures Once(Below(r, n)) && Given(r.spans.Keys, Below(r, n))
    ensures forall m :: m in r.spans ==> (m in Below(r, n) <==> Leads(Parents(r), m, n))
  {
    ShapeIsShape(r);
    SubtreeHasOnce(ShapeOf(r), n);
    SubtreesAreGiven(ShapeOf(r), n);
    forall m | m in r.spans ensures m in Below(r, n) <==> Leads(Parents(r), m, n) {
      SubtreeMember(ShapeOf(r), n, m);
    }
  }

  lemma SubtreesAreGiven(sh: Shape, n: string)
    requires IsShape(sh) && n in sh.parents
    ensures Given(sh.parents.Keys, Pre(SubtreeOf(sh, n)))
  {
    TreesAreFamily(sh);
    var t := SubtreeOf(sh, n);
    assert FamilyAt(TreesOf(sh), n);
    assert PreAll([t]) == Pre(t) + PreAll([]);
    forall i | 0 <= i < |Pre(t)| ensures Pre(t)[i] in sh.parents {
      AtInFamily(TreesOf(sh), [t], i);
      assert PreAll([t])[i] == Pre(t)[i];
    }
  }

  lemma SubtreeTotals(r: Rows, evals: seq<EvalResult>, n: string)
    requires IsRows(r) && n in r.spans && IsShape(ShapeOf(r))
    ensures Totals(Roll(OwnOf(r, evals), SubtreeOf(ShapeOf(r), n)), r.spans, Below(r, n), evals)
  {
    BelowAre(r, n);
    RollIsSum(OwnOf(r, evals), SubtreeOf(ShapeOf(r), n));
    SumIsTotal(r, evals, Below(r, n));
  }

  /** What a node says of its own span: whether it failed or was retried, and its category,
      the first of tool, agent and model call that it has a claim to. */
  ghost predicate Says(node: T.SpanNode) {
    && node.hasError == (node.span.statusCode == "ERROR") && node.isRetry == (node.span.retryAttempt >= 2)
    && (node.category == Tool <==> ToolClaim(node.span))
    && (node.category == Agent <==> AgentClaim(node.span) && !ToolClaim(node.span))
    && (node.category == Llm <==> ModelClaim(node.span) && !ToolClaim(node.span) && !AgentClaim(node.span))
  }

  predicate ToolClaim(span: TraceSpan) {
    span.toolName != "" || span.operationName == "execute_tool"
  }

  predicate AgentClaim(span: TraceSpan) {
    span.operationName == "create_agent" || span.operationName == "invoke_agent"
  }

  predicate ModelClaim(span: TraceSpan) {
    span.requestModel != "" || span.operationName == "chat" || span.operationName == "text_completion" ||
    span.operationName == "generate_content" || span.operationName == "embeddings"
  }

  lemma CategoryByClaim(span: TraceSpan)
    ensures Categorize(span) == Tool <==> ToolClaim(span)
    ensures Categorize(span) == Agent <==> AgentClaim(span) && !ToolClaim(span)
    ensures Categorize(span) == Llm <==> ModelClaim(span) && !ToolClaim(span) && !AgentClaim(span)
  {
  }

  lemma LabelledSays(node: T.SpanNode)
    requires node.Labelled()
    ensures Says(node)
  {
    CategoryByClaim(node.span);
  }

  /** A node of a built tree stands for its row, and its roll-up is the total of the rows at
      and below it. */
  ghost predicate NodeTells(node: T.SpanNode, r: Rows, n: string, evals: seq<EvalResult>)
    requires IsRows(r) && n in r.spans
    reads node
  {
    node.span == r.spans[n] && Totals(node.rollup, r.spans, Below(r, n), evals)
  }

  lemma BuiltTotals(tree: T.SpanTree, r: Rows, pendingIds: set<string>, evals: seq<EvalResult>, n: string)
    requires IsRows(r) && IsShape(ShapeOf(r)) && T.Built(tree, r, pendingIds, evals) && n in tree.byId.nodes
    ensures n in r.spans && NodeTells(tree.byId.nodes[n], r, n, evals)
  {
    BuiltCarries(tree, r, pendingIds, evals, n);
    SubtreeTotals(r, evals, n);
  }

  lemma BuiltSays(tree: T.SpanTree, r: Rows, pendingIds: set<string>, evals: seq<EvalResult>, n: string)
    requires IsRows(r) && IsShape(ShapeOf(r)) && T.Built(tree, r, pendingIds, evals) && n in tree.byId.nodes
    ensures Says(tree.byId.nodes[n])
  {
    LabelledSays(tree.byId.nodes[n]);
  }

  /** A placeholder has no category of its own. */
  lemma PlaceholderIsGeneric(r: Rows, m: string)
    requires IsRows(r) && m in Pending(r).at
    ensures m in WithPending(r).spans && Categorize(WithPending(r).spans[m]) == Generic
    ensures WithPending(r).spans[m].statusCode == "UNSET"
  {
    WithPendingAdds(r);
  }

  // ---------------------------------------------------------------------
  // Display order and orphans
  // ---------------------------------------------------------------------

  /** Roots, and the children of a span, come by start, and those of one start by id. */
  lemma DisplayOrder(r: Rows, parent: Option<string>, i: nat, j: nat)
    requires IsRows(r) && i < j < |Siblings(r, parent)|
    ensures Siblings(r, parent)[i] in r.spans && Siblings(r, parent)[j] in r.spans
    ensures var (m, n) := (Siblings(r, parent)[i], Siblings(r, parent)[j]);
            && m != n
            && (r.spans[m].startOffsetNs < r.spans[n].startOffsetNs ||
                (r.spans[m].startOffsetNs == r.spans[n].startOffsetNs && FirstDifference(m, n)))
  {
    SiblingsAre(r, parent);
    var ns := Siblings(r, parent);
    assert StartThenId(r.spans[ns[i]], r.spans[ns[j]]);
    LexIsFirstDifference(ns[i], ns[j]);
  }

  /** A row is an orphan if it names a parent it cannot have, itself or one that is not
      there, or if its link was cut from a cycle. */
  lemma OrphanIff(r: Rows, n: string)
    requires IsRows(r) && n in r.spans
    ensures n in OrphanIds(r) <==>
            (r.spans[n].parentSpanId != "" && (r.spans[n].parentSpanId == n || r.spans[n].parentSpanId !in r.spans)) ||
            IsCut(Resolved(r), r.order, n)
  {
  }
}
