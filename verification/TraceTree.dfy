/** The span tree of one trace, built in place: nodes are objects, and each phase
    fills in one of their fields. */
module TraceTree {
  import opened Wrappers
  import opened SpanLinks
  import opened CycleCut
  import opened SpanForest
  import opened SpanShape
  import opened TraceRows

  class SpanNode {
    const span: TraceSpan
    const category: SpanCategory
    const hasError: bool
    const isRetry: bool
    var children: seq<SpanNode>
    var depth: nat
    var orphaned: bool
    var pending: bool
    var rollup: Rollup
    var evals: seq<EvalResult>

    constructor (span: TraceSpan)
      ensures this.span == span && Labelled() && Blank() && !pending
    {
      this.span := span;
      category := Categorize(span);
      isRetry := span.retryAttempt >= 2;
      hasError := span.statusCode == "ERROR";
      children, depth, orphaned, pending, evals := [], 0, false, false, [];
      rollup := Rollup(1, if span.statusCode == "ERROR" then 1 else 0, if span.retryAttempt >= 2 then 1 else 0,
                       span.inputTokens, span.outputTokens, span.totalTokens, span.costUsd, span.durationNs, 0, 0);
    }

    /** The labels the viewer shows. */
    ghost predicate Labelled() {
      category == Categorize(span) && hasError == (span.statusCode == "ERROR") && isRetry == (span.retryAttempt >= 2)
    }

    ghost predicate Blank()
      reads this
    {
      children == [] && depth == 0 && !orphaned && rollup == OwnRollup(span) && evals == []
    }
  }

  /** The nodes by span id, in insertion order. */
  datatype NodeMap = NodeMap(order: seq<string>, nodes: map<string, SpanNode>)

  /** One node for each row, carrying that row. */
  ghost predicate Carries(m: NodeMap, r: Rows) {
    m.order == r.order && m.nodes.Keys == r.spans.Keys && forall n :: n in m.nodes ==> m.nodes[n].span == r.spans[n]
  }

  ghost predicate Holds(m: NodeMap, r: Rows) {
    IsRows(r) && Carries(m, r)
  }

  /** Nodes are filed under their own span ids, so distinct ids have distinct nodes. */
  ghost predicate Named(m: NodeMap) {
    forall n :: n in m.nodes ==> m.nodes[n].span.spanId == n
  }

  ghost predicate Listed(m: NodeMap) {
    Once(m.order) && forall i :: 0 <= i < |m.order| ==> m.order[i] in m.nodes
  }

  lemma HoldsIsNamed(m: NodeMap, r: Rows)
    requires Holds(m, r)
    ensures Named(m) && Listed(m)
  {
  }

  /** The rows that nodes `ns` stand for. */
  function Ids(ns: seq<SpanNode>): (ids: seq<string>)
    ensures |ids| == |ns| && forall i :: 0 <= i < |ns| ==> ids[i] == ns[i].span.spanId
  {
    seq(|ns|, i requires 0 <= i < |ns| => ns[i].span.spanId)
  }

  /** `ns` are the nodes of `ids`. */
  ghost predicate Are(m: NodeMap, ns: seq<SpanNode>, ids: seq<string>) {
    |ns| == |ids| && forall i :: 0 <= i < |ns| ==> ids[i] in m.nodes && ns[i] == m.nodes[ids[i]]
  }

  // ---------------------------------------------------------------------
  // Nodes
  // ---------------------------------------------------------------------

  ghost predicate AllLabelled(m: NodeMap) {
    forall n :: n in m.nodes ==> m.nodes[n].Labelled()
  }

  ghost predicate AllBlank(m: NodeMap)
    reads m.nodes.Values
  {
    forall n :: n in m.nodes ==> m.nodes[n].Blank()
  }

  /** Exactly the nodes of `ids` are pending. */
  ghost predicate PendingAre(m: NodeMap, ids: set<string>)
    reads m.nodes.Values
  {
    forall n :: n in m.nodes ==> (m.nodes[n].pending <==> n in ids)
  }

  /** Nodes as constructed. */
  ghost predicate AllNew(m: NodeMap)
    reads m.nodes.Values
  {
    forall n :: n in m.nodes ==> m.nodes[n].Labelled() && m.nodes[n].Blank() && !m.nodes[n].pending
  }

  /** One node for each span id; a repeated id keeps its first row. */
  method IndexSpans(spans: seq<TraceSpan>) returns (m: NodeMap)
    ensures Holds(m, Indexed(spans)) && AllNew(m)
    ensures forall n :: n in m.nodes ==> fresh(m.nodes[n])
  {
    m := NodeMap([], map[]);
    for i := 0 to |spans|
      invariant Carries(m, Indexed(spans[..i])) && AllNew(m)
      invariant forall n :: n in m.nodes ==> fresh(m.nodes[n])
    {
      assert spans[..i + 1][..i] == spans[..i];
      m := IndexSpan(m, Indexed(spans[..i]), spans[i]);
    }
    assert spans[..|spans|] == spans;
  }

  method IndexSpan(m: NodeMap, ghost r: Rows, span: TraceSpan) returns (next: NodeMap)
    requires Carries(m, r) && AllNew(m)
    ensures Carries(next, Put(r, span)) && AllNew(next)
    ensures forall n :: n in next.nodes ==> if n in m.nodes then next.nodes[n] == m.nodes[n] else fresh(next.nodes[n])
  {
    next := m;
    if span.spanId !in m.nodes {
      var node := new SpanNode(span);
      next := NodeMap(m.order + [span.spanId], m.nodes[span.spanId := node]);
    }
  }

  /** The parents that rows name but that have not arrived, with their children's
      earliest start. */
  method CollectMissing(m: NodeMap, ghost r: Rows) returns (starts: Starts)
    requires Holds(m, r)
    ensures starts == Pending(r)
  {
    starts := Starts([], map[]);
    for i := 0 to |m.order|
      invariant starts == StartsAfter(r, i)
    {
      assert m.order[i] in r.order;
      var span := m.nodes[m.order[i]].span;
      var p := span.parentSpanId;
      if p == "" || p == span.spanId || p in m.nodes {
        continue;
      }
      if p in starts.at {
        starts := starts.(at := starts.at[p := Min(starts.at[p], span.startOffsetNs)]);
      } else {
        starts := Starts(starts.order + [p], starts.at[p := span.startOffsetNs]);
      }
    }
  }

  method MakePending(span: TraceSpan, ghost made: set<SpanNode>) returns (node: SpanNode)
    requires AllPlaceholders(made)
    ensures fresh(node) && node.span == span && AllPlaceholders(made + {node})
  {
    node := new SpanNode(span);
    node.pending := true;
  }

  /** One pending node for each missing parent. */
  method AddPending(m: NodeMap, ghost r: Rows) returns (all: NodeMap, ghost ids: set<string>)
    requires Holds(m, r) && AllBlank(m) && PendingAre(m, {}) && AllLabelled(m)
    ensures Holds(all, WithPending(r)) && AllBlank(all) && ids == Pending(r).at.Keys && PendingAre(all, ids)
    ensures forall n :: n in all.nodes ==> if n in m.nodes then all.nodes[n] == m.nodes[n] else fresh(all.nodes[n])
    ensures AllLabelled(all)
  {
    var starts := CollectMissing(m, r);
    ids := starts.at.Keys;
    PendingIsReady(m, r);
    all := AddPlaceholders(m, r, starts);
    ExtendedIsBlank(m, all, ids);
  }

  lemma PendingIsReady(m: NodeMap, r: Rows)
    requires Holds(m, r)
    ensures var starts := Pending(r);
            && Given(starts.at.Keys, starts.order) && NoneIn(m, starts.order) && IsRows(WithPending(r))
            && WithPending(r) == WithPlaceholders(r, starts, |starts.order|)
            && WithPending(r).spans.Keys == r.spans.Keys + starts.at.Keys && r.spans.Keys !! starts.at.Keys
  {
    WithPendingAdds(r);
    StartsListed(r, |r.order|);
  }

  lemma ExtendedIsBlank(m: NodeMap, all: NodeMap, ids: set<string>)
    requires AllBlank(m) && PendingAre(m, {}) && AllLabelled(m) && Extends(m, all)
    requires all.nodes.Keys == m.nodes.Keys + ids && m.nodes.Keys !! ids
    ensures AllBlank(all) && PendingAre(all, ids) && AllLabelled(all)
  {
  }

  /** `all` keeps the nodes of `m`, and its other nodes are blank placeholders. */
  ghost predicate Extends(m: NodeMap, all: NodeMap)
    reads all.nodes.Values
  {
    forall n :: n in all.nodes ==>
      if n in m.nodes then all.nodes[n] == m.nodes[n]
      else all.nodes[n].Labelled() && all.nodes[n].Blank() && all.nodes[n].pending
  }

  ghost predicate NoneIn(m: NodeMap, ids: seq<string>) {
    forall k :: 0 <= k < |ids| ==> ids[k] !in m.nodes
  }

  /** The first `k` missing parents have placeholders, which are nodes of `made`. */
  ghost predicate Added(m: NodeMap, all: NodeMap, starts: Starts, k: nat, made: set<SpanNode>)
    requires k <= |starts.order|
  {
    && all.order == m.order + starts.order[..k]
    && (forall n :: n in all.nodes <==> n in m.nodes || n in starts.order[..k])
    && (forall n :: n in m.nodes ==> n in all.nodes && all.nodes[n] == m.nodes[n])
    && (forall n :: n in all.nodes && n !in m.nodes ==>
          all.nodes[n] in made && n in starts.at && all.nodes[n].span == PendingSpan(n, starts.at[n]))
  }

  ghost predicate AllPlaceholders(made: set<SpanNode>)
    reads made
  {
    forall node :: node in made ==> node.Labelled() && node.Blank() && node.pending
  }

  method AddPlaceholders(m: NodeMap, ghost r: Rows, starts: Starts) returns (all: NodeMap)
    requires Carries(m, r) && Given(starts.at.Keys, starts.order) && NoneIn(m, starts.order)
    ensures Carries(all, WithPlaceholders(r, starts, |starts.order|)) && Extends(m, all)
    ensures forall n :: n in all.nodes && n !in m.nodes ==> fresh(all.nodes[n])
  {
    ghost var made;
    all, made := AddEach(m, starts);
    AddedIsCarried(m, all, r, starts, made);
  }

  lemma AddedIsCarried(m: NodeMap, all: NodeMap, r: Rows, starts: Starts, made: set<SpanNode>)
    requires Carries(m, r) && Given(starts.at.Keys, starts.order) && NoneIn(m, starts.order)
    requires Added(m, all, starts, |starts.order|, made)
    ensures Carries(all, WithPlaceholders(r, starts, |starts.order|))
  {
    var k := |starts.order|;
    PlaceholderOrder(r, starts, k);
    forall n
      ensures n in all.nodes <==> n in WithPlaceholders(r, starts, k).spans
      ensures n in all.nodes ==> all.nodes[n].span == WithPlaceholders(r, starts, k).spans[n]
    {
      PlaceholderAt(r, starts, k, n);
    }
  }

  method AddEach(m: NodeMap, starts: Starts) returns (all: NodeMap, ghost made: set<SpanNode>)
    requires Given(starts.at.Keys, starts.order) && NoneIn(m, starts.order)
    ensures Added(m, all, starts, |starts.order|, made) && AllPlaceholders(made) && fresh(made)
  {
    all, made := m, {};
    for k := 0 to |starts.order|
      invariant Added(m, all, starts, k, made) && AllPlaceholders(made) && fresh(made)
    {
      var node := MakePending(PendingSpan(starts.order[k], starts.at[starts.order[k]]), made);
      AddedOneMore(m, all, starts, k, made, node);
      all := NodeMap(all.order + [starts.order[k]], all.nodes[starts.order[k] := node]);
      made := made + {node};
    }
  }

  lemma AddedOneMore(m: NodeMap, all: NodeMap, starts: Starts, k: nat, made: set<SpanNode>, node: SpanNode)
    requires k < |starts.order| && Given(starts.at.Keys, starts.order) && NoneIn(m, starts.order)
    requires Added(m, all, starts, k, made)
    requires node.span == PendingSpan(starts.order[k], starts.at[starts.order[k]])
    ensures Added(m, NodeMap(all.order + [starts.order[k]], all.nodes[starts.order[k] := node]), starts, k + 1,
                  made + {node})
  {
    assert starts.order[..k + 1] == starts.order[..k] + [starts.order[k]];
  }

  // ---------------------------------------------------------------------
  // Parents
  // ---------------------------------------------------------------------

  /** The orphans are the detached nodes and the cut ones. */
  ghost predicate OrphansAre(m: NodeMap, detached: set<string>, cut: set<string>)
    reads m.nodes.Values
  {
    forall n :: n in m.nodes ==> (m.nodes[n].orphaned <==> n in detached || n in cut)
  }

  /** The rows that name a parent they cannot have. */
  ghost function DetachedIds(r: Rows): set<string> {
    set n | n in r.spans && Detached(r, n)
  }

  /** Each node's parent; a node that cannot have the one it names is an orphan. */
  method ResolveParents(m: NodeMap, ghost r: Rows) returns (parentOf: Links)
    requires Carries(m, r) && Named(m) && Listed(m) && OrphansAre(m, {}, {})
    modifies m.nodes.Values`orphaned
    ensures ResolvedSome(m.order, |m.order|, r, parentOf) && OrphansAre(m, DetachedIds(r) * parentOf.Keys, {})
  {
    parentOf := map[];
    for i := 0 to |m.order|
      invariant ResolvedSome(m.order, i, r, parentOf) && OrphansAre(m, DetachedIds(r) * parentOf.Keys, {})
    {
      parentOf := ResolveNext(m, i, r, parentOf);
    }
  }

  /** The links of the first `i` rows. */
  ghost predicate ResolvedSome(order: seq<string>, i: nat, r: Rows, parentOf: Links) {
    && (forall j :: 0 <= j < |order| ==> (order[j] in parentOf <==> j < i))
    && (forall n :: n in parentOf ==> n in r.spans && parentOf[n] == Resolved(r)[n])
  }

  /** One more row resolved. */
  method ResolveNext(m: NodeMap, i: nat, ghost r: Rows, parentOf: Links) returns (next: Links)
    requires i < |m.order| && Carries(m, r) && Named(m) && Listed(m)
    requires ResolvedSome(m.order, i, r, parentOf) && OrphansAre(m, DetachedIds(r) * parentOf.Keys, {})
    modifies m.nodes.Values`orphaned
    ensures ResolvedSome(m.order, i + 1, r, next) && OrphansAre(m, DetachedIds(r) * next.Keys, {})
  {
    var n := m.order[i];
    var p := ResolveParent(m, m.nodes[n], r);
    next := parentOf[n := p];
  }

  lemma AllResolved(r: Rows, parentOf: Links)
    requires IsRows(r) && ResolvedSome(r.order, |r.order|, r, parentOf)
    ensures parentOf == Resolved(r) && DetachedIds(r) * parentOf.Keys == DetachedIds(r)
  {
    RowsAreListed(r);
  }

  method ResolveParent(m: NodeMap, node: SpanNode, ghost r: Rows) returns (p: Option<string>)
    requires Carries(m, r) && Named(m) && node.span.spanId in m.nodes && m.nodes[node.span.spanId] == node
    requires !node.orphaned
    modifies node`orphaned
    ensures p == Resolved(r)[node.span.spanId] && node.orphaned == Detached(r, node.span.spanId)
  {
    var parentId := node.span.parentSpanId;
    if parentId == "" || parentId == node.span.spanId {
      node.orphaned := parentId != "";
      return None;
    }
    if parentId !in m.nodes {
      node.orphaned := true;
      return None;
    }
    p := Some(parentId);
  }

  /** Cut every cycle: one walk from each node, in row order. A node whose parent is
      cut is an orphan too. */
  method CutCycles(m: NodeMap, parentOf: Links, ghost detached: set<string>)
    returns (cutParents: Links, ghost cut: set<string>)
    requires Named(m) && parentOf.Keys == m.nodes.Keys && Closed(parentOf) && Listed(m) && OrphansAre(m, detached, {})
    modifies m.nodes.Values`orphaned
    ensures cutParents == CutLinks(parentOf, m.order) && OrphansAre(m, detached, cut)
    ensures forall n :: n in cut <==> n in parentOf && IsCut(parentOf, m.order, n)
  {
    cutParents, cut := parentOf, {};
    var safe := {};
    for i := 0 to |m.order|
      invariant Walked(parentOf, m.order, i, cutParents, safe, cut) && OrphansAre(m, detached, cut)
    {
      cutParents, safe, cut := CutOne(m, parentOf, i, cutParents, safe, cut, detached);
    }
    AllWalked(parentOf, m.order, cutParents, safe, cut);
  }

  method MarkOrphan(m: NodeMap, n: string, ghost detached: set<string>, ghost cut: set<string>)
    requires Named(m) && n in m.nodes && OrphansAre(m, detached, cut)
    modifies m.nodes.Values`orphaned
    ensures OrphansAre(m, detached, cut + {n})
  {
    m.nodes[n].orphaned := true;
  }

  /** The walk from one node. */
  method CutOne(m: NodeMap, ghost parentOf: Links, i: nat, cutParents: Links, safe: set<string>, ghost cut: set<string>,
                ghost detached: set<string>)
    returns (cutNext: Links, safeNext: set<string>, ghost nowCut: set<string>)
    requires Named(m) && parentOf.Keys == m.nodes.Keys && Closed(parentOf) && OrphansAre(m, detached, cut)
    requires i < |m.order| && m.order[i] in parentOf && Walked(parentOf, m.order, i, cutParents, safe, cut)
    modifies m.nodes.Values`orphaned
    ensures Walked(parentOf, m.order, i + 1, cutNext, safeNext, nowCut) && OrphansAre(m, detached, nowCut)
  {
    cutNext, nowCut := cutParents, cut;
    var path, stop := WalkUp(m.order, parentOf, i, cutParents, safe, cut);
    WalkedOneMore(parentOf, m.order, i, cutParents, safe, cut, path, stop);
    if stop.Some? && stop.value !in safe {
      cutNext := cutParents[stop.value := None];
      MarkOrphan(m, stop.value, detached, cut);
      nowCut := cut + {stop.value};
    }
    safeNext := safe + (set n | n in path);
  }

  // ---------------------------------------------------------------------
  // Children and roots
  // ---------------------------------------------------------------------

  /** Every node's children are those of the shape, in its order. */
  ghost predicate Linked(m: NodeMap, sh: Shape)
    reads m.nodes.Values
  {
    m.nodes.Keys == sh.kids.Keys && forall n :: n in m.nodes ==> Are(m, m.nodes[n].children, sh.kids[n])
  }

  /** One more row joins the children of its parent. */
  lemma MembersNext(m: NodeMap, p: Links, i: nat, parent: Option<string>, ns: seq<SpanNode>)
    requires i < |m.order| && Given(p.Keys, m.order) && m.order[i] in m.nodes
    requires Are(m, ns, Members(p, m.order[..i], parent))
    ensures Are(m, if p[m.order[i]] == parent then ns + [m.nodes[m.order[i]]] else ns,
                Members(p, m.order[..i + 1], parent))
  {
    assert m.order[..i + 1][..i] == m.order[..i];
  }

  /** The children of every node so far: those among the first `i` rows. */
  ghost predicate Hung(m: NodeMap, p: Links, i: nat)
    requires i <= |m.order| && Given(p.Keys, m.order)
    reads m.nodes.Values
  {
    forall n :: n in m.nodes ==> Are(m, m.nodes[n].children, Members(p, m.order[..i], Some(n)))
  }

  /** Hang every node under its parent, or among the roots. */
  method LinkChildren(m: NodeMap, parentOf: Links) returns (roots: seq<SpanNode>)
    requires Named(m) && Listed(m) && parentOf.Keys == m.nodes.Keys && Closed(parentOf)
    requires forall n :: n in m.nodes ==> m.nodes[n].children == []
    modifies m.nodes.Values`children
    ensures Given(parentOf.Keys, m.order)
    ensures Are(m, roots, Members(parentOf, m.order, None))
    ensures forall n :: n in m.nodes ==> Are(m, m.nodes[n].children, Members(parentOf, m.order, Some(n)))
  {
    roots := [];
    for i := 0 to |m.order|
      invariant Are(m, roots, Members(parentOf, m.order[..i], None)) && Hung(m, parentOf, i)
    {
      roots := HangNext(m, parentOf, i, roots);
    }
    assert m.order[..|m.order|] == m.order;
  }

  method HangNext(m: NodeMap, parentOf: Links, i: nat, roots: seq<SpanNode>) returns (next: seq<SpanNode>)
    requires i < |m.order| && Given(parentOf.Keys, m.order) && Hung(m, parentOf, i)
    requires m.order[i] in m.nodes && parentOf.Keys == m.nodes.Keys && Closed(parentOf) && Named(m)
    requires Are(m, roots, Members(parentOf, m.order[..i], None))
    modifies m.nodes.Values`children
    ensures Hung(m, parentOf, i + 1) && Are(m, next, Members(parentOf, m.order[..i + 1], None))
  {
    var node, p := m.nodes[m.order[i]], parentOf[m.order[i]];
    MembersNext(m, parentOf, i, None, roots);
    HangUnder(m, node, p, parentOf, i);
    next := if p.None? then roots + [node] else roots;
  }

  /** Add a node to its parent's children, if it has one. */
  method HangUnder(m: NodeMap, node: SpanNode, p: Option<string>, ghost parentOf: Links, ghost i: nat)
    requires i < |m.order| && Given(parentOf.Keys, m.order) && Hung(m, parentOf, i)
    requires m.order[i] in m.nodes && node == m.nodes[m.order[i]] && p == parentOf[m.order[i]]
    requires (p.Some? ==> p.value in m.nodes) && Named(m)
    modifies m.nodes.Values`children
    ensures Hung(m, parentOf, i + 1)
  {
    forall n | n in m.nodes { MembersNext(m, parentOf, i, Some(n), m.nodes[n].children); }
    if p.Some? {
      m.nodes[p.value].children := m.nodes[p.value].children + [node];
    }
  }

  function InsertNode(node: SpanNode, ns: seq<SpanNode>): seq<SpanNode> {
    if ns == [] then [node]
    else if StartThenId(node.span, ns[0].span) then [node] + ns
    else [ns[0]] + InsertNode(node, ns[1..])
  }

  /** `ns` ordered by start, then by id. */
  function SortNodes(ns: seq<SpanNode>): seq<SpanNode> {
    if ns == [] then [] else InsertNode(ns[0], SortNodes(ns[1..]))
  }

  lemma {:induction false} InsertMatches(m: NodeMap, r: Rows, ns: seq<SpanNode>, ids: seq<string>, n: string)
    requires Carries(m, r) && Are(m, ns, ids) && Given(r.spans.Keys, ids) && n in m.nodes
    ensures Are(m, InsertNode(m.nodes[n], ns), Insert(r.spans, n, ids))
  {
    if ns != [] {
      InsertMatches(m, r, ns[1..], ids[1..], n);
    }
  }

  lemma {:induction false} SortMatches(m: NodeMap, r: Rows, ns: seq<SpanNode>, ids: seq<string>)
    requires Carries(m, r) && Are(m, ns, ids) && Given(r.spans.Keys, ids)
    ensures Are(m, SortNodes(ns), Sort(r.spans, ids))
  {
    if ns != [] {
      SortMatches(m, r, ns[1..], ids[1..]);
      InsertMatches(m, r, SortNodes(ns[1..]), Sort(r.spans, ids[1..]), ids[0]);
    }
  }

  lemma SiblingsMatch(m: NodeMap, r: Rows, ns: seq<SpanNode>, parent: Option<string>)
    requires Holds(m, r) && Given(Parents(r).Keys, r.order)
    requires Are(m, ns, Members(Parents(r), r.order, parent))
    ensures Are(m, SortNodes(ns), Siblings(r, parent))
  {
    SiblingsGiven(r, parent);
    SortMatches(m, r, ns, Members(Parents(r), r.order, parent));
  }

  /** The children of every listed node are those of `kids`. */
  ghost predicate ChildrenListed(m: NodeMap, kids: map<string, seq<string>>, upTo: nat)
    requires Listed(m) && upTo <= |m.order|
    reads m.nodes.Values
  {
    forall j :: 0 <= j < upTo ==> m.order[j] in kids && Are(m, m.nodes[m.order[j]].children, kids[m.order[j]])
  }

  /** Put every node's children in order. */
  method SortChildren(m: NodeMap, ghost sorted: map<string, seq<string>>)
    requires Named(m) && Listed(m)
    requires forall j :: 0 <= j < |m.order| ==>
               m.order[j] in sorted && Are(m, SortNodes(m.nodes[m.order[j]].children), sorted[m.order[j]])
    modifies m.nodes.Values`children
    ensures ChildrenListed(m, sorted, |m.order|)
  {
    for i := 0 to |m.order|
      invariant ChildrenListed(m, sorted, i)
      invariant forall j :: i <= j < |m.order| ==> m.nodes[m.order[j]].children == old(m.nodes[m.order[j]].children)
    {
      var node := m.nodes[m.order[i]];
      node.children := SortNodes(node.children);
    }
  }

  // ---------------------------------------------------------------------
  // Depth-first walks
  // ---------------------------------------------------------------------

  function Reversed<T>(s: seq<T>): (r: seq<T>)
    ensures |r| == |s| && forall i :: 0 <= i < |s| ==> r[i] == s[|s| - 1 - i]
  {
    seq(|s|, i requires 0 <= i < |s| => s[|s| - 1 - i])
  }

  /** `ns` are the nodes at the roots of `ts`. */
  ghost predicate AtRoots(m: NodeMap, ns: seq<SpanNode>, ts: seq<Tree>) {
    |ns| == |ts| && forall i :: 0 <= i < |ns| ==> ts[i].id in m.nodes && ns[i] == m.nodes[ts[i].id]
  }

  /** The nodes' children are those of the trees. */
  ghost predicate Hangs(m: NodeMap, trees: map<string, Tree>)
    reads m.nodes.Values
  {
    m.nodes.Keys == trees.Keys && forall n :: n in m.nodes ==> AtRoots(m, m.nodes[n].children, trees[n].kids)
  }

  /** The stack holds the nodes of `todo`, next one on top. */
  ghost predicate Stacked(m: NodeMap, stack: seq<SpanNode>, todo: seq<Tree>) {
    AtRoots(m, Reversed(stack), todo)
  }

  lemma Popped(m: NodeMap, stack: seq<SpanNode>, todo: seq<Tree>)
    requires Stacked(m, stack, todo) && stack != []
    ensures todo != [] && todo[0].id in m.nodes && stack[|stack| - 1] == m.nodes[todo[0].id]
    ensures Stacked(m, stack[..|stack| - 1], todo[1..])
  {
    assert stack[|stack| - 1] == Reversed(stack)[0];
    var rest := Reversed(stack[..|stack| - 1]);
    assert forall i :: 0 <= i < |rest| ==> rest[i] == Reversed(stack)[i + 1];
  }

  lemma Pushed(m: NodeMap, stack: seq<SpanNode>, todo: seq<Tree>, ns: seq<SpanNode>, ts: seq<Tree>)
    requires Stacked(m, stack, todo) && AtRoots(m, ns, ts)
    ensures Stacked(m, stack + Reversed(ns), ts + todo)
  {
    var r := Reversed(stack + Reversed(ns));
    assert forall i :: 0 <= i < |ns| ==> r[i] == ns[i];
    assert forall i :: 0 <= i < |stack| ==> r[|ns| + i] == Reversed(stack)[i];
  }

  lemma PreOrderStep(out: seq<string>, todo: seq<Tree>)
    requires todo != []
    ensures out + PreAll(todo) == out + [todo[0].id] + PreAll(todo[0].kids + todo[1..])
    ensures |PreAll(todo[0].kids + todo[1..])| < |PreAll(todo)|
  {
    PreAllAppends(todo[0].kids, todo[1..]);
    Regroup(out, todo[0].id, PreAll(todo[0].kids), PreAll(todo[1..]));
  }

  lemma Regroup(out: seq<string>, n: string, below: seq<string>, rest: seq<string>)
    ensures out + ([n] + below + rest) == out + [n] + (below + rest)
  {
  }

  /** What is left to show once the first tree's root has been shown. */
  ghost function AfterRoot(todo: seq<Tree>, collapsed: set<string>): seq<Tree>
    requires todo != []
  {
    if todo[0].id in collapsed then todo[1..] else todo[0].kids + todo[1..]
  }

  lemma VisibleStep(out: seq<string>, todo: seq<Tree>, collapsed: set<string>)
    requires todo != []
    ensures out + VisibleAll(todo, collapsed) == out + [todo[0].id] + VisibleAll(AfterRoot(todo, collapsed), collapsed)
    ensures |PreAll(AfterRoot(todo, collapsed))| < |PreAll(todo)|
  {
    var rest := VisibleAll(todo[1..], collapsed);
    if todo[0].id in collapsed {
      Regroup(out, todo[0].id, [], rest);
      assert [] + rest == rest;
    } else {
      PreAllAppends(todo[0].kids, todo[1..]);
      VisibleAllAppends(todo[0].kids, todo[1..], collapsed);
      Regroup(out, todo[0].id, VisibleAll(todo[0].kids, collapsed), rest);
    }
  }

  lemma AfterRootInFamily(trees: map<string, Tree>, todo: seq<Tree>, collapsed: set<string>)
    requires todo != [] && Family(trees) && InFamily(trees, todo)
    ensures InFamily(trees, AfterRoot(todo, collapsed))
  {
    assert FamilyAt(trees, todo[0].id);
  }

  lemma IdsOneMore(ns: seq<SpanNode>, node: SpanNode)
    ensures Ids(ns + [node]) == Ids(ns) + [node.span.spanId]
  {
  }

  /** The rows visible under a set of collapsed spans, in rendering order. */
  method Flatten(ghost m: NodeMap, roots: seq<SpanNode>, collapsed: set<string>, ghost trees: map<string, Tree>,
                 ghost forest: seq<Tree>)
    returns (out: seq<SpanNode>)
    requires Named(m) && Family(trees) && Hangs(m, trees) && AtRoots(m, roots, forest) && InFamily(trees, forest)
    ensures Ids(out) == VisibleAll(forest, collapsed)
  {
    out := [];
    var stack := Reversed(roots);
    ghost var todo := forest;
    while stack != []
      invariant Stacked(m, stack, todo) && InFamily(trees, todo)
      invariant Ids(out) + VisibleAll(todo, collapsed) == VisibleAll(forest, collapsed)
      decreases |PreAll(todo)|
    {
      var node := stack[|stack| - 1];
      Popped(m, stack, todo);
      VisibleStep(Ids(out), todo, collapsed);
      AfterRootInFamily(trees, todo, collapsed);
      IdsOneMore(out, node);
      out := out + [node];
      stack := stack[..|stack| - 1];
      if node.span.spanId !in collapsed {
        Pushed(m, stack, todo[1..], node.children, todo[0].kids);
        stack := PushAll(stack, node.children);
      }
      todo := AfterRoot(todo, collapsed);
    }
  }

  /** Push children last first, so that the first is popped first. */
  method PushAll(stack: seq<SpanNode>, children: seq<SpanNode>) returns (pushed: seq<SpanNode>)
    ensures pushed == stack + Reversed(children)
  {
    pushed := stack;
    for i := |children| downto 0
      invariant pushed == stack + Reversed(children)[..|children| - i]
    {
      pushed := pushed + [children[i]];
    }
  }

  /** The nodes of `done` carry their depth. */
  ghost predicate DepthsAre(m: NodeMap, depths: map<string, nat>, done: set<string>)
    reads m.nodes.Values
  {
    forall n :: n in done ==> n in m.nodes && n in depths && m.nodes[n].depth == depths[n]
  }

  ghost predicate DepthsAlong(ns: seq<SpanNode>, ids: seq<string>, depths: map<string, nat>)
    requires |ns| == |ids|
    reads ns
  {
    forall i :: 0 <= i < |ns| ==> ids[i] in depths && ns[i].depth == depths[ids[i]]
  }

  ghost predicate RollsAlong(ns: seq<SpanNode>, rolls: seq<Rollup>)
    requires |ns| == |rolls|
    reads ns
  {
    forall i :: 0 <= i < |ns| ==> ns[i].rollup == rolls[i]
  }

  ghost predicate EvalsAre(m: NodeMap, evals: map<string, seq<EvalResult>>)
    reads m.nodes.Values
  {
    forall n :: n in m.nodes ==> n in evals && m.nodes[n].evals == evals[n]
  }

  ghost function RootIds(ts: seq<Tree>): set<string> {
    set i | 0 <= i < |ts| :: ts[i].id
  }

  /** Give every child its depth and push it, last first. */
  method PushChildren(ghost m: NodeMap, node: SpanNode, stack: seq<SpanNode>, ghost kids: seq<Tree>,
                      ghost depths: map<string, nat>, ghost done: set<string>)
    returns (pushed: seq<SpanNode>)
    requires Named(m) && AtRoots(m, node.children, kids) && DepthsAre(m, depths, done)
    requires node.span.spanId in done && m.nodes[node.span.spanId] == node
    requires forall i :: 0 <= i < |kids| ==> kids[i].id in depths && depths[kids[i].id] == node.depth + 1
    modifies m.nodes.Values`depth
    ensures pushed == stack + Reversed(node.children) && DepthsAre(m, depths, done + RootIds(kids))
  {
    pushed := stack;
    ghost var now := done;
    for i := |node.children| downto 0
      invariant pushed == stack + Reversed(node.children)[..|node.children| - i]
      invariant DepthsAre(m, depths, now) && done <= now && now == done + RootIds(kids[i..])
      invariant node.depth == old(node.depth)
    {
      var child := node.children[i];
      RootIdsFrom(kids, i);
      SetDepth(m, child, node.depth + 1, depths, now);
      pushed := pushed + [child];
      now := now + {kids[i].id};
    }
  }

  lemma RootIdsFrom(ts: seq<Tree>, i: nat)
    requires i < |ts|
    ensures RootIds(ts[i..]) == RootIds(ts[i + 1..]) + {ts[i].id}
  {
    assert ts[i..] == [ts[i]] + ts[i + 1..];
  }

  method SetDepth(ghost m: NodeMap, child: SpanNode, depth: nat, ghost depths: map<string, nat>, ghost done: set<string>)
    requires Named(m) && DepthsAre(m, depths, done) && child.span.spanId in m.nodes && m.nodes[child.span.spanId] == child
    requires child.span.spanId in depths && depths[child.span.spanId] == depth
    modifies child`depth
    ensures DepthsAre(m, depths, done + {child.span.spanId})
    ensures child.depth == depth
  {
    child.depth := depth;
  }

  lemma Joined(trees: map<string, Tree>, kids: seq<Tree>, todo: seq<Tree>)
    requires todo != [] && InFamily(trees, todo) && InFamily(trees, kids)
    ensures InFamily(trees, kids + todo[1..]) && RootIds(kids + todo[1..]) <= RootIds(kids) + RootIds(todo)
  {
    forall n | n in RootIds(kids + todo[1..]) ensures n in RootIds(kids) + RootIds(todo) {
      var i :| 0 <= i < |kids + todo[1..]| && (kids + todo[1..])[i].id == n;
      assert i >= |kids| ==> todo[i - |kids| + 1].id == n;
    }
  }

  lemma OneMore(m: NodeMap, ns: seq<SpanNode>, ids: seq<string>, n: string)
    requires Are(m, ns, ids) && n in m.nodes
    ensures Are(m, ns + [m.nodes[n]], ids + [n])
  {
  }

  /** The walk so far: `preOrder` are the nodes of `out`, the stack those of `todo`,
      and the nodes of `done`, which have come that far, carry their depths. */
  ghost predicate Walking(m: NodeMap, preOrder: seq<SpanNode>, out: seq<string>, stack: seq<SpanNode>, todo: seq<Tree>,
                          trees: map<string, Tree>, depths: map<string, nat>, done: set<string>)
    reads m.nodes.Values
  {
    && Are(m, preOrder, out) && Given(done, out)
    && Stacked(m, stack, todo) && InFamily(trees, todo)
    && DepthsAre(m, depths, done) && RootIds(todo) <= done
  }

  lemma WalkStarts(m: NodeMap, roots: seq<SpanNode>, forest: seq<Tree>, trees: map<string, Tree>,
                   depths: map<string, nat>)
    requires AtRoots(m, roots, forest) && InFamily(trees, forest) && DepthsAre(m, depths, RootIds(forest))
    ensures Walking(m, [], [], Reversed(roots), forest, trees, depths, RootIds(forest))
    ensures [] + PreAll(forest) == PreAll(forest)
  {
  }

  lemma WalkEnds(m: NodeMap, preOrder: seq<SpanNode>, out: seq<string>, todo: seq<Tree>, trees: map<string, Tree>,
                 depths: map<string, nat>, done: set<string>)
    requires Walking(m, preOrder, out, [], todo, trees, depths, done)
    ensures Are(m, preOrder, out + PreAll(todo)) && DepthsAlong(preOrder, out + PreAll(todo), depths)
  {
    assert todo == [] && out + PreAll(todo) == out;
  }

  /** Depths and the pre-order, by an explicit stack. */
  method SetDepths(ghost m: NodeMap, roots: seq<SpanNode>, ghost trees: map<string, Tree>, ghost forest: seq<Tree>,
                   ghost depths: map<string, nat>)
    returns (preOrder: seq<SpanNode>)
    requires Named(m) && Family(trees) && Stepped(trees, depths) && Hangs(m, trees)
    requires AtRoots(m, roots, forest) && InFamily(trees, forest) && DepthsAre(m, depths, RootIds(forest))
    modifies m.nodes.Values`depth
    ensures Are(m, preOrder, PreAll(forest)) && DepthsAlong(preOrder, PreAll(forest), depths)
  {
    preOrder := [];
    var stack := Reversed(roots);
    ghost var todo, done, out := forest, RootIds(forest), [];
    WalkStarts(m, roots, forest, trees, depths);
    while stack != []
      invariant Walking(m, preOrder, out, stack, todo, trees, depths, done) && Hangs(m, trees)
      invariant out + PreAll(todo) == PreAll(forest)
      decreases |PreAll(todo)|
    {
      preOrder, stack, out, todo, done := VisitNext(m, preOrder, out, stack, todo, trees, depths, done);
    }
    WalkEnds(m, preOrder, out, todo, trees, depths, done);
  }

  method VisitNext(ghost m: NodeMap, preOrder: seq<SpanNode>, ghost out: seq<string>, stack: seq<SpanNode>,
                   ghost todo: seq<Tree>, ghost trees: map<string, Tree>, ghost depths: map<string, nat>,
                   ghost done: set<string>)
    returns (visited: seq<SpanNode>, pushed: seq<SpanNode>, ghost seen: seq<string>, ghost rest: seq<Tree>,
             ghost now: set<string>)
    requires Named(m) && Family(trees) && Stepped(trees, depths) && Hangs(m, trees) && stack != []
    requires Walking(m, preOrder, out, stack, todo, trees, depths, done)
    modifies m.nodes.Values`depth
    ensures Walking(m, visited, seen, pushed, rest, trees, depths, now)
    ensures seen + PreAll(rest) == out + PreAll(todo) && |PreAll(rest)| < |PreAll(todo)|
  {
    Popped(m, stack, todo);
    PreOrderStep(out, todo);
    OneMore(m, preOrder, out, todo[0].id);
    visited, seen, rest := preOrder + [stack[|stack| - 1]], out + [todo[0].id], todo[0].kids + todo[1..];
    pushed, now := VisitTop(m, stack, todo, trees, depths, done);
  }

  /** Pop one node, and give its children their depths and push them. */
  method VisitTop(ghost m: NodeMap, stack: seq<SpanNode>, ghost todo: seq<Tree>, ghost trees: map<string, Tree>,
                  ghost depths: map<string, nat>, ghost done: set<string>)
    returns (pushed: seq<SpanNode>, ghost now: set<string>)
    requires Named(m) && Family(trees) && Stepped(trees, depths) && Hangs(m, trees) && stack != []
    requires Stacked(m, stack, todo) && InFamily(trees, todo) && DepthsAre(m, depths, done) && RootIds(todo) <= done
    modifies m.nodes.Values`depth
    ensures todo != [] && Stacked(m, pushed, todo[0].kids + todo[1..]) && InFamily(trees, todo[0].kids + todo[1..])
    ensures DepthsAre(m, depths, now) && RootIds(todo[0].kids + todo[1..]) <= now && done <= now && todo[0].id in now
  {
    var node := stack[|stack| - 1];
    Popped(m, stack, todo);
    ghost var kids := todo[0].kids;
    assert FamilyAt(trees, todo[0].id) && SteppedAt(trees, depths, todo[0].id);
    Pushed(m, stack[..|stack| - 1], todo[1..], node.children, kids);
    pushed := PushChildren(m, node, stack[..|stack| - 1], kids, depths, done);
    now := done + RootIds(kids);
    Joined(trees, kids, todo);
  }

  // ---------------------------------------------------------------------
  // Evaluations and roll-ups
  // ---------------------------------------------------------------------

  /** The nodes carry these results and these roll-ups. */
  ghost predicate Filed(m: NodeMap, evals: map<string, seq<EvalResult>>, own: map<string, Rollup>)
    reads m.nodes.Values
  {
    forall n :: n in m.nodes ==> n in evals && n in own && m.nodes[n].evals == evals[n] && m.nodes[n].rollup == own[n]
  }

  ghost function Counted(own: Rollup, result: EvalResult): Rollup {
    own.(evalCount := own.evalCount + 1, evalFailCount := own.evalFailCount + if Fails(result) then 1 else 0)
  }

  /** What one more result does to the row it names, and only to it. */
  ghost predicate FiledNext(before: map<string, seq<EvalResult>>, own: map<string, Rollup>,
                            after: map<string, seq<EvalResult>>, ownAfter: map<string, Rollup>, result: EvalResult) {
    && after.Keys == before.Keys == own.Keys == ownAfter.Keys
    && (forall n :: n in before ==> after[n] == before[n] + if result.spanId == n then [result] else [])
    && (forall n :: n in own ==> ownAfter[n] == if result.spanId == n then Counted(own[n], result) else own[n])
  }

  lemma EvalsNext(r: Rows, evals: seq<EvalResult>, i: nat)
    requires i < |evals|
    ensures FiledNext(FiledAfter(r, evals, i), OwnAfter(r, evals, i),
                      FiledAfter(r, evals, i + 1), OwnAfter(r, evals, i + 1), evals[i])
  {
  }

  /** File each result under its span; a result for a span that is not there is
      ignored. */
  method AttachEvals(m: NodeMap, ghost r: Rows, evals: seq<EvalResult>)
    requires m.nodes.Keys == r.spans.Keys && Named(m) && Filed(m, FiledAfter(r, evals, 0), OwnAfter(r, evals, 0))
    modifies m.nodes.Values`evals, m.nodes.Values`rollup
    ensures Filed(m, FiledAfter(r, evals, |evals|), OwnOf(r, evals))
  {
    for i := 0 to |evals|
      invariant Filed(m, FiledAfter(r, evals, i), OwnAfter(r, evals, i))
    {
      AttachNext(m, r, evals, i);
    }
  }

  method AttachNext(m: NodeMap, ghost r: Rows, evals: seq<EvalResult>, i: nat)
    requires i < |evals| && Named(m) && Filed(m, FiledAfter(r, evals, i), OwnAfter(r, evals, i))
    modifies m.nodes.Values`evals, m.nodes.Values`rollup
    ensures Filed(m, FiledAfter(r, evals, i + 1), OwnAfter(r, evals, i + 1))
  {
    EvalsNext(r, evals, i);
    AttachEval(m, evals[i], FiledAfter(r, evals, i), OwnAfter(r, evals, i),
               FiledAfter(r, evals, i + 1), OwnAfter(r, evals, i + 1));
  }

  method AttachEval(m: NodeMap, result: EvalResult, ghost before: map<string, seq<EvalResult>>,
                    ghost own: map<string, Rollup>, ghost after: map<string, seq<EvalResult>>,
                    ghost ownAfter: map<string, Rollup>)
    requires Named(m) && Filed(m, before, own) && FiledNext(before, own, after, ownAfter, result)
    modifies m.nodes.Values`evals, m.nodes.Values`rollup
    ensures Filed(m, after, ownAfter)
  {
    if result.spanId in m.nodes {
      var node := m.nodes[result.spanId];
      node.evals := node.evals + [result];
      node.rollup := node.rollup.(evalCount := node.rollup.evalCount + 1);
      if result.errorType != "" || !result.passed {
        node.rollup := node.rollup.(evalFailCount := node.rollup.evalFailCount + 1);
      }
    }
  }

  /** `start` and the first `j` roll-ups. */
  ghost function AddedSome(start: Rollup, rolls: seq<Rollup>, j: nat): Rollup
    requires j <= |rolls|
  {
    if j == 0 then start else Plus(AddedSome(start, rolls, j - 1), rolls[j - 1])
  }

  /** Add the children's roll-ups to their parent's. */
  method AddChildren(node: SpanNode, ghost rolls: seq<Rollup>)
    requires |rolls| == |node.children|
    requires forall i :: 0 <= i < |rolls| ==> node.children[i] != node && node.children[i].rollup == rolls[i]
    modifies node`rollup
    ensures node.rollup == AddedSome(old(node.rollup), rolls, |rolls|)
  {
    for j := 0 to |node.children|
      invariant node.rollup == AddedSome(old(node.rollup), rolls, j)
      invariant forall i :: 0 <= i < |rolls| ==> node.children[i].rollup == rolls[i]
    {
      node.rollup := Plus(node.rollup, node.children[j].rollup);
    }
  }

  ghost function RollsOf(own: map<string, Rollup>, kids: seq<Tree>): seq<Rollup> {
    seq(|kids|, i requires 0 <= i < |kids| => Roll(own, kids[i]))
  }

  lemma {:induction false} AddedAll(start: Rollup, own: map<string, Rollup>, kids: seq<Tree>, j: nat)
    requires j <= |kids|
    ensures Plus(AddedSome(start, RollsOf(own, kids), j), RollAll(own, kids[j..])) ==
            AddedSome(start, RollsOf(own, kids), |kids|)
    decreases |kids| - j
  {
    var rolls := RollsOf(own, kids);
    if j == |kids| {
      PlusMoves(AddedSome(start, rolls, j), ZeroRollup, ZeroRollup);
    } else {
      AddedAll(start, own, kids, j + 1);
      assert kids[j..][1..] == kids[j + 1..];
      PlusMoves(AddedSome(start, rolls, j), Roll(own, kids[j]), RollAll(own, kids[j + 1..]));
    }
  }

  lemma AddedIsRoll(own: map<string, Rollup>, t: Tree)
    ensures AddedSome(Own(own, t.id), RollsOf(own, t.kids), |t.kids|) == Roll(own, t)
  {
    AddedAll(Own(own, t.id), own, t.kids, 0);
    assert t.kids[0..] == t.kids;
  }

  /** A child is a different node, later in the pre-order. */
  lemma ChildAt(m: NodeMap, preOrder: seq<SpanNode>, trees: map<string, Tree>, forest: seq<Tree>, i: nat,
                children: seq<SpanNode>, k: nat)
    returns (j: nat)
    requires Named(m) && Family(trees) && InFamily(trees, forest)
    requires Are(m, preOrder, PreAll(forest)) && Once(PreAll(forest)) && i < |preOrder|
    requires AtRoots(m, children, At(forest, i).kids) && k < |children|
    ensures i < j < |preOrder| && children[k] == preOrder[j] && At(forest, j) == At(forest, i).kids[k]
    ensures preOrder[j] != preOrder[i]
  {
    j := KidAfter(forest, i, k);
    AtInFamily(trees, forest, i);
    AtInFamily(trees, forest, j);
    assert FamilyAt(trees, PreAll(forest)[i]);
  }

  ghost function RollsAt(own: map<string, Rollup>, forest: seq<Tree>): (rolls: seq<Rollup>)
    ensures |rolls| == |PreAll(forest)| && forall i :: 0 <= i < |rolls| ==> rolls[i] == Roll(own, At(forest, i))
  {
    seq(|PreAll(forest)|, i requires 0 <= i < |PreAll(forest)| => Roll(own, At(forest, i)))
  }

  /** One pass in reverse pre-order. */
  method RollUp(ghost m: NodeMap, preOrder: seq<SpanNode>, ghost own: map<string, Rollup>, ghost trees: map<string, Tree>,
                ghost forest: seq<Tree>)
    requires Named(m) && Family(trees) && Hangs(m, trees) && InFamily(trees, forest)
    requires Are(m, preOrder, PreAll(forest)) && Once(PreAll(forest))
    requires forall i :: 0 <= i < |preOrder| ==> preOrder[i].rollup == Own(own, PreAll(forest)[i])
    modifies m.nodes.Values`rollup
    ensures RollsAlong(preOrder, RollsAt(own, forest))
  {
    ghost var ids, rolls := PreAll(forest), RollsAt(own, forest);
    for i := |preOrder| downto 0
      invariant forall k :: i <= k < |preOrder| ==> preOrder[k].rollup == rolls[k]
      invariant forall k :: 0 <= k < i ==> preOrder[k].rollup == Own(own, ids[k])
    {
      RollNode(m, preOrder, own, trees, forest, rolls, i, preOrder[i]);
    }
  }

  method RollNode(ghost m: NodeMap, ghost preOrder: seq<SpanNode>, ghost own: map<string, Rollup>,
                  ghost trees: map<string, Tree>, ghost forest: seq<Tree>, ghost rolls: seq<Rollup>, ghost i: nat,
                  node: SpanNode)
    requires Named(m) && Family(trees) && Hangs(m, trees) && InFamily(trees, forest)
    requires Are(m, preOrder, PreAll(forest)) && Once(PreAll(forest)) && i < |preOrder| && rolls == RollsAt(own, forest)
    requires forall k :: i < k < |preOrder| ==> preOrder[k].rollup == rolls[k]
    requires node == preOrder[i] && node.rollup == Own(own, PreAll(forest)[i])
    modifies node`rollup
    ensures node.rollup == rolls[i]
    ensures forall k :: 0 <= k < |preOrder| && k != i ==> preOrder[k].rollup == old(preOrder[k].rollup)
  {
    AtInFamily(trees, forest, i);
    ghost var kids := At(forest, i).kids;
    forall k | 0 <= k < |kids| ensures node.children[k].rollup == Roll(own, kids[k]) && node.children[k] != node {
      var j := ChildAt(m, preOrder, trees, forest, i, node.children, k);
    }
    AddedIsRoll(own, At(forest, i));
    AddChildren(node, RollsOf(own, kids));
  }

  // ---------------------------------------------------------------------
  // The whole tree
  // ---------------------------------------------------------------------

  datatype SpanTree = SpanTree(roots: seq<SpanNode>, byId: NodeMap, nodeCount: nat, orphanCount: nat, pendingCount: nat)

  ghost function KidsOf(r: Rows): map<string, seq<string>>
    requires IsRows(r)
  {
    map n | n in r.spans :: Siblings(r, Some(n))
  }

  ghost predicate Unlinked(m: NodeMap)
    reads m.nodes.Values
  {
    forall n :: n in m.nodes ==> m.nodes[n].children == []
  }

  /** Nothing has been measured yet. */
  ghost predicate Unmeasured(m: NodeMap)
    reads m.nodes.Values
  {
    forall n :: n in m.nodes ==>
      m.nodes[n].depth == 0 && m.nodes[n].evals == [] && m.nodes[n].rollup == OwnRollup(m.nodes[n].span)
  }

  /** Parents resolved and cycles cut. */
  method LinkParents(m: NodeMap, ghost r: Rows) returns (parentOf: Links)
    requires Holds(m, r) && OrphansAre(m, {}, {})
    modifies m.nodes.Values`orphaned
    ensures parentOf == Parents(r) && OrphansAre(m, OrphanIds(r), {})
  {
    ParentsAreRooted(r);
    var resolved := ResolveParents(m, r);
    AllResolved(r, resolved);
    ghost var cut;
    parentOf, cut := CutCycles(m, resolved, DetachedIds(r));
    assert DetachedIds(r) + cut == OrphanIds(r);
  }

  /** Each node's children are those of the links, in row order. */
  ghost predicate Unsorted(m: NodeMap, r: Rows)
    requires IsRows(r) && Given(Parents(r).Keys, r.order)
    reads m.nodes.Values
  {
    forall n :: n in m.nodes ==> Are(m, m.nodes[n].children, Members(Parents(r), r.order, Some(n)))
  }

  lemma SortedMatch(m: NodeMap, r: Rows)
    requires Holds(m, r) && Given(Parents(r).Keys, r.order) && Unsorted(m, r)
    ensures forall j :: 0 <= j < |m.order| ==>
              m.order[j] in KidsOf(r) && Are(m, SortNodes(m.nodes[m.order[j]].children), KidsOf(r)[m.order[j]])
  {
    forall j | 0 <= j < |m.order|
      ensures m.order[j] in KidsOf(r) && Are(m, SortNodes(m.nodes[m.order[j]].children), KidsOf(r)[m.order[j]])
    {
      SiblingsMatch(m, r, m.nodes[m.order[j]].children, Some(m.order[j]));
    }
  }

  /** Children and roots in order. */
  method LinkAndSort(m: NodeMap, ghost r: Rows, parentOf: Links) returns (roots: seq<SpanNode>)
    requires Holds(m, r) && parentOf == Parents(r) && Unlinked(m)
    modifies m.nodes.Values`children
    ensures ChildrenListed(m, KidsOf(r), |m.order|) && Are(m, roots, Siblings(r, None))
  {
    assert Closed(parentOf) && parentOf.Keys == r.spans.Keys by { ParentsAreRooted(r); }
    var unsorted := LinkChildren(m, parentOf);
    SiblingsMatch(m, r, unsorted, None);
    SortedMatch(m, r);
    SortChildren(m, KidsOf(r));
    roots := SortNodes(unsorted);
  }

  lemma ChildrenLinked(m: NodeMap, r: Rows)
    requires Holds(m, r) && ChildrenListed(m, KidsOf(r), |m.order|)
    ensures Linked(m, ShapeOf(r))
  {
    forall n | n in m.nodes ensures Are(m, m.nodes[n].children, ShapeOf(r).kids[n]) {
      assert Lists(r.order, n);
      var j :| 0 <= j < |r.order| && r.order[j] == n;
    }
  }

  lemma TreesHang(m: NodeMap, sh: Shape, roots: seq<SpanNode>)
    requires IsShape(sh) && Linked(m, sh) && Are(m, roots, sh.roots)
    ensures Hangs(m, TreesOf(sh)) && AtRoots(m, roots, ForestOf(sh))
  {
    forall n | n in m.nodes ensures AtRoots(m, m.nodes[n].children, TreesOf(sh)[n].kids) {
      SubtreeKids(sh, n);
    }
    ForestAt(sh);
  }

  /** The ordered forest of rows `r`, its subtrees, and their depths. */
  ghost function Forest(r: Rows): seq<Tree>
    requires IsRows(r)
  {
    ShapeIsShape(r);
    ForestOf(ShapeOf(r))
  }

  ghost function Trees(r: Rows): map<string, Tree>
    requires IsRows(r)
  {
    ShapeIsShape(r);
    TreesOf(ShapeOf(r))
  }

  ghost function Depths(r: Rows): map<string, nat>
    requires IsRows(r)
  {
    ParentsAreRooted(r);
    DepthsOf(Parents(r))
  }

  lemma TreesAreReady(m: NodeMap, r: Rows, roots: seq<SpanNode>)
    requires Holds(m, r) && ChildrenListed(m, KidsOf(r), |m.order|) && Are(m, roots, Siblings(r, None))
    requires forall n :: n in m.nodes ==> m.nodes[n].depth == 0
    ensures Family(Trees(r)) && Stepped(Trees(r), Depths(r)) && Hangs(m, Trees(r))
    ensures AtRoots(m, roots, Forest(r)) && InFamily(Trees(r), Forest(r)) && Once(PreAll(Forest(r)))
    ensures DepthsAre(m, Depths(r), RootIds(Forest(r)))
  {
    ShapeIsShape(r);
    ChildrenLinked(m, r);
    TreesHang(m, ShapeOf(r), roots);
    TreesAreFamily(ShapeOf(r));
    ForestHoldsEverySpanOnce(ShapeOf(r));
  }

  /** What the nodes carry once depths, evaluations and roll-ups are in place. */
  ghost predicate Measured(m: NodeMap, sh: Shape, evals: map<string, seq<EvalResult>>, own: map<string, Rollup>)
    requires IsShape(sh)
    reads m.nodes.Values
  {
    && DepthsAre(m, DepthsOf(sh.parents), sh.parents.Keys)
    && EvalsAre(m, evals)
    && (forall n :: n in sh.parents ==> n in m.nodes && m.nodes[n].rollup == Roll(own, SubtreeOf(sh, n)))
  }

  /** Depths, evaluations and roll-ups in place along the pre-order. */
  ghost predicate MeasuredAlong(m: NodeMap, preOrder: seq<SpanNode>, forest: seq<Tree>, depths: map<string, nat>,
                                evals: map<string, seq<EvalResult>>, own: map<string, Rollup>)
    reads m.nodes.Values, preOrder
  {
    && Are(m, preOrder, PreAll(forest)) && EvalsAre(m, evals)
    && DepthsAlong(preOrder, PreAll(forest), depths) && RollsAlong(preOrder, RollsAt(own, forest))
  }

  method Measure(m: NodeMap, roots: seq<SpanNode>, evals: seq<EvalResult>, ghost r: Rows,
                 ghost trees: map<string, Tree>, ghost forest: seq<Tree>, ghost depths: map<string, nat>)
    returns (ghost preOrder: seq<SpanNode>)
    requires Named(m) && m.nodes.Keys == r.spans.Keys && Family(trees) && Stepped(trees, depths)
    requires Hangs(m, trees) && AtRoots(m, roots, forest) && InFamily(trees, forest) && Once(PreAll(forest))
    requires DepthsAre(m, depths, RootIds(forest)) && Filed(m, FiledAfter(r, evals, 0), OwnAfter(r, evals, 0))
    modifies m.nodes.Values`depth, m.nodes.Values`evals, m.nodes.Values`rollup
    ensures MeasuredAlong(m, preOrder, forest, depths, FiledAfter(r, evals, |evals|), OwnOf(r, evals))
  {
    var visited := Descend(m, roots, trees, forest, depths, FiledAfter(r, evals, 0), OwnAfter(r, evals, 0));
    Total(m, visited, evals, r, trees, forest, depths);
    preOrder := visited;
  }

  /** Depths, all else as it was. */
  method Descend(ghost m: NodeMap, roots: seq<SpanNode>, ghost trees: map<string, Tree>, ghost forest: seq<Tree>,
                 ghost depths: map<string, nat>, ghost evals: map<string, seq<EvalResult>>, ghost own: map<string, Rollup>)
    returns (preOrder: seq<SpanNode>)
    requires Named(m) && Family(trees) && Stepped(trees, depths) && Hangs(m, trees) && Filed(m, evals, own)
    requires AtRoots(m, roots, forest) && InFamily(trees, forest) && DepthsAre(m, depths, RootIds(forest))
    modifies m.nodes.Values`depth
    ensures Are(m, preOrder, PreAll(forest)) && DepthsAlong(preOrder, PreAll(forest), depths)
    ensures Hangs(m, trees) && Filed(m, evals, own)
  {
    preOrder := SetDepths(m, roots, trees, forest, depths);
  }

  /** Evaluations and roll-ups, all else as it was. */
  method Total(m: NodeMap, preOrder: seq<SpanNode>, evals: seq<EvalResult>, ghost r: Rows,
               ghost trees: map<string, Tree>, ghost forest: seq<Tree>, ghost depths: map<string, nat>)
    requires Named(m) && m.nodes.Keys == r.spans.Keys && Filed(m, FiledAfter(r, evals, 0), OwnAfter(r, evals, 0))
    requires Family(trees) && Hangs(m, trees) && InFamily(trees, forest)
    requires Are(m, preOrder, PreAll(forest)) && Once(PreAll(forest)) && DepthsAlong(preOrder, PreAll(forest), depths)
    modifies m.nodes.Values`evals, m.nodes.Values`rollup
    ensures EvalsAre(m, FiledAfter(r, evals, |evals|)) && RollsAlong(preOrder, RollsAt(OwnOf(r, evals), forest))
    ensures DepthsAlong(preOrder, PreAll(forest), depths)
  {
    FileAndRoll(m, preOrder, evals, r, trees, forest);
  }

  /** Depths, evaluations and roll-ups, all else as it was. */
  method Finish(m: NodeMap, roots: seq<SpanNode>, evals: seq<EvalResult>, ghost r: Rows,
                ghost trees: map<string, Tree>, ghost forest: seq<Tree>, ghost depths: map<string, nat>,
                ghost kids: map<string, seq<string>>, ghost pendingIds: set<string>, ghost orphanIds: set<string>)
    returns (ghost preOrder: seq<SpanNode>)
    requires Named(m) && m.nodes.Keys == r.spans.Keys && Family(trees) && Stepped(trees, depths)
    requires Hangs(m, trees) && AtRoots(m, roots, forest) && InFamily(trees, forest) && Once(PreAll(forest))
    requires DepthsAre(m, depths, RootIds(forest)) && Filed(m, FiledAfter(r, evals, 0), OwnAfter(r, evals, 0))
    requires Listed(m) && ChildrenListed(m, kids, |m.order|) && PendingAre(m, pendingIds) && OrphansAre(m, orphanIds, {})
    modifies m.nodes.Values`depth, m.nodes.Values`evals, m.nodes.Values`rollup
    ensures MeasuredAlong(m, preOrder, forest, depths, FiledAfter(r, evals, |evals|), OwnOf(r, evals))
    ensures ChildrenListed(m, kids, |m.order|) && PendingAre(m, pendingIds) && OrphansAre(m, orphanIds, {})
  {
    preOrder := MeasureListed(m, roots, evals, r, trees, forest, depths, kids);
  }

  method MeasureListed(m: NodeMap, roots: seq<SpanNode>, evals: seq<EvalResult>, ghost r: Rows,
                       ghost trees: map<string, Tree>, ghost forest: seq<Tree>, ghost depths: map<string, nat>,
                       ghost kids: map<string, seq<string>>)
    returns (ghost preOrder: seq<SpanNode>)
    requires Named(m) && m.nodes.Keys == r.spans.Keys && Family(trees) && Stepped(trees, depths)
    requires Hangs(m, trees) && AtRoots(m, roots, forest) && InFamily(trees, forest) && Once(PreAll(forest))
    requires DepthsAre(m, depths, RootIds(forest)) && Filed(m, FiledAfter(r, evals, 0), OwnAfter(r, evals, 0))
    requires Listed(m) && ChildrenListed(m, kids, |m.order|)
    modifies m.nodes.Values`depth, m.nodes.Values`evals, m.nodes.Values`rollup
    ensures MeasuredAlong(m, preOrder, forest, depths, FiledAfter(r, evals, |evals|), OwnOf(r, evals))
    ensures ChildrenListed(m, kids, |m.order|)
  {
    preOrder := Measure(m, roots, evals, r, trees, forest, depths);
  }

  /** Evaluations filed, then every roll-up. */
  method FileAndRoll(m: NodeMap, preOrder: seq<SpanNode>, evals: seq<EvalResult>, ghost r: Rows,
                     ghost trees: map<string, Tree>, ghost forest: seq<Tree>)
    requires Named(m) && m.nodes.Keys == r.spans.Keys && Filed(m, FiledAfter(r, evals, 0), OwnAfter(r, evals, 0))
    requires Family(trees) && Hangs(m, trees) && InFamily(trees, forest)
    requires Are(m, preOrder, PreAll(forest)) && Once(PreAll(forest))
    modifies m.nodes.Values`evals, m.nodes.Values`rollup
    ensures EvalsAre(m, FiledAfter(r, evals, |evals|)) && RollsAlong(preOrder, RollsAt(OwnOf(r, evals), forest))
  {
    File(m, evals, r, trees);
    OwnAlong(m, preOrder, PreAll(forest), FiledAfter(r, evals, |evals|), OwnOf(r, evals));
    RollAllUp(m, preOrder, OwnOf(r, evals), trees, forest, FiledAfter(r, evals, |evals|));
  }

  /** Evaluations, all else as it was. */
  method File(m: NodeMap, evals: seq<EvalResult>, ghost r: Rows, ghost trees: map<string, Tree>)
    requires Named(m) && m.nodes.Keys == r.spans.Keys && Filed(m, FiledAfter(r, evals, 0), OwnAfter(r, evals, 0))
    requires Hangs(m, trees)
    modifies m.nodes.Values`evals, m.nodes.Values`rollup
    ensures Filed(m, FiledAfter(r, evals, |evals|), OwnOf(r, evals)) && Hangs(m, trees)
  {
    AttachEvals(m, r, evals);
  }

  /** Roll-ups, all else as it was. */
  method RollAllUp(ghost m: NodeMap, preOrder: seq<SpanNode>, ghost own: map<string, Rollup>, ghost trees: map<string, Tree>,
               ghost forest: seq<Tree>, ghost evals: map<string, seq<EvalResult>>)
    requires Named(m) && Family(trees) && Hangs(m, trees) && InFamily(trees, forest) && EvalsAre(m, evals)
    requires Are(m, preOrder, PreAll(forest)) && Once(PreAll(forest))
    requires forall i :: 0 <= i < |preOrder| ==> preOrder[i].rollup == Own(own, PreAll(forest)[i])
    modifies m.nodes.Values`rollup
    ensures RollsAlong(preOrder, RollsAt(own, forest)) && EvalsAre(m, evals)
  {
    RollUp(m, preOrder, own, trees, forest);
  }

  lemma OwnAlong(m: NodeMap, preOrder: seq<SpanNode>, ids: seq<string>, evals: map<string, seq<EvalResult>>,
                 own: map<string, Rollup>)
    requires Are(m, preOrder, ids) && Filed(m, evals, own)
    ensures forall i :: 0 <= i < |preOrder| ==> preOrder[i].rollup == Own(own, ids[i])
  {
  }

  lemma MeasuredAll(m: NodeMap, sh: Shape, preOrder: seq<SpanNode>, evals: map<string, seq<EvalResult>>,
                    own: map<string, Rollup>)
    requires IsShape(sh) && MeasuredAlong(m, preOrder, ForestOf(sh), DepthsOf(sh.parents), evals, own)
    ensures Measured(m, sh, evals, own)
  {
    AllRolled(m, sh, own, preOrder);
    ForestHoldsEverySpanOnce(sh);
    var ids := PreAll(ForestOf(sh));
    forall n | n in sh.parents ensures n in m.nodes && m.nodes[n].depth == DepthsOf(sh.parents)[n] {
      assert n in ids;
      var i :| 0 <= i < |ids| && ids[i] == n;
    }
  }

  lemma AllRolled(m: NodeMap, sh: Shape, own: map<string, Rollup>, preOrder: seq<SpanNode>)
    requires IsShape(sh) && Are(m, preOrder, PreAll(ForestOf(sh)))
    requires RollsAlong(preOrder, RollsAt(own, ForestOf(sh)))
    ensures forall n :: n in sh.parents ==> n in m.nodes && m.nodes[n].rollup == Roll(own, SubtreeOf(sh, n))
  {
    TreesAreFamily(sh);
    ForestHoldsEverySpanOnce(sh);
    forall n | n in sh.parents ensures n in m.nodes && m.nodes[n].rollup == Roll(own, SubtreeOf(sh, n)) {
      RolledAt(m, ForestOf(sh), TreesOf(sh), own, preOrder, n);
    }
  }

  lemma RolledAt(m: NodeMap, forest: seq<Tree>, trees: map<string, Tree>, own: map<string, Rollup>,
                 preOrder: seq<SpanNode>, n: string)
    requires Are(m, preOrder, PreAll(forest)) && RollsAlong(preOrder, RollsAt(own, forest)) && n in PreAll(forest)
    requires Family(trees) && InFamily(trees, forest)
    ensures n in m.nodes && n in trees && m.nodes[n].rollup == Roll(own, trees[n])
  {
    var ids := PreAll(forest);
    var i :| 0 <= i < |ids| && ids[i] == n;
    AtInFamily(trees, forest, i);
  }

  method CountFlags(m: NodeMap) returns (orphans: nat, pendings: nat, ghost o: set<string>, ghost p: set<string>)
    requires Listed(m)
    ensures orphans == |o| && pendings == |p| && o <= m.nodes.Keys && p <= m.nodes.Keys
    ensures forall j :: 0 <= j < |m.order| ==> (m.order[j] in o <==> m.nodes[m.order[j]].orphaned)
    ensures forall j :: 0 <= j < |m.order| ==> (m.order[j] in p <==> m.nodes[m.order[j]].pending)
  {
    orphans, pendings, o, p := 0, 0, {}, {};
    for i := 0 to |m.order|
      invariant orphans == |o| && pendings == |p| && o <= m.nodes.Keys && p <= m.nodes.Keys
      invariant forall j :: 0 <= j < |m.order| ==> (m.order[j] in o <==> j < i && m.nodes[m.order[j]].orphaned)
      invariant forall j :: 0 <= j < |m.order| ==> (m.order[j] in p <==> j < i && m.nodes[m.order[j]].pending)
    {
      var node := m.nodes[m.order[i]];
      if node.orphaned {
        orphans := orphans + 1;
        o := o + {m.order[i]};
      }
      if node.pending {
        pendings := pendings + 1;
        p := p + {m.order[i]};
      }
    }
  }

  lemma CountedAll(order: seq<string>, rows: set<string>, counted: set<string>, flagged: set<string>)
    requires (forall n {:trigger Lists(order, n)} :: n in rows ==> Lists(order, n)) && counted <= rows && flagged <= rows
    requires forall j :: 0 <= j < |order| ==> (order[j] in counted <==> order[j] in flagged)
    ensures counted == flagged
  {
    forall n | n in rows ensures n in counted <==> n in flagged {
      assert Lists(order, n);
      var j :| 0 <= j < |order| && order[j] == n;
    }
  }

  /** The tree is that of rows `r`, of which those of `pendingIds` are placeholders. */
  ghost predicate Built(tree: SpanTree, r: Rows, pendingIds: set<string>, evals: seq<EvalResult>)
    requires IsRows(r) && IsShape(ShapeOf(r))
    reads tree.byId.nodes.Values
  {
    var m := tree.byId;
    && Holds(m, r) && AllLabelled(m) && Linked(m, ShapeOf(r)) && Are(m, tree.roots, ShapeOf(r).roots)
    && Measured(m, ShapeOf(r), FiledAfter(r, evals, |evals|), OwnOf(r, evals))
    && PendingAre(m, pendingIds) && OrphansAre(m, OrphanIds(r), {})
    && tree.nodeCount == |r.spans| && tree.orphanCount == |OrphanIds(r)| && tree.pendingCount == |pendingIds|
  }

  /** The nodes, placeholders included. */
  method MakeNodes(spans: seq<TraceSpan>, pendingParents: bool) returns (m: NodeMap)
    ensures Holds(m, AllRows(spans, pendingParents)) && AllBlank(m) && AllLabelled(m)
    ensures PendingAre(m, PendingIds(spans, pendingParents)) && PendingIds(spans, pendingParents) <= m.nodes.Keys
    ensures forall n :: n in m.nodes ==> fresh(m.nodes[n])
  {
    m := IndexSpans(spans);
    if pendingParents {
      WithPendingAdds(Indexed(spans));
      ghost var ids;
      m, ids := AddPending(m, Indexed(spans));
    }
  }

  method CountNodes(m: NodeMap, roots: seq<SpanNode>, ghost r: Rows, ghost pendingIds: set<string>) returns (tree: SpanTree)
    requires Holds(m, r) && PendingAre(m, pendingIds) && OrphansAre(m, OrphanIds(r), {}) && pendingIds <= m.nodes.Keys
    ensures tree.roots == roots && tree.byId == m
    ensures tree.nodeCount == |r.spans| && tree.orphanCount == |OrphanIds(r)| && tree.pendingCount == |pendingIds|
  {
    ghost var o, p;
    var orphans, pendings;
    orphans, pendings, o, p := CountFlags(m);
    CountedAll(r.order, r.spans.Keys, o, OrphanIds(r));
    CountedAll(r.order, r.spans.Keys, p, pendingIds);
    assert |m.nodes| == |m.nodes.Keys| && |r.spans| == |r.spans.Keys|;
    tree := SpanTree(roots, m, |m.nodes|, orphans, pendings);
  }

  /** The span tree of a payload. */
  method BuildSpanTree(spans: seq<TraceSpan>, evals: seq<EvalResult>, pendingParents: bool) returns (tree: SpanTree)
    ensures IsRows(AllRows(spans, pendingParents)) && IsShape(ShapeOf(AllRows(spans, pendingParents)))
    ensures Built(tree, AllRows(spans, pendingParents), PendingIds(spans, pendingParents), evals)
    ensures forall n :: n in tree.byId.nodes ==> fresh(tree.byId.nodes[n])
  {
    AllRowsIsRows(spans, pendingParents);
    ghost var r, pendingIds := AllRows(spans, pendingParents), PendingIds(spans, pendingParents);
    var m := MakeNodes(spans, pendingParents);
    ghost var preOrder;
    tree, preOrder := Assemble(m, evals, r, pendingIds);
    ShapeIsShape(r);
    ChildrenLinked(m, r);
    MeasuredAll(m, ShapeOf(r), preOrder, FiledAfter(r, evals, |evals|), OwnOf(r, evals));
  }

  lemma UnmeasuredIsFiled(m: NodeMap, r: Rows, evals: seq<EvalResult>)
    requires Carries(m, r) && Unmeasured(m)
    ensures Filed(m, FiledAfter(r, evals, 0), OwnAfter(r, evals, 0))
  {
  }

  /** Parents, all else as it was. */
  method Adopt(m: NodeMap, ghost r: Rows, ghost pendingIds: set<string>) returns (parentOf: Links)
    requires Holds(m, r) && AllBlank(m) && PendingAre(m, pendingIds)
    modifies m.nodes.Values`orphaned
    ensures parentOf == Parents(r) && OrphansAre(m, OrphanIds(r), {})
    ensures Unlinked(m) && Unmeasured(m) && PendingAre(m, pendingIds)
  {
    parentOf := LinkParents(m, r);
  }

  /** Children and roots, all else as it was. */
  method Arrange(m: NodeMap, ghost r: Rows, parentOf: Links, ghost pendingIds: set<string>, ghost orphanIds: set<string>)
    returns (roots: seq<SpanNode>)
    requires Holds(m, r) && parentOf == Parents(r) && Unlinked(m)
    requires Unmeasured(m) && PendingAre(m, pendingIds) && OrphansAre(m, orphanIds, {})
    modifies m.nodes.Values`children
    ensures ChildrenListed(m, KidsOf(r), |m.order|) && Are(m, roots, Siblings(r, None))
    ensures Unmeasured(m) && PendingAre(m, pendingIds) && OrphansAre(m, orphanIds, {})
  {
    roots := LinkAndSort(m, r, parentOf);
  }

  /** Everything before the tree is walked. */
  method Join(m: NodeMap, ghost r: Rows, ghost evals: seq<EvalResult>, ghost pendingIds: set<string>)
    returns (roots: seq<SpanNode>)
    requires Holds(m, r) && AllBlank(m) && PendingAre(m, pendingIds)
    modifies m.nodes.Values
    ensures ChildrenListed(m, KidsOf(r), |m.order|) && Are(m, roots, Siblings(r, None))
    ensures Filed(m, FiledAfter(r, evals, 0), OwnAfter(r, evals, 0)) && forall n :: n in m.nodes ==> m.nodes[n].depth == 0
    ensures PendingAre(m, pendingIds) && OrphansAre(m, OrphanIds(r), {})
  {
    var parentOf := Adopt(m, r, pendingIds);
    roots := Arrange(m, r, parentOf, pendingIds, OrphanIds(r));
    UnmeasuredIsFiled(m, r, evals);
  }

  /** Everything after the nodes exist. */
  method Assemble(m: NodeMap, evals: seq<EvalResult>, ghost r: Rows, ghost pendingIds: set<string>)
    returns (tree: SpanTree, ghost preOrder: seq<SpanNode>)
    requires Holds(m, r) && AllBlank(m) && PendingAre(m, pendingIds) && pendingIds <= m.nodes.Keys
    modifies m.nodes.Values
    ensures tree.byId == m && ChildrenListed(m, KidsOf(r), |m.order|) && Are(m, tree.roots, Siblings(r, None))
    ensures MeasuredAlong(m, preOrder, Forest(r), Depths(r), FiledAfter(r, evals, |evals|), OwnOf(r, evals))
    ensures PendingAre(m, pendingIds) && OrphansAre(m, OrphanIds(r), {})
    ensures tree.nodeCount == |r.spans| && tree.orphanCount == |OrphanIds(r)| && tree.pendingCount == |pendingIds|
  {
    var roots := Join(m, r, evals, pendingIds);
    TreesAreReady(m, r, roots);
    preOrder := Finish(m, roots, evals, r, Trees(r), Forest(r), Depths(r), KidsOf(r), pendingIds, OrphanIds(r));
    tree := CountNodes(m, roots, r, pendingIds);
  }

  /** The visible rows of a built tree. */
  method FlattenVisible(tree: SpanTree, collapsed: set<string>, ghost r: Rows, ghost pendingIds: set<string>,
                        ghost evals: seq<EvalResult>)
    returns (out: seq<SpanNode>)
    requires IsRows(r) && IsShape(ShapeOf(r)) && Built(tree, r, pendingIds, evals)
    ensures Ids(out) == VisibleAll(ForestOf(ShapeOf(r)), collapsed)
  {
    TreesHang(tree.byId, ShapeOf(r), tree.roots);
    TreesAreFamily(ShapeOf(r));
    out := Flatten(tree.byId, tree.roots, collapsed, TreesOf(ShapeOf(r)), ForestOf(ShapeOf(r)));
  }
}
