/** What the span tree of a trace is, as values: which rows it has, which placeholders
    stand in for spans still open, how parents resolve, and in what order siblings
    and roots come. */
module TraceRows {
  import opened Wrappers
  import opened TextOrder
  import opened SpanLinks
  import opened SpanForest
  import opened SpanShape

  /** The fields of a span that the tree depends on. */
  datatype TraceSpan = TraceSpan(spanId: string, parentSpanId: string, statusCode: string, operationName: string,
                                 toolName: string, requestModel: string, inputTokens: int, outputTokens: int,
                                 totalTokens: int, costUsd: real, startOffsetNs: int, durationNs: int,
                                 retryAttempt: int)

  datatype EvalResult = EvalResult(spanId: string, passed: bool, errorType: string)

  datatype SpanCategory = Llm | Tool | Agent | Generic

  const LLM_OPERATIONS := {"chat", "text_completion", "generate_content", "embeddings"}
  const AGENT_OPERATIONS := {"invoke_agent", "create_agent"}

  function Categorize(span: TraceSpan): SpanCategory {
    if span.operationName == "execute_tool" || span.toolName != "" then Tool
    else if span.operationName in AGENT_OPERATIONS then Agent
    else if span.operationName in LLM_OPERATIONS || span.requestModel != "" then Llm
    else Generic
  }

  // ---------------------------------------------------------------------
  // Rows: an insertion-ordered map
  // ---------------------------------------------------------------------

  datatype Rows = Rows(order: seq<string>, spans: map<string, TraceSpan>)

  /** Every id of `ns` is a key. */
  predicate Given(rows: set<string>, ns: seq<string>) {
    forall i :: 0 <= i < |ns| ==> ns[i] in rows
  }

  ghost predicate Lists(order: seq<string>, n: string) {
    n in order
  }

  /** The order lists every row once, and rows are filed under their own ids. */
  ghost predicate IsRows(r: Rows) {
    && Once(r.order)
    && Given(r.spans.Keys, r.order)
    && (forall n {:trigger Lists(r.order, n)} :: n in r.spans ==> Lists(r.order, n))
    && (forall n :: n in r.spans ==> r.spans[n].spanId == n)
  }

  lemma RowsAreListed(r: Rows)
    requires IsRows(r)
    ensures forall n :: n in r.order <==> n in r.spans
  {
    forall n | n in r.spans ensures n in r.order {
      assert Lists(r.order, n);
    }
  }

  function Put(r: Rows, span: TraceSpan): Rows {
    if span.spanId in r.spans then r
    else Rows(r.order + [span.spanId], r.spans[span.spanId := span])
  }

  lemma PutKeeps(r: Rows, span: TraceSpan)
    requires IsRows(r)
    ensures IsRows(Put(r, span))
  {
    RowsAreListed(r);
    forall n | n in Put(r, span).spans ensures Lists(Put(r, span).order, n) {
      assert n in r.spans ==> n in r.order;
    }
  }

  /** The rows of a payload: the first row of every span id. */
  function Indexed(spans: seq<TraceSpan>): (r: Rows)
    ensures IsRows(r)
  {
    if spans == [] then Rows([], map[])
    else
      var before := Indexed(spans[..|spans| - 1]);
      PutKeeps(before, spans[|spans| - 1]);
      Put(before, spans[|spans| - 1])
  }

  ghost predicate FirstOf(spans: seq<TraceSpan>, i: int, n: string) {
    0 <= i < |spans| && spans[i].spanId == n && forall j :: 0 <= j < i ==> spans[j].spanId != n
  }

  lemma {:induction false} IndexedHas(spans: seq<TraceSpan>, i: nat)
    requires i < |spans|
    ensures spans[i].spanId in Indexed(spans).spans
    decreases |spans|
  {
    var k := |spans| - 1;
    if i < k {
      IndexedHas(spans[..k], i);
    }
  }

  /** Every id of the payload is kept, with the first row that carries it ... */
  lemma {:induction false} IndexedKeepsFirst(spans: seq<TraceSpan>, i: nat, n: string)
    requires FirstOf(spans, i, n)
    ensures n in Indexed(spans).spans && Indexed(spans).spans[n] == spans[i]
    decreases |spans|
  {
    var k := |spans| - 1;
    if i < k {
      IndexedKeepsFirst(spans[..k], i, n);
    } else if n in Indexed(spans[..k]).spans {
      var j := IndexedIsGiven(spans[..k], n);
      assert false;
    }
  }

  /** ... and nothing is made up. */
  lemma {:induction false} IndexedIsGiven(spans: seq<TraceSpan>, n: string) returns (i: nat)
    requires n in Indexed(spans).spans
    ensures FirstOf(spans, i, n) && Indexed(spans).spans[n] == spans[i]
    decreases |spans|
  {
    var k := |spans| - 1;
    if n in Indexed(spans[..k]).spans {
      i := IndexedIsGiven(spans[..k], n);
      assert forall j :: 0 <= j < k ==> spans[..k][j] == spans[j];
    } else {
      i := k;
      forall j | 0 <= j < k ensures spans[j].spanId != n {
        IndexedHas(spans[..k], j);
      }
    }
  }

  // ---------------------------------------------------------------------
  // Placeholders for parents still open
  // ---------------------------------------------------------------------

  /** Row `n` names a parent `m` that has not arrived. */
  predicate Misses(r: Rows, n: string, m: string)
    requires n in r.spans
  {
    r.spans[n].parentSpanId == m && m != "" && m != n && m !in r.spans
  }

  /** The missing parents in order of first mention, each with its children's earliest
      start. */
  datatype Starts = Starts(order: seq<string>, at: map<string, int>)

  function Min(a: int, b: int): int {
    if a < b then a else b
  }

  function NoteStart(r: Rows, st: Starts, n: string): Starts
    requires n in r.spans
  {
    var m, start := r.spans[n].parentSpanId, r.spans[n].startOffsetNs;
    if !Misses(r, n, m) then st
    else if m in st.at then st.(at := st.at[m := Min(st.at[m], start)])
    else Starts(st.order + [m], st.at[m := start])
  }

  function StartsAfter(r: Rows, i: nat): Starts
    requires i <= |r.order| && Given(r.spans.Keys, r.order)
  {
    if i == 0 then Starts([], map[]) else NoteStart(r, StartsAfter(r, i - 1), r.order[i - 1])
  }

  /** One of the first `i` rows misses `m`. */
  ghost predicate Missed(r: Rows, i: nat, m: string)
    requires i <= |r.order| && Given(r.spans.Keys, r.order)
  {
    exists j :: 0 <= j < i && Misses(r, r.order[j], m)
  }

  /** `v` is the earliest start among the first `i` rows that miss `m`. */
  ghost predicate Earliest(r: Rows, i: nat, m: string, v: int)
    requires i <= |r.order| && Given(r.spans.Keys, r.order)
  {
    && (exists j :: 0 <= j < i && Misses(r, r.order[j], m) && r.spans[r.order[j]].startOffsetNs == v)
    && (forall j :: 0 <= j < i && Misses(r, r.order[j], m) ==> v <= r.spans[r.order[j]].startOffsetNs)
  }

  lemma {:induction false} StartsListed(r: Rows, i: nat)
    requires Given(r.spans.Keys, r.order) && i <= |r.order|
    ensures Once(StartsAfter(r, i).order) && Given(StartsAfter(r, i).at.Keys, StartsAfter(r, i).order)
    ensures forall m :: m in StartsAfter(r, i).at ==> m in StartsAfter(r, i).order
  {
    if i > 0 {
      StartsListed(r, i - 1);
    }
  }

  lemma {:induction false} StartAt(r: Rows, i: nat, m: string)
    requires IsRows(r) && i <= |r.order|
    ensures m in StartsAfter(r, i).at <==> Missed(r, i, m)
    ensures m in StartsAfter(r, i).at ==> Earliest(r, i, m, StartsAfter(r, i).at[m])
  {
    if i > 0 {
      StartAt(r, i - 1, m);
      StartStep(r, i, m);
    }
  }

  lemma StartsAreEarliest(r: Rows, i: nat)
    requires IsRows(r) && i <= |r.order|
    ensures Once(StartsAfter(r, i).order)
    ensures forall m :: m in StartsAfter(r, i).order <==> m in StartsAfter(r, i).at
    ensures forall m :: m in StartsAfter(r, i).at <==> Missed(r, i, m)
    ensures forall m :: m in StartsAfter(r, i).at ==> Earliest(r, i, m, StartsAfter(r, i).at[m])
  {
    StartsListed(r, i);
    forall m
      ensures m in StartsAfter(r, i).at <==> Missed(r, i, m)
      ensures m in StartsAfter(r, i).at ==> Earliest(r, i, m, StartsAfter(r, i).at[m])
    {
      StartAt(r, i, m);
    }
  }

  lemma StartStep(r: Rows, i: nat, m: string)
    requires IsRows(r) && 0 < i <= |r.order|
    requires m in StartsAfter(r, i - 1).at <==> Missed(r, i - 1, m)
    requires m in StartsAfter(r, i - 1).at ==> Earliest(r, i - 1, m, StartsAfter(r, i - 1).at[m])
    ensures m in StartsAfter(r, i).at <==> Missed(r, i, m)
    ensures m in StartsAfter(r, i).at ==> Earliest(r, i, m, StartsAfter(r, i).at[m])
  {
    var n := r.order[i - 1];
    assert n in r.order;
    if Misses(r, n, m) {
      if m in StartsAfter(r, i - 1).at {
        var j :| 0 <= j < i - 1 && Misses(r, r.order[j], m)
                 && r.spans[r.order[j]].startOffsetNs == StartsAfter(r, i - 1).at[m];
        assert Misses(r, r.order[j], m);
      }
      assert Misses(r, r.order[i - 1], m);
    } else if m in StartsAfter(r, i - 1).at {
      var j :| 0 <= j < i - 1 && Misses(r, r.order[j], m)
               && r.spans[r.order[j]].startOffsetNs == StartsAfter(r, i - 1).at[m];
      assert Misses(r, r.order[j], m);
    }
  }

  /** A zero-valued root standing in for a span still open. */
  function PendingSpan(spanId: string, startOffsetNs: int): TraceSpan {
    TraceSpan(spanId, "", "UNSET", "", "", "", 0, 0, 0, 0.0, startOffsetNs, 0, 0)
  }

  function Pending(r: Rows): Starts
    requires IsRows(r)
  {
    StartsAfter(r, |r.order|)
  }

  /** The rows with the first `k` placeholders added. */
  function WithPlaceholders(r: Rows, st: Starts, k: nat): Rows
    requires k <= |st.order| && Given(st.at.Keys, st.order)
  {
    if k == 0 then r
    else
      var m := st.order[k - 1];
      assert m in st.order;
      var before := WithPlaceholders(r, st, k - 1);
      Rows(before.order + [m], before.spans[m := PendingSpan(m, st.at[m])])
  }

  function WithPending(r: Rows): (all: Rows)
    requires IsRows(r)
  {
    StartsListed(r, |r.order|);
    WithPlaceholders(r, Pending(r), |Pending(r).order|)
  }

  /** All rows of the tree. */
  function AllRows(spans: seq<TraceSpan>, pendingParents: bool): Rows {
    if pendingParents then WithPending(Indexed(spans)) else Indexed(spans)
  }

  /** The ids of the placeholders. */
  function PendingIds(spans: seq<TraceSpan>, pendingParents: bool): set<string> {
    if pendingParents then Pending(Indexed(spans)).at.Keys else {}
  }

  lemma {:induction false} PlaceholderOrder(r: Rows, st: Starts, k: nat)
    requires k <= |st.order| && Given(st.at.Keys, st.order)
    ensures WithPlaceholders(r, st, k).order == r.order + st.order[..k]
  {
    if k > 0 {
      PlaceholderOrder(r, st, k - 1);
      assert st.order[..k] == st.order[..k - 1] + [st.order[k - 1]];
    }
  }

  /** What the first `k` placeholders make of row `n`. */
  lemma {:induction false} PlaceholderAt(r: Rows, st: Starts, k: nat, n: string)
    requires k <= |st.order| && Given(st.at.Keys, st.order)
    ensures var all := WithPlaceholders(r, st, k).spans;
            && (n in all <==> n in r.spans || n in st.order[..k])
            && (n in st.order[..k] ==> n in all && all[n] == PendingSpan(n, st.at[n]))
            && (n !in st.order[..k] && n in r.spans ==> all[n] == r.spans[n])
  {
    if k > 0 {
      PlaceholderAt(r, st, k - 1, n);
      assert st.order[..k] == st.order[..k - 1] + [st.order[k - 1]];
    }
  }

  /** In live mode the rows are the given ones and one placeholder for each missing
      parent. */
  lemma WithPendingAdds(r: Rows)
    requires IsRows(r)
    ensures var all, st := WithPending(r), Pending(r);
            && IsRows(all) && all.order == r.order + st.order
            && (forall n :: n in all.spans <==> n in r.spans || n in st.at)
            && (forall n :: n in r.spans ==> n !in st.at && all.spans[n] == r.spans[n])
            && (forall n :: n in st.at ==> all.spans[n] == PendingSpan(n, st.at[n]))
  {
    StartsListed(r, |r.order|);
    var st, all := Pending(r), WithPending(r);
    assert st.order[..|st.order|] == st.order;
    forall m | m in st.at ensures m !in r.spans {
      StartAt(r, |r.order|, m);
    }
    PlaceholderOrder(r, st, |st.order|);
    forall n { PlaceholderAt(r, st, |st.order|, n); }
    JoinedRows(r, st, all);
  }

  lemma JoinedRows(r: Rows, st: Starts, all: Rows)
    requires IsRows(r) && Once(st.order) && all.order == r.order + st.order
    requires forall m :: m in st.order ==> m !in r.spans
    requires forall n :: n in all.spans <==> n in r.spans || n in st.order
    requires forall n :: n in all.spans ==> all.spans[n].spanId == n
    ensures IsRows(all)
  {
    OnceJoined(r.order, st.order);
    forall n | n in all.spans ensures Lists(all.order, n) {
      if n in r.spans {
        assert Lists(r.order, n);
      }
    }
  }

  lemma AllRowsIsRows(spans: seq<TraceSpan>, pendingParents: bool)
    ensures IsRows(AllRows(spans, pendingParents))
  {
    WithPendingAdds(Indexed(spans));
  }

  // ---------------------------------------------------------------------
  // Parents
  // ---------------------------------------------------------------------

  function Resolved(r: Rows): Links {
    map n | n in r.spans ::
      var m := r.spans[n].parentSpanId;
      if m == "" || m == n || m !in r.spans then None else Some(m)
  }

  /** Row `n` names a parent it cannot have: itself, or one that is not there. */
  predicate Detached(r: Rows, n: string)
    requires n in r.spans
  {
    var m := r.spans[n].parentSpanId;
    m != "" && (m == n || m !in r.spans)
  }

  ghost function Parents(r: Rows): Links {
    CutLinks(Resolved(r), r.order)
  }

  ghost predicate Orphaned(r: Rows, n: string)
    requires n in r.spans
  {
    Detached(r, n) || IsCut(Resolved(r), r.order, n)
  }

  ghost function OrphanIds(r: Rows): set<string> {
    set n | n in r.spans && Orphaned(r, n)
  }

  lemma ParentsAreRooted(r: Rows)
    requires IsRows(r)
    ensures Closed(Resolved(r)) && Closed(Parents(r)) && Rooted(Parents(r)) && Parents(r).Keys == r.spans.Keys
  {
    RowsAreListed(r);
    CutLinksAreRooted(Resolved(r), r.order);
  }

  // ---------------------------------------------------------------------
  // Siblings in order
  // ---------------------------------------------------------------------

  /** By start offset, then by id. */
  predicate StartThenId(a: TraceSpan, b: TraceSpan) {
    a.startOffsetNs < b.startOffsetNs || (a.startOffsetNs == b.startOffsetNs && LexLeq(a.spanId, b.spanId))
  }

  predicate InOrder(spans: map<string, TraceSpan>, ns: seq<string>)
    requires Given(spans.Keys, ns)
  {
    forall i, j :: 0 <= i < j < |ns| ==> StartThenId(spans[ns[i]], spans[ns[j]])
  }

  function Insert(spans: map<string, TraceSpan>, n: string, ns: seq<string>): (s: seq<string>)
    requires n in spans && Given(spans.Keys, ns)
    ensures Given(spans.Keys, s)
  {
    if ns == [] then [n]
    else if StartThenId(spans[n], spans[ns[0]]) then [n] + ns
    else [ns[0]] + Insert(spans, n, ns[1..])
  }

  function Sort(spans: map<string, TraceSpan>, ns: seq<string>): (s: seq<string>)
    requires Given(spans.Keys, ns)
    ensures Given(spans.Keys, s)
  {
    if ns == [] then [] else Insert(spans, ns[0], Sort(spans, ns[1..]))
  }

  lemma StartThenIdTransitive(a: TraceSpan, b: TraceSpan, c: TraceSpan)
    requires StartThenId(a, b) && StartThenId(b, c)
    ensures StartThenId(a, c)
  {
    if a.startOffsetNs == b.startOffsetNs == c.startOffsetNs {
      LexTransitive(a.spanId, b.spanId, c.spanId);
    }
  }

  lemma StartThenIdTotal(a: TraceSpan, b: TraceSpan)
    ensures StartThenId(a, b) || StartThenId(b, a)
    ensures StartThenId(a, b) && StartThenId(b, a) ==> a.spanId == b.spanId
  {
    LexTotal(a.spanId, b.spanId);
  }

  lemma {:induction false} InsertCounts(spans: map<string, TraceSpan>, n: string, ns: seq<string>)
    requires n in spans && Given(spans.Keys, ns)
    ensures multiset(Insert(spans, n, ns)) == multiset{n} + multiset(ns)
  {
    if ns != [] {
      assert ns == [ns[0]] + ns[1..];
      if !StartThenId(spans[n], spans[ns[0]]) {
        InsertCounts(spans, n, ns[1..]);
      }
    }
  }

  lemma InsertedAt(spans: map<string, TraceSpan>, n: string, ns: seq<string>, i: nat)
    requires n in spans && Given(spans.Keys, ns) && i < |Insert(spans, n, ns)|
    ensures Insert(spans, n, ns)[i] == n || exists j :: 0 <= j < |ns| && ns[j] == Insert(spans, n, ns)[i]
  {
    InsertCounts(spans, n, ns);
    assert Insert(spans, n, ns)[i] in multiset(Insert(spans, n, ns));
  }

  lemma {:induction false} InsertOrders(spans: map<string, TraceSpan>, n: string, ns: seq<string>)
    requires n in spans && Given(spans.Keys, ns) && InOrder(spans, ns)
    ensures InOrder(spans, Insert(spans, n, ns))
  {
    if ns != [] {
      if StartThenId(spans[n], spans[ns[0]]) {
        forall i | 0 <= i < |ns| ensures StartThenId(spans[n], spans[ns[i]]) {
          if i > 0 {
            StartThenIdTransitive(spans[n], spans[ns[0]], spans[ns[i]]);
          }
        }
      } else {
        InsertOrders(spans, n, ns[1..]);
        StartThenIdTotal(spans[n], spans[ns[0]]);
        var t := Insert(spans, n, ns[1..]);
        forall i | 0 <= i < |t| ensures StartThenId(spans[ns[0]], spans[t[i]]) {
          InsertedAt(spans, n, ns[1..], i);
        }
      }
    }
  }

  /** Sorting orders the rows and neither loses nor adds one. */
  lemma {:induction false} SortSorts(spans: map<string, TraceSpan>, ns: seq<string>)
    requires Given(spans.Keys, ns)
    ensures InOrder(spans, Sort(spans, ns)) && multiset(Sort(spans, ns)) == multiset(ns)
  {
    if ns != [] {
      SortSorts(spans, ns[1..]);
      InsertOrders(spans, ns[0], Sort(spans, ns[1..]));
      InsertCounts(spans, ns[0], Sort(spans, ns[1..]));
      assert ns == [ns[0]] + ns[1..];
    }
  }

  lemma {:induction false} OnceOfMultiset(a: seq<string>, b: seq<string>)
    requires Once(a) && multiset(a) == multiset(b)
    ensures Once(b)
  {
    forall i, j | 0 <= i < j < |b| ensures b[i] != b[j] {
      if b[i] == b[j] {
        assert b == b[..i] + [b[i]] + b[i + 1..j] + [b[j]] + b[j + 1..];
        OnceCounts(a, b[i]);
        assert false;
      }
    }
  }

  lemma SameMembers(a: seq<string>, b: seq<string>)
    requires multiset(a) == multiset(b)
    ensures forall x :: x in a <==> x in b
  {
    forall x ensures x in a <==> x in b {
      assert x in a <==> x in multiset(a);
      assert x in b <==> x in multiset(b);
    }
  }

  lemma SortedSiblings(spans: map<string, TraceSpan>, ns: seq<string>)
    requires Given(spans.Keys, ns) && Once(ns)
    ensures InOrder(spans, Sort(spans, ns)) && Once(Sort(spans, ns)) && forall x :: x in Sort(spans, ns) <==> x in ns
  {
    SortSorts(spans, ns);
    OnceOfMultiset(ns, Sort(spans, ns));
    SameMembers(ns, Sort(spans, ns));
  }

  /** The rows whose parent is `parent`, in row order. */
  function Members(p: Links, order: seq<string>, parent: Option<string>): seq<string>
    requires Given(p.Keys, order)
  {
    if order == [] then []
    else
      var k := |order| - 1;
      Members(p, order[..k], parent) + if p[order[k]] == parent then [order[k]] else []
  }

  lemma {:induction false} MembersAre(p: Links, order: seq<string>, parent: Option<string>)
    requires Once(order) && Given(p.Keys, order)
    ensures Once(Members(p, order, parent))
    ensures forall n :: n in Members(p, order, parent) <==> n in order && p[n] == parent
    decreases |order|
  {
    if order != [] {
      var k := |order| - 1;
      MembersAre(p, order[..k], parent);
      assert order == order[..k] + [order[k]];
    }
  }

  ghost function Siblings(r: Rows, parent: Option<string>): seq<string>
    requires IsRows(r)
  {
    SiblingsGiven(r, parent);
    Sort(r.spans, Members(Parents(r), r.order, parent))
  }

  lemma SiblingsGiven(r: Rows, parent: Option<string>)
    requires IsRows(r)
    ensures Given(Parents(r).Keys, r.order)
    ensures Given(r.spans.Keys, Members(Parents(r), r.order, parent))
  {
    MembersAre(Parents(r), r.order, parent);
    forall i | 0 <= i < |Members(Parents(r), r.order, parent)|
      ensures Members(Parents(r), r.order, parent)[i] in r.spans
    {
      assert Members(Parents(r), r.order, parent)[i] in Members(Parents(r), r.order, parent);
    }
  }

  /** The tree's links, and its children and roots in display order. */
  ghost function ShapeOf(r: Rows): Shape
    requires IsRows(r)
  {
    Shape(Parents(r), map n | n in r.spans :: Siblings(r, Some(n)), Siblings(r, None))
  }

  lemma SiblingsAre(r: Rows, parent: Option<string>)
    requires IsRows(r)
    ensures Once(Siblings(r, parent)) && Given(r.spans.Keys, Siblings(r, parent)) && InOrder(r.spans, Siblings(r, parent))
    ensures forall m :: m in Siblings(r, parent) <==> m in r.spans && Parents(r)[m] == parent
  {
    SiblingsGiven(r, parent);
    MembersAre(Parents(r), r.order, parent);
    RowsAreListed(r);
    SortedSiblings(r.spans, Members(Parents(r), r.order, parent));
  }

  lemma KidsAre(r: Rows, n: string, m: string)
    requires IsRows(r) && n in ShapeOf(r).kids
    ensures Once(ShapeOf(r).kids[n])
    ensures m in ShapeOf(r).kids[n] <==> m in ShapeOf(r).parents && ShapeOf(r).parents[m] == Some(n)
  {
    SiblingsAre(r, Some(n));
  }

  lemma ShapeLinks(r: Rows)
    requires IsRows(r)
    ensures var sh := ShapeOf(r); Closed(sh.parents) && Rooted(sh.parents) && sh.kids.Keys == sh.parents.Keys
  {
    ParentsAreRooted(r);
  }

  lemma ShapeIsShape(r: Rows)
    requires IsRows(r)
    ensures IsShape(ShapeOf(r))
  {
    var sh := ShapeOf(r);
    ShapeLinks(r);
    SiblingsAre(r, None);
    forall n | n in sh.kids ensures Once(sh.kids[n]) {
      KidsAre(r, n, n);
    }
    forall n, m | n in sh.kids ensures m in sh.kids[n] <==> m in sh.parents && sh.parents[m] == Some(n) {
      KidsAre(r, n, m);
    }
  }

  // ---------------------------------------------------------------------
  // Own values
  // ---------------------------------------------------------------------

  function OwnRollup(span: TraceSpan): Rollup {
    Rollup(1, if span.statusCode == "ERROR" then 1 else 0, if span.retryAttempt >= 2 then 1 else 0,
           span.inputTokens, span.outputTokens, span.totalTokens, span.costUsd, span.durationNs, 0, 0)
  }

  predicate Fails(e: EvalResult) {
    e.errorType != "" || !e.passed
  }

  /** Of the first `i` results, those of one span, in order. */
  function EvalsOf(evals: seq<EvalResult>, n: string, i: nat): seq<EvalResult>
    requires i <= |evals|
  {
    if i == 0 then []
    else EvalsOf(evals, n, i - 1) + if evals[i - 1].spanId == n then [evals[i - 1]] else []
  }

  /** Of the first `i` results, how many of one span failed. */
  function FailuresOf(evals: seq<EvalResult>, n: string, i: nat): nat
    requires i <= |evals|
  {
    if i == 0 then 0
    else FailuresOf(evals, n, i - 1) + if evals[i - 1].spanId == n && Fails(evals[i - 1]) then 1 else 0
  }

  function OwnAfter(r: Rows, evals: seq<EvalResult>, i: nat): map<string, Rollup>
    requires i <= |evals|
  {
    map n | n in r.spans ::
      OwnRollup(r.spans[n]).(evalCount := |EvalsOf(evals, n, i)|, evalFailCount := FailuresOf(evals, n, i))
  }

  /** Every row's own values, before any child is added. */
  function OwnOf(r: Rows, evals: seq<EvalResult>): map<string, Rollup> {
    OwnAfter(r, evals, |evals|)
  }

  ghost function FiledAfter(r: Rows, evals: seq<EvalResult>, i: nat): map<string, seq<EvalResult>>
    requires i <= |evals|
  {
    map n | n in r.spans :: EvalsOf(evals, n, i)
  }
}
