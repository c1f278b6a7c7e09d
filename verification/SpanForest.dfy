/** The ordered forest as a value: its pre-order, its visible rows under a set of
    collapsed spans, and its roll-ups. */
module SpanForest {

  datatype Tree = Node(id: string, kids: seq<Tree>)

  function Pre(t: Tree): seq<string> {
    [t.id] + PreAll(t.kids)
  }

  function PreAll(ts: seq<Tree>): seq<string> {
    if ts == [] then [] else Pre(ts[0]) + PreAll(ts[1..])
  }

  lemma {:induction false} PreAllAppends(a: seq<Tree>, b: seq<Tree>)
    ensures PreAll(a + b) == PreAll(a) + PreAll(b)
  {
    if a == [] {
      assert a + b == b;
    } else {
      assert (a + b)[1..] == a[1..] + b;
      PreAllAppends(a[1..], b);
    }
  }

  /** The subtree whose pre-order starts at position `i`. */
  ghost function At(ts: seq<Tree>, i: nat): Tree
    requires i < |PreAll(ts)|
  {
    if i == 0 then ts[0]
    else if i < |Pre(ts[0])| then At(ts[0].kids, i - 1)
    else At(ts[1..], i - |Pre(ts[0])|)
  }

  lemma {:induction false} RootInPre(ts: seq<Tree>, k: nat) returns (j: nat)
    requires k < |ts|
    ensures j < |PreAll(ts)| && PreAll(ts)[j] == ts[k].id
  {
    if k == 0 {
      j := 0;
    } else {
      j := RootInPre(ts[1..], k - 1);
      j := j + |Pre(ts[0])|;
    }
  }

  /** A node's children come after it. */
  lemma {:induction false} KidAfter(ts: seq<Tree>, i: nat, k: nat) returns (j: nat)
    requires i < |PreAll(ts)| && k < |At(ts, i).kids|
    ensures i < j < |PreAll(ts)| && PreAll(ts)[j] == At(ts, i).kids[k].id
  {
    if i == 0 {
      j := RootInPre(ts[0].kids, k);
      j := j + 1;
    } else if i < |Pre(ts[0])| {
      j := KidAfter(ts[0].kids, i - 1, k);
      j := j + 1;
    } else {
      j := KidAfter(ts[1..], i - |Pre(ts[0])|, k);
      j := j + |Pre(ts[0])|;
    }
  }

  /** Trees by the id of their root, closed under children. */
  ghost predicate Family(trees: map<string, Tree>) {
    forall n {:trigger FamilyAt(trees, n)} :: n in trees ==> FamilyAt(trees, n)
  }

  ghost predicate InFamily(trees: map<string, Tree>, ts: seq<Tree>) {
    forall i :: 0 <= i < |ts| ==> ts[i].id in trees && ts[i] == trees[ts[i].id]
  }

  ghost predicate FamilyAt(trees: map<string, Tree>, n: string) {
    n in trees && trees[n].id == n && InFamily(trees, trees[n].kids)
  }

  /** A child is one deeper than its parent. */
  ghost predicate Stepped(trees: map<string, Tree>, depths: map<string, nat>) {
    forall n {:trigger SteppedAt(trees, depths, n)} :: n in trees ==> SteppedAt(trees, depths, n)
  }

  ghost predicate SteppedAt(trees: map<string, Tree>, depths: map<string, nat>, n: string) {
    n in trees && n in depths &&
    forall i :: 0 <= i < |trees[n].kids| ==> trees[n].kids[i].id in depths && depths[trees[n].kids[i].id] == depths[n] + 1
  }

  lemma {:induction false} AtInFamily(trees: map<string, Tree>, ts: seq<Tree>, i: nat)
    requires Family(trees) && InFamily(trees, ts) && i < |PreAll(ts)|
    ensures At(ts, i).id == PreAll(ts)[i] && PreAll(ts)[i] in trees && At(ts, i) == trees[PreAll(ts)[i]]
  {
    assert FamilyAt(trees, ts[0].id);
    if 0 < i < |Pre(ts[0])| {
      AtInFamily(trees, ts[0].kids, i - 1);
    } else if 0 < i {
      AtInFamily(trees, ts[1..], i - |Pre(ts[0])|);
    }
  }

  /** The rows on screen: a collapsed span stays, its subtree does not. */
  function Visible(t: Tree, collapsed: set<string>): seq<string> {
    [t.id] + (if t.id in collapsed then [] else VisibleAll(t.kids, collapsed))
  }

  function VisibleAll(ts: seq<Tree>, collapsed: set<string>): seq<string> {
    if ts == [] then [] else Visible(ts[0], collapsed) + VisibleAll(ts[1..], collapsed)
  }

  lemma {:induction false} VisibleAllAppends(a: seq<Tree>, b: seq<Tree>, collapsed: set<string>)
    ensures VisibleAll(a + b, collapsed) == VisibleAll(a, collapsed) + VisibleAll(b, collapsed)
  {
    if a == [] {
      assert a + b == b;
    } else {
      assert (a + b)[1..] == a[1..] + b;
      VisibleAllAppends(a[1..], b, collapsed);
    }
  }

  // ---------------------------------------------------------------------
  // Roll-ups
  // ---------------------------------------------------------------------

  datatype Rollup = Rollup(spanCount: int, errorCount: int, retryCount: int, inputTokens: int, outputTokens: int,
                           totalTokens: int, costUsd: real, durationNs: int, evalCount: int, evalFailCount: int)

  const ZeroRollup := Rollup(0, 0, 0, 0, 0, 0, 0.0, 0, 0, 0)

  function Plus(a: Rollup, b: Rollup): Rollup {
    Rollup(a.spanCount + b.spanCount, a.errorCount + b.errorCount, a.retryCount + b.retryCount,
           a.inputTokens + b.inputTokens, a.outputTokens + b.outputTokens, a.totalTokens + b.totalTokens,
           a.costUsd + b.costUsd, a.durationNs + b.durationNs, a.evalCount + b.evalCount,
           a.evalFailCount + b.evalFailCount)
  }

  lemma PlusMoves(a: Rollup, b: Rollup, c: Rollup)
    ensures Plus(Plus(a, b), c) == Plus(a, Plus(b, c)) && Plus(a, ZeroRollup) == a == Plus(ZeroRollup, a)
  {
  }

  function Own(own: map<string, Rollup>, id: string): Rollup {
    if id in own then own[id] else ZeroRollup
  }

  /** A span's roll-up: its own values and its children's roll-ups. */
  function Roll(own: map<string, Rollup>, t: Tree): Rollup {
    Plus(Own(own, t.id), RollAll(own, t.kids))
  }

  function RollAll(own: map<string, Rollup>, ts: seq<Tree>): Rollup {
    if ts == [] then ZeroRollup else Plus(Roll(own, ts[0]), RollAll(own, ts[1..]))
  }

  /** The plain sum of own values over a list of spans. */
  function Sum(own: map<string, Rollup>, ids: seq<string>): Rollup {
    if ids == [] then ZeroRollup else Plus(Own(own, ids[0]), Sum(own, ids[1..]))
  }

  lemma {:induction false} SumAppends(own: map<string, Rollup>, a: seq<string>, b: seq<string>)
    ensures Sum(own, a + b) == Plus(Sum(own, a), Sum(own, b))
  {
    if a == [] {
      assert a + b == b;
      PlusMoves(Sum(own, b), ZeroRollup, ZeroRollup);
    } else {
      assert (a + b)[1..] == a[1..] + b;
      SumAppends(own, a[1..], b);
      PlusMoves(Own(own, a[0]), Sum(own, a[1..]), Sum(own, b));
    }
  }

  /** Each roll-up is the sum of own values over the subtree. */
  lemma {:induction false} RollIsSum(own: map<string, Rollup>, t: Tree)
    ensures Roll(own, t) == Sum(own, Pre(t))
  {
    RollAllIsSum(own, t.kids);
    assert Pre(t)[1..] == PreAll(t.kids);
  }

  lemma {:induction false} RollAllIsSum(own: map<string, Rollup>, ts: seq<Tree>)
    ensures RollAll(own, ts) == Sum(own, PreAll(ts))
  {
    if ts != [] {
      RollIsSum(own, ts[0]);
      RollAllIsSum(own, ts[1..]);
      SumAppends(own, Pre(ts[0]), PreAll(ts[1..]));
    }
  }

  lemma PlusSwap(a: Rollup, b: Rollup, c: Rollup)
    ensures Plus(a, Plus(b, c)) == Plus(b, Plus(a, c))
  {
  }

  lemma {:induction false} SumWithout(own: map<string, Rollup>, b: seq<string>, i: nat)
    requires i < |b|
    ensures Sum(own, b) == Plus(Own(own, b[i]), Sum(own, b[..i] + b[i + 1..]))
  {
    var rest := b[..i] + b[i + 1..];
    if i == 0 {
      assert rest == b[1..];
    } else {
      SumWithout(own, b[1..], i - 1);
      var tail := b[1..][..i - 1] + b[1..][i..];
      assert rest == [b[0]] + tail;
      assert rest[1..] == tail;
      PlusSwap(Own(own, b[0]), Own(own, b[i]), Sum(own, tail));
    }
  }

  lemma PermutationWithout(a: seq<string>, b: seq<string>) returns (i: nat)
    requires a != [] && multiset(a) == multiset(b)
    ensures i < |b| && b[i] == a[0] && multiset(a[1..]) == multiset(b[..i] + b[i + 1..])
  {
    assert a[0] in multiset(b);
    i :| 0 <= i < |b| && b[i] == a[0];
    assert b == b[..i] + [b[i]] + b[i + 1..];
    assert a == [a[0]] + a[1..];
    assert multiset(a) == multiset{a[0]} + multiset(a[1..]);
    assert multiset(b) == multiset(b[..i]) + multiset{b[i]} + multiset(b[i + 1..]);
    assert multiset(b[..i] + b[i + 1..]) == multiset(b[..i]) + multiset(b[i + 1..]);
    assert multiset(a[1..]) == multiset(a) - multiset{a[0]};
  }

  /** Sums do not depend on the order of the spans. */
  lemma {:induction false} SumOfPermutation(own: map<string, Rollup>, a: seq<string>, b: seq<string>)
    requires multiset(a) == multiset(b)
    ensures Sum(own, a) == Sum(own, b)
    decreases |a|
  {
    if a == [] {
      assert |multiset(b)| == |b|;
    } else {
      var i := PermutationWithout(a, b);
      SumWithout(own, b, i);
      SumOfPermutation(own, a[1..], b[..i] + b[i + 1..]);
    }
  }

  predicate CountsOne(own: map<string, Rollup>, ids: seq<string>) {
    forall i :: 0 <= i < |ids| ==> Own(own, ids[i]).spanCount == 1
  }

  lemma {:induction false} SumCounts(own: map<string, Rollup>, ids: seq<string>)
    requires CountsOne(own, ids)
    ensures Sum(own, ids).spanCount == |ids|
  {
    if ids != [] {
      SumCounts(own, ids[1..]);
    }
  }

  // ---------------------------------------------------------------------
  // Collapsing
  // ---------------------------------------------------------------------

  predicate Once(ids: seq<string>) {
    forall i, j :: 0 <= i < j < |ids| ==> ids[i] != ids[j]
  }

  predicate Disjoint(ids: seq<string>, collapsed: set<string>) {
    forall i :: 0 <= i < |ids| ==> ids[i] !in collapsed
  }

  lemma {:induction false} VisibleIsPre(t: Tree, collapsed: set<string>)
    requires Disjoint(Pre(t), collapsed)
    ensures Visible(t, collapsed) == Pre(t)
  {
    assert Pre(t)[0] == t.id;
    assert forall i :: 0 <= i < |PreAll(t.kids)| ==> PreAll(t.kids)[i] == Pre(t)[i + 1];
    VisibleAllIsPre(t.kids, collapsed);
  }

  lemma {:induction false} VisibleAllIsPre(ts: seq<Tree>, collapsed: set<string>)
    requires Disjoint(PreAll(ts), collapsed)
    ensures VisibleAll(ts, collapsed) == PreAll(ts)
  {
    if ts != [] {
      var head, rest := Pre(ts[0]), PreAll(ts[1..]);
      assert forall i :: 0 <= i < |head| ==> head[i] == PreAll(ts)[i];
      assert forall i :: 0 <= i < |rest| ==> rest[i] == PreAll(ts)[|head| + i];
      VisibleIsPre(ts[0], collapsed);
      VisibleAllIsPre(ts[1..], collapsed);
    }
  }

  /** Collapsing a span that is not in the tree hides nothing of it. */
  lemma {:induction false} CollapseElsewhere(t: Tree, collapsed: set<string>, n: string)
    requires n !in Pre(t)
    ensures Visible(t, collapsed + {n}) == Visible(t, collapsed)
  {
    assert n !in PreAll(t.kids) && t.id != n by {
      assert Pre(t)[0] == t.id;
      assert Pre(t)[1..] == PreAll(t.kids);
    }
    CollapseElsewhereAll(t.kids, collapsed, n);
  }

  lemma {:induction false} CollapseElsewhereAll(ts: seq<Tree>, collapsed: set<string>, n: string)
    requires n !in PreAll(ts)
    ensures VisibleAll(ts, collapsed + {n}) == VisibleAll(ts, collapsed)
  {
    if ts != [] {
      CollapseElsewhere(ts[0], collapsed, n);
      CollapseElsewhereAll(ts[1..], collapsed, n);
    }
  }

  /** `sub` is the subtree at a span all of whose ancestors are open. */
  predicate ShownIn(t: Tree, sub: Tree, collapsed: set<string>) {
    t == sub || (t.id !in collapsed && ShownInAll(t.kids, sub, collapsed))
  }

  predicate ShownInAll(ts: seq<Tree>, sub: Tree, collapsed: set<string>) {
    ts != [] && (ShownIn(ts[0], sub, collapsed) || ShownInAll(ts[1..], sub, collapsed))
  }

  lemma {:induction false} ShownIsInside(t: Tree, sub: Tree, collapsed: set<string>)
    requires ShownIn(t, sub, collapsed)
    ensures sub.id in Pre(t)
  {
    assert Pre(t)[0] == t.id;
    if t != sub {
      ShownIsInsideAll(t.kids, sub, collapsed);
    }
  }

  lemma {:induction false} ShownIsInsideAll(ts: seq<Tree>, sub: Tree, collapsed: set<string>)
    requires ShownInAll(ts, sub, collapsed)
    ensures sub.id in PreAll(ts)
  {
    if ShownIn(ts[0], sub, collapsed) {
      ShownIsInside(ts[0], sub, collapsed);
    } else {
      ShownIsInsideAll(ts[1..], sub, collapsed);
    }
  }

  lemma OnceParts(a: seq<string>, b: seq<string>)
    requires Once(a + b)
    ensures Once(a) && Once(b) && forall x :: x in a ==> x !in b
  {
    assert forall i :: 0 <= i < |a| ==> (a + b)[i] == a[i];
    assert forall i :: 0 <= i < |b| ==> (a + b)[|a| + i] == b[i];
  }

  /** Collapsing one shown span, with nothing collapsed inside it, hides exactly the
      rest of its subtree. */
  lemma {:induction false} CollapseHides(t: Tree, sub: Tree, collapsed: set<string>)
    requires Once(Pre(t)) && ShownIn(t, sub, collapsed) && Disjoint(Pre(sub), collapsed)
    ensures |Visible(t, collapsed)| - |Visible(t, collapsed + {sub.id})| == |Pre(sub)| - 1
  {
    if t == sub {
      VisibleIsPre(t, collapsed);
    } else {
      OnceParts([t.id], PreAll(t.kids));
      ShownIsInsideAll(t.kids, sub, collapsed);
      CollapseHidesAll(t.kids, sub, collapsed);
    }
  }

  lemma {:induction false} CollapseHidesAll(ts: seq<Tree>, sub: Tree, collapsed: set<string>)
    requires Once(PreAll(ts)) && ShownInAll(ts, sub, collapsed) && Disjoint(Pre(sub), collapsed)
    ensures |VisibleAll(ts, collapsed)| - |VisibleAll(ts, collapsed + {sub.id})| == |Pre(sub)| - 1
  {
    OnceParts(Pre(ts[0]), PreAll(ts[1..]));
    if ShownIn(ts[0], sub, collapsed) {
      ShownIsInside(ts[0], sub, collapsed);
      CollapseHides(ts[0], sub, collapsed);
      CollapseElsewhereAll(ts[1..], collapsed, sub.id);
    } else {
      ShownIsInsideAll(ts[1..], sub, collapsed);
      CollapseElsewhere(ts[0], collapsed, sub.id);
      CollapseHidesAll(ts[1..], sub, collapsed);
    }
  }

  /** The number the viewer prints on a collapsed span, its roll-up count less one,
      is the number of rows that collapsing it hides. */
  lemma CollapseHidesRollupCount(ts: seq<Tree>, sub: Tree, collapsed: set<string>, own: map<string, Rollup>)
    requires Once(PreAll(ts)) && ShownInAll(ts, sub, collapsed) && Disjoint(Pre(sub), collapsed)
    requires CountsOne(own, Pre(sub))
    ensures |VisibleAll(ts, collapsed)| - |VisibleAll(ts, collapsed + {sub.id})| == Roll(own, sub).spanCount - 1
  {
    CollapseHidesAll(ts, sub, collapsed);
    RollIsSum(own, sub);
    SumCounts(own, Pre(sub));
  }
}
