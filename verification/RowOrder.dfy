/** The rows on screen, without the pre-order: which spans are shown, and that each comes
    after its ancestors and after everything under an earlier sibling. */
module RowOrder {
  import opened Wrappers
  import opened SpanLinks
  import opened SpanForest
  import opened SpanShape

  ghost predicate Precedes(ids: seq<string>, a: string, b: string) {
    exists i, j :: 0 <= i < j < |ids| && ids[i] == a && ids[j] == b
  }

  lemma PrecedesAcross(front: seq<string>, back: seq<string>, a: string, b: string)
    requires a in front && b in back
    ensures Precedes(front + back, a, b)
  {
    var i :| 0 <= i < |front| && front[i] == a;
    var j :| 0 <= j < |back| && back[j] == b;
    assert (front + back)[i] == a && (front + back)[|front| + j] == b;
  }

  lemma PrecedesWithin(front: seq<string>, back: seq<string>, a: string, b: string)
    requires Precedes(front, a, b) || Precedes(back, a, b)
    ensures Precedes(front + back, a, b)
  {
    if i, j :| 0 <= i < j < |front| && front[i] == a && front[j] == b {
      assert (front + back)[i] == a && (front + back)[j] == b;
    } else {
      var i, j :| 0 <= i < j < |back| && back[i] == a && back[j] == b;
      assert (front + back)[|front| + i] == a && (front + back)[|front| + j] == b;
    }
  }

  // ---------------------------------------------------------------------
  // The order of a subtree is that of the whole
  // ---------------------------------------------------------------------

  lemma {:induction false} OrderKept(sh: Shape, bound: nat, m: string, n: string, a: string, b: string)
    requires IsShape(sh) && Within(sh.parents, bound) && m in sh.parents && n in sh.parents && Leads(sh.parents, n, m)
    requires Precedes(Pre(Grow(sh, bound, n)), a, b)
    ensures Precedes(Pre(Grow(sh, bound, m)), a, b)
    decreases bound + 1 - DepthOf(sh.parents, m), 0
  {
    if n != m {
      var kids, level := sh.kids[m], DepthOf(sh.parents, m) + 1;
      GrowSplits(sh, bound, m);
      LeadsThroughKid(sh, m, n);
      OrderKeptAll(sh, bound, kids, level, n, a, b);
      PrecedesWithin([m], PreAll(GrowAll(sh, bound, kids, level)), a, b);
    }
  }

  lemma {:induction false} OrderKeptAll(sh: Shape, bound: nat, ns: seq<string>, level: nat, n: string, a: string, b: string)
    requires IsShape(sh) && Within(sh.parents, bound) && AtLevel(sh.parents, ns, level) && level <= bound + 1
    requires n in sh.parents && exists i :: 0 <= i < |ns| && Leads(sh.parents, n, ns[i])
    requires Precedes(Pre(Grow(sh, bound, n)), a, b)
    ensures Precedes(PreAll(GrowAll(sh, bound, ns, level)), a, b)
    decreases bound + 1 - level, |ns|
  {
    assert AtLevel(sh.parents, ns[1..], level);
    var i :| 0 <= i < |ns| && Leads(sh.parents, n, ns[i]);
    if i == 0 {
      OrderKept(sh, bound, ns[0], n, a, b);
    } else {
      assert ns[1..][i - 1] == ns[i];
      OrderKeptAll(sh, bound, ns[1..], level, n, a, b);
    }
    PrecedesWithin(Pre(Grow(sh, bound, ns[0])), PreAll(GrowAll(sh, bound, ns[1..], level)), a, b);
  }

  lemma {:induction false} OrderKeptInForest(sh: Shape, n: string, a: string, b: string)
    requires IsShape(sh) && n in sh.parents && Precedes(Pre(SubtreeOf(sh, n)), a, b)
    ensures Precedes(PreAll(ForestOf(sh)), a, b)
  {
    RootsAtLevel(sh);
    WalkEndsAtRoot(sh, n);
    OrderKeptAll(sh, DeepestOf(sh.parents, sh.parents.Keys), sh.roots, 0, n, a, b);
  }

  // ---------------------------------------------------------------------
  // Ancestors first, then siblings in order
  // ---------------------------------------------------------------------

  lemma {:induction false} AncestorFirst(sh: Shape, n: string, m: string)
    requires IsShape(sh) && n in sh.parents && m in sh.parents && m != n && Leads(sh.parents, m, n)
    ensures Precedes(PreAll(ForestOf(sh)), n, m)
  {
    var bound := DeepestOf(sh.parents, sh.parents.Keys);
    var below := PreAll(GrowAllKids(sh, bound, n));
    GrowSplits(sh, bound, n);
    LeadsThroughKid(sh, n, m);
    SubtreesAreBelow(sh, bound, sh.kids[n], DepthOf(sh.parents, n) + 1, m);
    PrecedesAcross([n], below, n, m);
    OrderKeptInForest(sh, n, n, m);
  }

  ghost function GrowAllKids(sh: Shape, bound: nat, n: string): seq<Tree>
    requires IsShape(sh) && Within(sh.parents, bound) && n in sh.parents
  {
    GrowSplits(sh, bound, n);
    GrowAll(sh, bound, sh.kids[n], DepthOf(sh.parents, n) + 1)
  }

  /** `a` and `b` are at or below `ns[x]` and `ns[y]`. */
  ghost predicate Under(p: Links, ns: seq<string>, x: nat, y: nat, a: string, b: string) {
    x < y < |ns| && a in p && b in p && Leads(p, a, ns[x]) && Leads(p, b, ns[y])
  }

  lemma {:induction false} InSomeTree(ts: seq<Tree>, y: nat, b: string)
    requires y < |ts| && b in Pre(ts[y])
    ensures b in PreAll(ts)
  {
    if y > 0 {
      InSomeTree(ts[1..], y - 1, b);
    }
  }

  lemma {:induction false} TreesInOrder(ts: seq<Tree>, x: nat, y: nat, a: string, b: string)
    requires x < y < |ts| && a in Pre(ts[x]) && b in Pre(ts[y])
    ensures Precedes(PreAll(ts), a, b)
  {
    if x == 0 {
      InSomeTree(ts[1..], y - 1, b);
      PrecedesAcross(Pre(ts[0]), PreAll(ts[1..]), a, b);
    } else {
      TreesInOrder(ts[1..], x - 1, y - 1, a, b);
      PrecedesWithin(Pre(ts[0]), PreAll(ts[1..]), a, b);
    }
  }

  lemma {:induction false} ListedInOrder(sh: Shape, bound: nat, ns: seq<string>, level: nat, x: nat, y: nat, a: string, b: string)
    requires IsShape(sh) && Within(sh.parents, bound) && AtLevel(sh.parents, ns, level) && level <= bound + 1
    requires Under(sh.parents, ns, x, y, a, b)
    ensures Precedes(PreAll(GrowAll(sh, bound, ns, level)), a, b)
  {
    GrowAllAt(sh, bound, ns, level, x);
    GrowAllAt(sh, bound, ns, level, y);
    SubtreeIsBelow(sh, bound, ns[x], a);
    SubtreeIsBelow(sh, bound, ns[y], b);
    TreesInOrder(GrowAll(sh, bound, ns, level), x, y, a, b);
  }

  lemma {:induction false} SiblingsInOrder(sh: Shape, n: string, x: nat, y: nat, a: string, b: string)
    requires IsShape(sh) && n in sh.kids && Under(sh.parents, sh.kids[n], x, y, a, b)
    ensures Precedes(PreAll(ForestOf(sh)), a, b)
  {
    var bound := DeepestOf(sh.parents, sh.parents.Keys);
    KidsAtLevel(sh, n);
    ListedInOrder(sh, bound, sh.kids[n], DepthOf(sh.parents, n) + 1, x, y, a, b);
    PrecedesWithin([n], PreAll(GrowAllKids(sh, bound, n)), a, b);
    OrderKeptInForest(sh, n, a, b);
  }

  lemma {:induction false} RootsInOrder(sh: Shape, x: nat, y: nat, a: string, b: string)
    requires IsShape(sh) && Under(sh.parents, sh.roots, x, y, a, b)
    ensures Precedes(PreAll(ForestOf(sh)), a, b)
  {
    RootsAtLevel(sh);
    ListedInOrder(sh, DeepestOf(sh.parents, sh.parents.Keys), sh.roots, 0, x, y, a, b);
  }

  // ---------------------------------------------------------------------
  // The visible rows
  // ---------------------------------------------------------------------

  lemma {:induction false} NotHiddenHas(p: Links, collapsed: set<string>, ids: seq<string>, m: string)
    ensures m in NotHidden(p, collapsed, ids) <==> m in ids && !Hidden(p, collapsed, m)
  {
    if ids != [] {
      NotHiddenHas(p, collapsed, ids[1..], m);
      assert ids == [ids[0]] + ids[1..];
    }
  }

  lemma {:induction false} NotHiddenOrder(p: Links, collapsed: set<string>, ids: seq<string>, a: string, b: string)
    requires Precedes(ids, a, b) && !Hidden(p, collapsed, a) && !Hidden(p, collapsed, b)
    ensures Precedes(NotHidden(p, collapsed, ids), a, b)
  {
    var i, j :| 0 <= i < j < |ids| && ids[i] == a && ids[j] == b;
    var head, rest := if Hidden(p, collapsed, ids[0]) then [] else [ids[0]], ids[1..];
    assert rest[j - 1] == b;
    if i == 0 {
      NotHiddenHas(p, collapsed, rest, b);
      PrecedesAcross(head, NotHidden(p, collapsed, rest), a, b);
    } else {
      assert rest[i - 1] == a;
      NotHiddenOrder(p, collapsed, rest, a, b);
      PrecedesWithin(head, NotHidden(p, collapsed, rest), a, b);
    }
  }

  lemma {:induction false} NotHiddenOnce(p: Links, collapsed: set<string>, ids: seq<string>)
    requires Once(ids)
    ensures Once(NotHidden(p, collapsed, ids))
  {
    if ids != [] {
      var head, rest := if Hidden(p, collapsed, ids[0]) then [] else [ids[0]], ids[1..];
      NotHiddenOnce(p, collapsed, rest);
      NotHiddenHas(p, collapsed, rest, ids[0]);
      OnceJoined(head, NotHidden(p, collapsed, rest));
    }
  }

  /** The rows are the spans without a collapsed proper ancestor, each once. */
  lemma ShownIff(sh: Shape, collapsed: set<string>, m: string)
    requires IsShape(sh)
    ensures Once(VisibleAll(ForestOf(sh), collapsed))
    ensures m in VisibleAll(ForestOf(sh), collapsed) <==>
            m in sh.parents && !exists n :: n in collapsed && n != m && Leads(sh.parents, m, n)
  {
    VisibleIsFilteredPreOrder(sh, collapsed);
    ForestHoldsEverySpanOnce(sh);
    NotHiddenOnce(sh.parents, collapsed, PreAll(ForestOf(sh)));
    NotHiddenHas(sh.parents, collapsed, PreAll(ForestOf(sh)), m);
    if m in sh.parents {
      HiddenIff(sh.parents, collapsed, m);
    }
  }

  lemma HiddenIff(p: Links, collapsed: set<string>, m: string)
    requires Closed(p) && Rooted(p) && m in p
    ensures Hidden(p, collapsed, m) <==> exists n :: n in collapsed && n != m && Leads(p, m, n)
  {
    if k: nat :| k > 0 && Up(p, m, k).Some? && Up(p, m, k).value in collapsed {
      DepthUp(p, m, k);
      assert Leads(p, m, Up(p, m, k).value);
    }
    if n :| n in collapsed && n != m && Leads(p, m, n) {
      var k: nat :| Up(p, m, k) == Some(n);
      assert k > 0 by {
        assert Up(p, m, 0) == Some(m);
      }
    }
  }

  /** A span comes after its ancestors, and what is at or below a span comes before what
      is at or below a later sibling, or a later root. */
  lemma ShownInOrder(sh: Shape, collapsed: set<string>, i: nat, j: nat)
    requires IsShape(sh) && i < |VisibleAll(ForestOf(sh), collapsed)| && j < |VisibleAll(ForestOf(sh), collapsed)|
    requires var (a, b) := (VisibleAll(ForestOf(sh), collapsed)[i], VisibleAll(ForestOf(sh), collapsed)[j]);
             || (a != b && Leads(sh.parents, b, a))
             || (exists n, x, y :: n in sh.kids && Under(sh.parents, sh.kids[n], x, y, a, b))
             || (exists x, y :: Under(sh.parents, sh.roots, x, y, a, b))
    ensures i < j
  {
    var rows, all := VisibleAll(ForestOf(sh), collapsed), PreAll(ForestOf(sh));
    var (a, b) := (rows[i], rows[j]);
    VisibleIsFilteredPreOrder(sh, collapsed);
    NotHiddenHas(sh.parents, collapsed, all, a);
    NotHiddenHas(sh.parents, collapsed, all, b);
    ForestHoldsEverySpanOnce(sh);
    if n, x, y :| n in sh.kids && Under(sh.parents, sh.kids[n], x, y, a, b) {
      SiblingsInOrder(sh, n, x, y, a, b);
    } else if x, y :| Under(sh.parents, sh.roots, x, y, a, b) {
      RootsInOrder(sh, x, y, a, b);
    } else {
      AncestorFirst(sh, a, b);
    }
    NotHiddenOrder(sh.parents, collapsed, all, a, b);
    ShownIff(sh, collapsed, a);
    PlacesOf(rows, i, j, a, b);
  }

  lemma PlacesOf(rows: seq<string>, i: nat, j: nat, a: string, b: string)
    requires Once(rows) && Precedes(rows, a, b) && i < |rows| && j < |rows| && rows[i] == a && rows[j] == b
    ensures i < j
  {
    var x, y :| 0 <= x < y < |rows| && rows[x] == a && rows[y] == b;
    assert x == i && y == j;
  }
}
