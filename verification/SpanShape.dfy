/** From parent links and ordered child lists to the forest they describe: every
    span appears in it once, and its subtrees are what the links lead to. */
module SpanShape {
  import opened Wrappers
  import opened SpanLinks
  import opened SpanForest

  /** Links, the children of every span, and the roots, in display order. */
  datatype Shape = Shape(parents: Links, kids: map<string, seq<string>>, roots: seq<string>)

  ghost predicate IsShape(sh: Shape) {
    && Closed(sh.parents) && Rooted(sh.parents) && sh.kids.Keys == sh.parents.Keys
    && (forall n :: n in sh.kids ==> Once(sh.kids[n]))
    && (forall n, m {:trigger m in sh.kids[n]} :: n in sh.kids ==>
          (m in sh.kids[n] <==> m in sh.parents && sh.parents[m] == Some(n)))
    && Once(sh.roots)
    && (forall m {:trigger m in sh.roots} :: m in sh.roots <==> m in sh.parents && sh.parents[m] == None)
  }

  // ---------------------------------------------------------------------
  // Depth
  // ---------------------------------------------------------------------

  lemma {:induction false} RootInOnce(p: Links, n: string, j: nat, k: nat)
    requires RootIn(p, n, j) && RootIn(p, n, k)
    ensures j == k
    decreases j
  {
    if p[n].Some? {
      RootInOnce(p, p[n].value, j - 1, k - 1);
    }
  }

  /** The distance of a span to its root. */
  ghost function DepthOf(p: Links, n: string): nat
    requires ReachesRoot(p, n)
  {
    var k: nat :| RootIn(p, n, k); k
  }

  lemma DepthIs(p: Links, n: string, k: nat)
    requires RootIn(p, n, k)
    ensures DepthOf(p, n) == k
  {
    RootInOnce(p, n, DepthOf(p, n), k);
  }

  lemma DepthOfChild(p: Links, n: string)
    requires Closed(p) && Rooted(p) && n in p
    ensures DepthOf(p, n) == if p[n].None? then 0 else DepthOf(p, p[n].value) + 1
  {
    if p[n].None? {
      DepthIs(p, n, 0);
    } else {
      var k := DepthOf(p, p[n].value);
      assert RootIn(p, n, k + 1);
      DepthIs(p, n, k + 1);
    }
  }

  lemma {:induction false} DepthUp(p: Links, n: string, k: nat)
    requires Closed(p) && Rooted(p) && n in p && Up(p, n, k).Some?
    ensures Up(p, n, k).value in p && DepthOf(p, n) == k + DepthOf(p, Up(p, n, k).value)
    decreases k
  {
    DepthOfChild(p, n);
    if k > 0 {
      DepthUp(p, p[n].value, k - 1);
    }
  }

  /** Two ancestors at one depth are one. */
  lemma SameDepthSameAncestor(p: Links, m: string, a: string, b: string)
    requires Closed(p) && Rooted(p) && m in p && Leads(p, m, a) && Leads(p, m, b)
    requires a in p && b in p && DepthOf(p, a) == DepthOf(p, b)
    ensures a == b
  {
    var j: nat :| Up(p, m, j) == Some(a);
    var k: nat :| Up(p, m, k) == Some(b);
    DepthUp(p, m, j);
    DepthUp(p, m, k);
  }

  /** No span lies deeper than `bound`. */
  ghost predicate Within(p: Links, bound: nat) {
    forall n :: n in p && ReachesRoot(p, n) ==> DepthOf(p, n) <= bound
  }

  ghost function DeepestOf(p: Links, s: set<string>): (bound: nat)
    requires Rooted(p) && s <= p.Keys
    ensures forall n :: n in s ==> DepthOf(p, n) <= bound
  {
    if s == {} then 0
    else
      var n :| n in s;
      var rest := DeepestOf(p, s - {n});
      if DepthOf(p, n) > rest then DepthOf(p, n) else rest
  }

  // ---------------------------------------------------------------------
  // The forest
  // ---------------------------------------------------------------------

  ghost predicate AtLevel(p: Links, ns: seq<string>, level: nat) {
    Rooted(p) && forall i :: 0 <= i < |ns| ==> ns[i] in p && DepthOf(p, ns[i]) == level
  }

  lemma KidOf(sh: Shape, n: string, i: nat)
    requires IsShape(sh) && n in sh.kids && i < |sh.kids[n]|
    ensures n in sh.parents && sh.kids[n][i] in sh.parents && sh.parents[sh.kids[n][i]] == Some(n)
  {
    assert sh.kids[n][i] in sh.kids[n];
  }

  lemma KidsAtLevel(sh: Shape, n: string)
    requires IsShape(sh) && n in sh.kids
    ensures AtLevel(sh.parents, sh.kids[n], DepthOf(sh.parents, n) + 1)
  {
    forall i | 0 <= i < |sh.kids[n]|
      ensures sh.kids[n][i] in sh.parents && DepthOf(sh.parents, sh.kids[n][i]) == DepthOf(sh.parents, n) + 1
    {
      KidOf(sh, n, i);
      DepthOfChild(sh.parents, sh.kids[n][i]);
    }
  }

  lemma RootsAtLevel(sh: Shape)
    requires IsShape(sh)
    ensures AtLevel(sh.parents, sh.roots, 0)
  {
    forall i | 0 <= i < |sh.roots| ensures sh.roots[i] in sh.parents && DepthOf(sh.parents, sh.roots[i]) == 0 {
      assert sh.roots[i] in sh.roots;
      DepthOfChild(sh.parents, sh.roots[i]);
    }
  }

  ghost function Grow(sh: Shape, bound: nat, n: string): Tree
    requires IsShape(sh) && Within(sh.parents, bound) && n in sh.parents
    decreases bound + 1 - DepthOf(sh.parents, n), 0
  {
    KidsAtLevel(sh, n);
    Node(n, GrowAll(sh, bound, sh.kids[n], DepthOf(sh.parents, n) + 1))
  }

  ghost function GrowAll(sh: Shape, bound: nat, ns: seq<string>, level: nat): (ts: seq<Tree>)
    requires IsShape(sh) && Within(sh.parents, bound) && AtLevel(sh.parents, ns, level) && level <= bound + 1
    ensures |ts| == |ns|
    decreases bound + 1 - level, |ns|
  {
    if ns == [] then []
    else
      assert AtLevel(sh.parents, ns[1..], level);
      [Grow(sh, bound, ns[0])] + GrowAll(sh, bound, ns[1..], level)
  }

  ghost function ForestOf(sh: Shape): seq<Tree>
    requires IsShape(sh)
  {
    RootsAtLevel(sh);
    var bound := DeepestOf(sh.parents, sh.parents.Keys);
    GrowAll(sh, bound, sh.roots, 0)
  }

  /** The subtree at a span. */
  ghost function SubtreeOf(sh: Shape, n: string): Tree
    requires IsShape(sh) && n in sh.parents
  {
    Grow(sh, DeepestOf(sh.parents, sh.parents.Keys), n)
  }

  lemma {:induction false} GrowAllAt(sh: Shape, bound: nat, ns: seq<string>, level: nat, i: nat)
    requires IsShape(sh) && Within(sh.parents, bound) && AtLevel(sh.parents, ns, level) && level <= bound + 1
    requires i < |ns|
    ensures GrowAll(sh, bound, ns, level)[i] == Grow(sh, bound, ns[i])
    decreases |ns|
  {
    if i > 0 {
      assert AtLevel(sh.parents, ns[1..], level);
      GrowAllAt(sh, bound, ns[1..], level, i - 1);
    }
  }

  lemma SubtreeKids(sh: Shape, n: string)
    requires IsShape(sh) && n in sh.parents
    ensures SubtreeOf(sh, n).id == n && |SubtreeOf(sh, n).kids| == |sh.kids[n]| && n !in sh.kids[n]
    ensures forall i :: 0 <= i < |sh.kids[n]| ==>
              sh.kids[n][i] in sh.parents && SubtreeOf(sh, n).kids[i] == SubtreeOf(sh, sh.kids[n][i])
  {
    var bound := DeepestOf(sh.parents, sh.parents.Keys);
    KidsAtLevel(sh, n);
    forall i | 0 <= i < |sh.kids[n]|
      ensures sh.kids[n][i] in sh.parents && SubtreeOf(sh, n).kids[i] == SubtreeOf(sh, sh.kids[n][i])
    {
      GrowAllAt(sh, bound, sh.kids[n], DepthOf(sh.parents, n) + 1, i);
    }
  }

  lemma ForestAt(sh: Shape)
    requires IsShape(sh)
    ensures |ForestOf(sh)| == |sh.roots|
    ensures forall i :: 0 <= i < |sh.roots| ==>
              sh.roots[i] in sh.parents && ForestOf(sh)[i] == SubtreeOf(sh, sh.roots[i])
  {
    RootsAtLevel(sh);
    forall i | 0 <= i < |sh.roots| ensures ForestOf(sh)[i] == SubtreeOf(sh, sh.roots[i]) {
      GrowAllAt(sh, DeepestOf(sh.parents, sh.parents.Keys), sh.roots, 0, i);
    }
  }

  /** Every span with its subtree. */
  ghost function TreesOf(sh: Shape): map<string, Tree>
    requires IsShape(sh)
  {
    map n | n in sh.parents :: SubtreeOf(sh, n)
  }

  ghost function DepthsOf(p: Links): map<string, nat>
    requires Rooted(p)
  {
    map n | n in p :: (assert ReachesRoot(p, n); DepthOf(p, n))
  }

  lemma TreesAreFamily(sh: Shape)
    requires IsShape(sh)
    ensures Family(TreesOf(sh)) && Stepped(TreesOf(sh), DepthsOf(sh.parents))
    ensures InFamily(TreesOf(sh), ForestOf(sh))
    ensures forall i :: 0 <= i < |ForestOf(sh)| ==> DepthsOf(sh.parents)[ForestOf(sh)[i].id] == 0
  {
    forall n | n in sh.parents ensures FamilyAt(TreesOf(sh), n) && SteppedAt(TreesOf(sh), DepthsOf(sh.parents), n) {
      SubtreeKids(sh, n);
      KidsAtLevel(sh, n);
    }
    ForestAt(sh);
    RootsAtLevel(sh);
  }

  lemma LeadsBelow(p: Links, m: string, n: string)
    requires Closed(p) && m in p
    ensures Leads(p, m, n) <==> m == n || exists c :: c in p && p[c] == Some(n) && Leads(p, m, c)
  {
    assert Up(p, m, 0) == Some(m);
    if Leads(p, m, n) && m != n {
      var k: nat :| Up(p, m, k) == Some(n);
      UpPrefix(p, m, k - 1, k);
      var c := Up(p, m, k - 1).value;
      UpAdd(p, m, k - 1, 1);
      assert Up(p, c, 1) == Some(n);
      assert p[c] == Some(n);
    }
    if c :| c in p && p[c] == Some(n) && Leads(p, m, c) {
      assert n in p && Up(p, n, 0) == Some(n);
      assert Up(p, c, 1) == Some(n);
      LeadsOn(p, m, c, n);
    }
  }

  /** A span's subtree holds exactly the spans that lead up to it. */
  lemma {:induction false} SubtreeIsBelow(sh: Shape, bound: nat, n: string, m: string)
    requires IsShape(sh) && Within(sh.parents, bound) && n in sh.parents && m in sh.parents
    ensures m in Pre(Grow(sh, bound, n)) <==> Leads(sh.parents, m, n)
    decreases bound + 1 - DepthOf(sh.parents, n), 0
  {
    var kids := sh.kids[n];
    GrowSplits(sh, bound, n);
    assert m in [n] + PreAll(GrowAll(sh, bound, kids, DepthOf(sh.parents, n) + 1)) <==>
           m == n || m in PreAll(GrowAll(sh, bound, kids, DepthOf(sh.parents, n) + 1));
    SubtreesAreBelow(sh, bound, kids, DepthOf(sh.parents, n) + 1, m);
    LeadsThroughKid(sh, n, m);
  }

  lemma GrowSplits(sh: Shape, bound: nat, n: string)
    requires IsShape(sh) && Within(sh.parents, bound) && n in sh.parents
    ensures AtLevel(sh.parents, sh.kids[n], DepthOf(sh.parents, n) + 1) && DepthOf(sh.parents, n) < bound + 1
    ensures Pre(Grow(sh, bound, n)) == [n] + PreAll(GrowAll(sh, bound, sh.kids[n], DepthOf(sh.parents, n) + 1))
  {
    KidsAtLevel(sh, n);
  }

  lemma LeadsThroughKid(sh: Shape, n: string, m: string)
    requires IsShape(sh) && n in sh.kids && m in sh.parents
    ensures Leads(sh.parents, m, n) <==>
              m == n || exists i :: 0 <= i < |sh.kids[n]| && Leads(sh.parents, m, sh.kids[n][i])
  {
    var kids := sh.kids[n];
    LeadsBelow(sh.parents, m, n);
    if c :| c in sh.parents && sh.parents[c] == Some(n) && Leads(sh.parents, m, c) {
      assert c in kids;
      var i :| 0 <= i < |kids| && kids[i] == c;
    }
    if i :| 0 <= i < |kids| && Leads(sh.parents, m, kids[i]) {
      KidOf(sh, n, i);
    }
  }

  lemma {:induction false} SubtreesAreBelow(sh: Shape, bound: nat, ns: seq<string>, level: nat, m: string)
    requires IsShape(sh) && Within(sh.parents, bound) && AtLevel(sh.parents, ns, level) && level <= bound + 1
    requires m in sh.parents
    ensures m in PreAll(GrowAll(sh, bound, ns, level)) <==>
              exists i :: 0 <= i < |ns| && Leads(sh.parents, m, ns[i])
    decreases bound + 1 - level, |ns|
  {
    if ns != [] {
      assert AtLevel(sh.parents, ns[1..], level);
      SubtreeIsBelow(sh, bound, ns[0], m);
      SubtreesAreBelow(sh, bound, ns[1..], level, m);
      if i :| 0 <= i < |ns[1..]| && Leads(sh.parents, m, ns[1..][i]) {
        assert ns[i + 1] == ns[1..][i];
      }
      if i :| 0 <= i < |ns| && Leads(sh.parents, m, ns[i]) {
        assert i > 0 ==> ns[1..][i - 1] == ns[i];
      }
    }
  }

  lemma {:induction false} SubtreeIsInDomain(sh: Shape, bound: nat, n: string, m: string)
    requires IsShape(sh) && Within(sh.parents, bound) && n in sh.parents && m in Pre(Grow(sh, bound, n))
    ensures m in sh.parents
    decreases bound + 1 - DepthOf(sh.parents, n), 0
  {
    KidsAtLevel(sh, n);
    if m != n {
      SubtreesAreInDomain(sh, bound, sh.kids[n], DepthOf(sh.parents, n) + 1, m);
    }
  }

  lemma {:induction false} SubtreesAreInDomain(sh: Shape, bound: nat, ns: seq<string>, level: nat, m: string)
    requires IsShape(sh) && Within(sh.parents, bound) && AtLevel(sh.parents, ns, level) && level <= bound + 1
    requires m in PreAll(GrowAll(sh, bound, ns, level))
    ensures m in sh.parents
    decreases bound + 1 - level, |ns|
  {
    assert AtLevel(sh.parents, ns[1..], level);
    if m in Pre(Grow(sh, bound, ns[0])) {
      SubtreeIsInDomain(sh, bound, ns[0], m);
    } else {
      SubtreesAreInDomain(sh, bound, ns[1..], level, m);
    }
  }

  lemma OnceJoined(a: seq<string>, b: seq<string>)
    requires Once(a) && Once(b) && forall x :: x in a ==> x !in b
    ensures Once(a + b)
  {
    forall i, j | 0 <= i < j < |a + b| ensures (a + b)[i] != (a + b)[j] {
      if i < |a| <= j {
        assert a[i] in a && b[j - |a|] in b;
      }
    }
  }

  lemma {:induction false} SubtreeOnce(sh: Shape, bound: nat, n: string)
    requires IsShape(sh) && Within(sh.parents, bound) && n in sh.parents
    ensures Once(Pre(Grow(sh, bound, n)))
    decreases bound + 1 - DepthOf(sh.parents, n), 0
  {
    GrowSplits(sh, bound, n);
    var kids, level := sh.kids[n], DepthOf(sh.parents, n) + 1;
    SubtreesOnce(sh, bound, kids, level);
    NotBelowDeeper(sh, bound, kids, level, n);
    OnceJoined([n], PreAll(GrowAll(sh, bound, kids, level)));
  }

  lemma UpIsNotDeeper(p: Links, n: string, c: string)
    requires Closed(p) && Rooted(p) && n in p && c in p && DepthOf(p, c) > DepthOf(p, n)
    ensures !Leads(p, n, c)
  {
    if k: nat :| Up(p, n, k) == Some(c) {
      DepthUp(p, n, k);
      assert false;
    }
  }

  /** No span is below spans that are deeper than itself. */
  lemma {:induction false} NotBelowDeeper(sh: Shape, bound: nat, ns: seq<string>, level: nat, n: string)
    requires IsShape(sh) && Within(sh.parents, bound) && AtLevel(sh.parents, ns, level) && level <= bound + 1
    requires n in sh.parents && DepthOf(sh.parents, n) < level
    ensures n !in PreAll(GrowAll(sh, bound, ns, level))
  {
    SubtreesAreBelow(sh, bound, ns, level, n);
    if i :| 0 <= i < |ns| && Leads(sh.parents, n, ns[i]) {
      UpIsNotDeeper(sh.parents, n, ns[i]);
      assert false;
    }
  }

  lemma {:induction false} SubtreesOnce(sh: Shape, bound: nat, ns: seq<string>, level: nat)
    requires IsShape(sh) && Within(sh.parents, bound) && AtLevel(sh.parents, ns, level) && level <= bound + 1
    requires Once(ns)
    ensures Once(PreAll(GrowAll(sh, bound, ns, level)))
    decreases bound + 1 - level, |ns|
  {
    if ns != [] {
      assert AtLevel(sh.parents, ns[1..], level);
      SubtreeOnce(sh, bound, ns[0]);
      SubtreesOnce(sh, bound, ns[1..], level);
      var a, b := Pre(Grow(sh, bound, ns[0])), PreAll(GrowAll(sh, bound, ns[1..], level));
      forall m | m in a ensures m !in b {
        if m in b {
          SubtreeIsInDomain(sh, bound, ns[0], m);
          SubtreeIsBelow(sh, bound, ns[0], m);
          SubtreesAreBelow(sh, bound, ns[1..], level, m);
          var i :| 0 <= i < |ns[1..]| && Leads(sh.parents, m, ns[1..][i]);
          SameDepthSameAncestor(sh.parents, m, ns[0], ns[i + 1]);
          assert false;
        }
      }
      OnceJoined(a, b);
    }
  }

  lemma WalkEndsAtRoot(sh: Shape, m: string)
    requires IsShape(sh) && m in sh.parents
    ensures exists i :: 0 <= i < |sh.roots| && Leads(sh.parents, m, sh.roots[i])
  {
    assert ReachesRoot(sh.parents, m);
    var k: nat :| RootIn(sh.parents, m, k);
    RootIsUp(sh.parents, m, k);
    var r := Up(sh.parents, m, k).value;
    assert r in sh.roots;
    var i :| 0 <= i < |sh.roots| && sh.roots[i] == r;
    assert Leads(sh.parents, m, sh.roots[i]);
  }

  /** Every span appears in the forest, exactly once, and nothing else does. */
  lemma ForestHoldsEverySpanOnce(sh: Shape)
    requires IsShape(sh)
    ensures Once(PreAll(ForestOf(sh)))
    ensures forall m :: m in PreAll(ForestOf(sh)) <==> m in sh.parents
  {
    RootsAtLevel(sh);
    var bound := DeepestOf(sh.parents, sh.parents.Keys);
    SubtreesOnce(sh, bound, sh.roots, 0);
    forall m ensures m in PreAll(ForestOf(sh)) <==> m in sh.parents {
      if m in PreAll(ForestOf(sh)) {
        SubtreesAreInDomain(sh, bound, sh.roots, 0, m);
      }
      if m in sh.parents {
        WalkEndsAtRoot(sh, m);
        SubtreesAreBelow(sh, bound, sh.roots, 0, m);
      }
    }
  }

  lemma {:induction false} OnceSameMembers(a: seq<string>, b: seq<string>)
    requires Once(a) && Once(b) && forall x :: x in a <==> x in b
    ensures multiset(a) == multiset(b)
  {
    forall x ensures multiset(a)[x] == multiset(b)[x] {
      OnceCounts(a, x);
      OnceCounts(b, x);
    }
  }

  lemma {:induction false} OnceCounts(a: seq<string>, x: string)
    requires Once(a)
    ensures multiset(a)[x] == if x in a then 1 else 0
  {
    if a != [] {
      OnceCounts(a[1..], x);
      assert a == [a[0]] + a[1..];
    }
  }

  // ---------------------------------------------------------------------
  // Collapsing, in terms of the links
  // ---------------------------------------------------------------------

  /** A proper ancestor of `n` is collapsed. */
  ghost predicate Hidden(p: Links, collapsed: set<string>, n: string) {
    exists k: nat :: k > 0 && Up(p, n, k).Some? && Up(p, n, k).value in collapsed
  }

  ghost function NotHidden(p: Links, collapsed: set<string>, ids: seq<string>): seq<string> {
    if ids == [] then []
    else (if Hidden(p, collapsed, ids[0]) then [] else [ids[0]]) + NotHidden(p, collapsed, ids[1..])
  }

  lemma {:induction false} NotHiddenAppends(p: Links, collapsed: set<string>, a: seq<string>, b: seq<string>)
    ensures NotHidden(p, collapsed, a + b) == NotHidden(p, collapsed, a) + NotHidden(p, collapsed, b)
  {
    if a == [] {
      assert a + b == b;
    } else {
      assert (a + b)[1..] == a[1..] + b;
      NotHiddenAppends(p, collapsed, a[1..], b);
    }
  }

  lemma HiddenBelow(p: Links, collapsed: set<string>, c: string)
    requires Closed(p) && c in p && p[c].Some?
    ensures Hidden(p, collapsed, c) <==> Hidden(p, collapsed, p[c].value) || p[c].value in collapsed
  {
    var n := p[c].value;
    assert Up(p, n, 0) == Some(n) && Up(p, c, 1) == Some(n);
    if Hidden(p, collapsed, c) {
      var k: nat :| k > 0 && Up(p, c, k).Some? && Up(p, c, k).value in collapsed;
      assert Up(p, c, k) == Up(p, n, k - 1);
    }
    if Hidden(p, collapsed, n) {
      var k: nat :| k > 0 && Up(p, n, k).Some? && Up(p, n, k).value in collapsed;
      assert Up(p, c, k + 1) == Up(p, n, k);
    }
  }

  /** Under a span that is hidden or collapsed everything is hidden. */
  lemma {:induction false} AllHidden(sh: Shape, bound: nat, ns: seq<string>, level: nat, collapsed: set<string>)
    requires IsShape(sh) && Within(sh.parents, bound) && AtLevel(sh.parents, ns, level) && level <= bound + 1
    requires forall i :: 0 <= i < |ns| ==> Hidden(sh.parents, collapsed, ns[i])
    ensures NotHidden(sh.parents, collapsed, PreAll(GrowAll(sh, bound, ns, level))) == []
    decreases bound + 1 - level, |ns|
  {
    if ns != [] {
      var p, n := sh.parents, ns[0];
      assert AtLevel(p, ns[1..], level);
      KidsAtLevel(sh, n);
      KidsHidden(sh, n, collapsed);
      AllHidden(sh, bound, sh.kids[n], level + 1, collapsed);
      AllHidden(sh, bound, ns[1..], level, collapsed);
      var below := PreAll(GrowAll(sh, bound, sh.kids[n], level + 1));
      assert ([n] + below)[1..] == below;
      NotHiddenAppends(p, collapsed, Pre(Grow(sh, bound, n)), PreAll(GrowAll(sh, bound, ns[1..], level)));
    }
  }

  lemma KidsHidden(sh: Shape, n: string, collapsed: set<string>)
    requires IsShape(sh) && n in sh.kids
    ensures forall i :: 0 <= i < |sh.kids[n]| ==>
              (Hidden(sh.parents, collapsed, sh.kids[n][i]) <==> Hidden(sh.parents, collapsed, n) || n in collapsed)
  {
    forall i | 0 <= i < |sh.kids[n]|
      ensures Hidden(sh.parents, collapsed, sh.kids[n][i]) <==> Hidden(sh.parents, collapsed, n) || n in collapsed
    {
      KidOf(sh, n, i);
      HiddenBelow(sh.parents, collapsed, sh.kids[n][i]);
    }
  }

  lemma {:induction false} VisibleIsNotHidden(sh: Shape, bound: nat, n: string, collapsed: set<string>)
    requires IsShape(sh) && Within(sh.parents, bound) && n in sh.parents && !Hidden(sh.parents, collapsed, n)
    ensures Visible(Grow(sh, bound, n), collapsed) == NotHidden(sh.parents, collapsed, Pre(Grow(sh, bound, n)))
    decreases bound + 1 - DepthOf(sh.parents, n), 0
  {
    var level := DepthOf(sh.parents, n) + 1;
    KidsAtLevel(sh, n);
    KidsHidden(sh, n, collapsed);
    if n in collapsed {
      AllHidden(sh, bound, sh.kids[n], level, collapsed);
    } else {
      VisibleAreNotHidden(sh, bound, sh.kids[n], level, collapsed);
    }
    var below := PreAll(GrowAll(sh, bound, sh.kids[n], level));
    assert ([n] + below)[1..] == below;
  }

  lemma {:induction false} VisibleAreNotHidden(sh: Shape, bound: nat, ns: seq<string>, level: nat, collapsed: set<string>)
    requires IsShape(sh) && Within(sh.parents, bound) && AtLevel(sh.parents, ns, level) && level <= bound + 1
    requires forall i :: 0 <= i < |ns| ==> !Hidden(sh.parents, collapsed, ns[i])
    ensures VisibleAll(GrowAll(sh, bound, ns, level), collapsed)
              == NotHidden(sh.parents, collapsed, PreAll(GrowAll(sh, bound, ns, level)))
    decreases bound + 1 - level, |ns|
  {
    if ns != [] {
      assert AtLevel(sh.parents, ns[1..], level);
      VisibleIsNotHidden(sh, bound, ns[0], collapsed);
      VisibleAreNotHidden(sh, bound, ns[1..], level, collapsed);
      NotHiddenAppends(sh.parents, collapsed, Pre(Grow(sh, bound, ns[0])), PreAll(GrowAll(sh, bound, ns[1..], level)));
    }
  }

  lemma RootsNotHidden(sh: Shape, collapsed: set<string>)
    requires IsShape(sh)
    ensures forall i :: 0 <= i < |sh.roots| ==> !Hidden(sh.parents, collapsed, sh.roots[i])
  {
    forall i | 0 <= i < |sh.roots| ensures !Hidden(sh.parents, collapsed, sh.roots[i]) {
      assert sh.roots[i] in sh.roots;
    }
  }

  /** The visible rows are the full pre-order restricted to the spans with no
      collapsed proper ancestor. */
  lemma VisibleIsFilteredPreOrder(sh: Shape, collapsed: set<string>)
    requires IsShape(sh)
    ensures VisibleAll(ForestOf(sh), collapsed) == NotHidden(sh.parents, collapsed, PreAll(ForestOf(sh)))
  {
    RootsAtLevel(sh);
    RootsNotHidden(sh, collapsed);
    VisibleAreNotHidden(sh, DeepestOf(sh.parents, sh.parents.Keys), sh.roots, 0, collapsed);
  }
}
