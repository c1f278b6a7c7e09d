/** Parent links of the spans of one trace: walking up, cycles, and which link of
    each cycle is cut. */
module SpanLinks {
  import opened Wrappers

  /** The resolved parent of every span; a root has none. */
  type Links = map<string, Option<string>>

  ghost predicate Closed(p: Links) {
    forall n {:trigger p[n]} :: n in p && p[n].Some? ==> p[n].value in p
  }

  /** The ancestor `k` steps up, if the walk gets that far. */
  ghost function Up(p: Links, n: string, k: nat): Option<string>
    decreases k
  {
    if n !in p then None
    else if k == 0 then Some(n)
    else if p[n].None? then None
    else Up(p, p[n].value, k - 1)
  }

  ghost predicate Leads(p: Links, a: string, c: string) {
    exists k: nat :: Up(p, a, k) == Some(c)
  }

  ghost predicate OnCycle(p: Links, c: string) {
    exists k: nat :: k > 0 && Up(p, c, k) == Some(c)
  }

  /** The walk from `n` ends at a root after `k` steps. */
  ghost predicate RootIn(p: Links, n: string, k: nat)
    decreases k
  {
    n in p && if p[n].None? then k == 0 else k > 0 && RootIn(p, p[n].value, k - 1)
  }

  ghost predicate ReachesRoot(p: Links, n: string) {
    exists k: nat :: RootIn(p, n, k)
  }

  ghost predicate Rooted(p: Links) {
    forall n {:trigger ReachesRoot(p, n)} :: n in p ==> ReachesRoot(p, n)
  }

  /** `n` lies above `s`. */
  ghost predicate Above(p: Links, n: string, s: string) {
    exists k: nat :: k > 0 && Up(p, s, k) == Some(n)
  }

  // ---------------------------------------------------------------------
  // Walking
  // ---------------------------------------------------------------------

  lemma {:induction false} UpAdd(p: Links, n: string, j: nat, k: nat)
    requires Up(p, n, j).Some?
    ensures Up(p, n, j + k) == Up(p, Up(p, n, j).value, k)
    decreases j
  {
    if j > 0 {
      UpAdd(p, p[n].value, j - 1, k);
    }
  }

  lemma {:induction false} UpPrefix(p: Links, n: string, j: nat, k: nat)
    requires j <= k && Up(p, n, k).Some?
    ensures Up(p, n, j).Some? && Up(p, n, j).value in p
    decreases k
  {
    if j > 0 {
      UpPrefix(p, p[n].value, j - 1, k - 1);
    }
  }

  lemma LeadsOn(p: Links, a: string, b: string, c: string)
    requires Leads(p, a, b) && Leads(p, b, c)
    ensures Leads(p, a, c)
  {
    var j: nat :| Up(p, a, j) == Some(b);
    var k: nat :| Up(p, b, k) == Some(c);
    UpAdd(p, a, j, k);
  }

  /** From a cycle one always comes back. */
  lemma {:induction false} CycleReturns(p: Links, c: string, j: nat)
    requires OnCycle(p, c)
    ensures Up(p, c, j).Some? && Leads(p, Up(p, c, j).value, c)
    decreases j
  {
    var k: nat :| k > 0 && Up(p, c, k) == Some(c);
    if j <= k {
      UpPrefix(p, c, j, k);
      UpAdd(p, c, j, k - j);
    } else {
      UpAdd(p, c, k, j - k);
      CycleReturns(p, c, j - k);
    }
  }

  /** Whatever a cycle member leads to is a member of the same cycle. */
  lemma CycleLeads(p: Links, c: string, d: string)
    requires OnCycle(p, c) && Leads(p, c, d)
    ensures OnCycle(p, d) && Leads(p, d, c)
  {
    var j: nat :| Up(p, c, j) == Some(d);
    CycleReturns(p, c, j);
    var t: nat :| Up(p, d, t) == Some(c);
    UpAdd(p, d, t, j);
    if t + j == 0 {
      assert d == c;
    }
  }

  /** A finite walk ends at a root or reaches a cycle. `seen` are the spans already
      walked through. */
  lemma {:induction false} RootOrCycle(p: Links, n: string, seen: set<string>)
    requires Closed(p) && n in p && seen <= p.Keys
    requires forall s :: s in seen ==> Above(p, n, s)
    ensures ReachesRoot(p, n) || exists c :: Leads(p, n, c) && OnCycle(p, c)
    decreases p.Keys - seen
  {
    assert Up(p, n, 0) == Some(n);
    if n in seen {
      assert Above(p, n, n);
      assert Leads(p, n, n) && OnCycle(p, n);
    } else if p[n].None? {
      assert RootIn(p, n, 0);
    } else {
      var m := p[n].value;
      assert Up(p, m, 0) == Some(m);
      assert Up(p, n, 1) == Some(m);
      forall s | s in seen + {n} ensures Above(p, m, s) {
        if s != n {
          var t: nat :| t > 0 && Up(p, s, t) == Some(n);
          UpAdd(p, s, t, 1);
          assert Up(p, s, t + 1) == Some(m);
        }
      }
      RootOrCycle(p, m, seen + {n});
      if ReachesRoot(p, m) {
        var k: nat :| RootIn(p, m, k);
        assert RootIn(p, n, k + 1);
      } else {
        var c :| Leads(p, m, c) && OnCycle(p, c);
        LeadsOn(p, n, m, c);
      }
    }
  }

  // ---------------------------------------------------------------------
  // Which link of a cycle is cut
  // ---------------------------------------------------------------------

  /** `c` is the first cycle member on the walk from `a`. */
  ghost predicate EntryAt(p: Links, a: string, c: string, k: nat) {
    && Up(p, a, k) == Some(c) && OnCycle(p, c)
    && (forall j: nat :: j < k ==> Up(p, a, j).Some? && !OnCycle(p, Up(p, a, j).value))
  }

  ghost predicate Enters(p: Links, a: string, c: string) {
    exists k: nat :: EntryAt(p, a, c, k)
  }

  /** `order[i]` is the first row that leads to `c`, and enters its cycle there. */
  ghost predicate CutFrom(p: Links, order: seq<string>, i: nat, c: string) {
    i < |order| && Enters(p, order[i], c) && forall j :: 0 <= j < i ==> !Leads(p, order[j], c)
  }

  ghost predicate IsCut(p: Links, order: seq<string>, c: string) {
    exists i: nat :: CutFrom(p, order, i, c)
  }

  /** The links after cutting: the member at which the earliest row leading to a
      cycle enters it loses its parent, and nobody else does. */
  ghost function CutLinks(p: Links, order: seq<string>): Links {
    map n | n in p :: if IsCut(p, order, n) then None else p[n]
  }

  lemma {:induction false} EntryExists(p: Links, a: string, d: string, k: nat) returns (c: string)
    requires Up(p, a, k) == Some(d) && OnCycle(p, d)
    ensures Enters(p, a, c) && Leads(p, c, d)
    decreases k
  {
    if OnCycle(p, a) {
      UpPrefix(p, a, 0, k);
      assert EntryAt(p, a, a, 0);
      return a;
    }
    assert k > 0;
    c := EntryExists(p, p[a].value, d, k - 1);
    var m: nat :| EntryAt(p, p[a].value, c, m);
    forall j: nat | j < m + 1 ensures Up(p, a, j).Some? && !OnCycle(p, Up(p, a, j).value) {
      if j > 0 {
        assert Up(p, a, j) == Up(p, p[a].value, j - 1);
      }
    }
    assert EntryAt(p, a, c, m + 1);
  }

  /** The first row of the order that leads to `c`. */
  lemma {:induction false} FirstLeader(p: Links, order: seq<string>, c: string, n: nat) returns (i: nat)
    requires n < |order| && Leads(p, order[n], c)
    ensures i <= n && Leads(p, order[i], c) && forall j :: 0 <= j < i ==> !Leads(p, order[j], c)
    decreases n
  {
    if m: nat :| m < n && Leads(p, order[m], c) {
      i := FirstLeader(p, order, c, m);
    } else {
      i := n;
    }
  }

  /** The member of the cycle of `c` that is cut is unique. */
  ghost predicate OnlyCut(p: Links, order: seq<string>, c: string, d: string) {
    forall e :: SameCycle(p, c, e) && e in p && CutLinks(p, order)[e] == None ==> e == d
  }

  ghost predicate SameCycle(p: Links, c: string, d: string) {
    OnCycle(p, c) && Leads(p, c, d)
  }

  /** Every cycle has a member that is cut ... */
  lemma CycleHasCut(p: Links, order: seq<string>, c: string) returns (d: string)
    requires OnCycle(p, c) && c in order
    ensures IsCut(p, order, d) && SameCycle(p, c, d)
  {
    var n :| 0 <= n < |order| && order[n] == c;
    CycleReturns(p, c, 0);
    var i := FirstLeader(p, order, c, n);
    var k: nat :| Up(p, order[i], k) == Some(c);
    d := EntryExists(p, order[i], c, k);
    var m: nat :| EntryAt(p, order[i], d, m);
    CycleLeads(p, d, c);
    forall j | 0 <= j < i ensures !Leads(p, order[j], d) {
      if Leads(p, order[j], d) {
        LeadsOn(p, order[j], d, c);
      }
    }
    assert CutFrom(p, order, i, d);
  }

  /** ... and only one. */
  lemma CycleHasOneCut(p: Links, order: seq<string>, c: string, d: string)
    requires IsCut(p, order, c) && IsCut(p, order, d) && SameCycle(p, c, d)
    ensures c == d
  {
    var i: nat :| CutFrom(p, order, i, c);
    var j: nat :| CutFrom(p, order, j, d);
    var k: nat :| EntryAt(p, order[i], c, k);
    var m: nat :| EntryAt(p, order[j], d, m);
    CycleLeads(p, c, d);
    LeadsOn(p, order[i], c, d);
    LeadsOn(p, order[j], d, c);
    assert i == j;
    assert k == m;
  }

  /** Exactly one link of each cycle is cut: for each member there is one cut span on
      its cycle and no other, and that span did lose a parent. */
  lemma EachCycleLosesOneLink(p: Links, order: seq<string>, c: string)
    requires Closed(p) && OnCycle(p, c) && c in p && forall n :: n in p ==> n in order
    ensures exists d :: SameCycle(p, c, d) && d in p && p[d].Some? && CutLinks(p, order)[d] == None
                        && OnlyCut(p, order, c, d)
  {
    var d := CycleHasCut(p, order, c);
    MembersHaveParents(p, c, d);
    forall e | SameCycle(p, c, e) && e in p && CutLinks(p, order)[e] == None ensures e == d {
      MembersHaveParents(p, c, e);
      CycleLeads(p, c, e);
      LeadsOn(p, e, c, d);
      CycleHasOneCut(p, order, e, d);
    }
    assert OnlyCut(p, order, c, d);
  }

  lemma MembersHaveParents(p: Links, c: string, d: string)
    requires SameCycle(p, c, d)
    ensures d in p && p[d].Some?
  {
    CycleLeads(p, c, d);
    var k: nat :| k > 0 && Up(p, d, k) == Some(d);
  }

  /** A span off every cycle keeps its parent. */
  lemma OffCycleKeepsParent(p: Links, order: seq<string>, n: string)
    requires n in p && !OnCycle(p, n)
    ensures CutLinks(p, order)[n] == p[n]
  {
    assert !IsCut(p, order, n);
  }

  lemma {:induction false} WalkToCut(p: Links, order: seq<string>, n: string, m: string, k: nat)
    requires Up(p, n, k) == Some(m) && m in p && (p[m].None? || IsCut(p, order, m))
    ensures ReachesRoot(CutLinks(p, order), n)
    decreases k
  {
    var q := CutLinks(p, order);
    if q[n].None? {
      assert RootIn(q, n, 0);
    } else {
      assert k > 0;
      WalkToCut(p, order, p[n].value, m, k - 1);
      var j: nat :| RootIn(q, p[n].value, j);
      assert RootIn(q, n, j + 1);
    }
  }

  lemma {:induction false} RootIsUp(p: Links, n: string, k: nat)
    requires RootIn(p, n, k)
    ensures Up(p, n, k).Some? && Up(p, n, k).value in p && p[Up(p, n, k).value].None?
    decreases k
  {
    if p[n].Some? {
      RootIsUp(p, p[n].value, k - 1);
    }
  }

  /** After cutting there is no cycle left: every span reaches a root. */
  lemma CutLinksAreRooted(p: Links, order: seq<string>)
    requires Closed(p) && forall n :: n in p ==> n in order
    ensures Closed(CutLinks(p, order)) && Rooted(CutLinks(p, order))
  {
    forall n | n in p ensures ReachesRoot(CutLinks(p, order), n) {
      RootOrCycle(p, n, {});
      if ReachesRoot(p, n) {
        var k: nat :| RootIn(p, n, k);
        RootIsUp(p, n, k);
        WalkToCut(p, order, n, Up(p, n, k).value, k);
      } else {
        var c :| Leads(p, n, c) && OnCycle(p, c);
        CycleIsInDomain(p, c);
        var d := CycleHasCut(p, order, c);
        LeadsOn(p, n, c, d);
        var k: nat :| Up(p, n, k) == Some(d);
        UpPrefix(p, n, k, k);
        WalkToCut(p, order, n, d, k);
      }
    }
  }

  lemma CycleIsInDomain(p: Links, c: string)
    requires OnCycle(p, c)
    ensures c in p
  {
    var k: nat :| k > 0 && Up(p, c, k) == Some(c);
  }

  ghost predicate Acyclic(p: Links) {
    forall n :: n in p ==> !OnCycle(p, n)
  }

  /** Where there is no cycle, nothing is cut, whatever the order. */
  lemma AcyclicIsUncut(p: Links, order: seq<string>)
    requires Acyclic(p)
    ensures CutLinks(p, order) == p
  {
    forall n | n in p ensures CutLinks(p, order)[n] == p[n] {
      OffCycleKeepsParent(p, order, n);
    }
  }

  /** Row `i` is the first that leads to `c`. */
  ghost predicate FirstLeads(p: Links, order: seq<string>, c: string, i: nat) {
    i < |order| && Leads(p, order[i], c) && forall j :: 0 <= j < i ==> !Leads(p, order[j], c)
  }

  /** A cycle member is cut exactly when the first row that leads to the cycle enters it
      there. */
  lemma CutIffEntered(p: Links, order: seq<string>, c: string, i: nat)
    requires OnCycle(p, c) && FirstLeads(p, order, c, i)
    ensures IsCut(p, order, c) <==> Enters(p, order[i], c)
  {
    if IsCut(p, order, c) {
      var j: nat :| CutFrom(p, order, j, c);
      var k: nat :| EntryAt(p, order[j], c, k);
      assert Leads(p, order[j], c);
      assert i == j;
    }
    if Enters(p, order[i], c) {
      assert CutFrom(p, order, i, c);
    }
  }

  /** The earliest member of a cycle is cut if and only if no earlier row leads to the
      cycle from outside, or the first that does enters the cycle at this very member. */
  lemma EarliestIsCutIff(p: Links, order: seq<string>, m: nat)
    requires m < |order| && OnCycle(p, order[m])
    requires forall j :: 0 <= j < m ==> !SameCycle(p, order[m], order[j])
    ensures IsCut(p, order, order[m]) <==>
            forall i: nat :: i < m && FirstLeads(p, order, order[m], i) ==>
              !OnCycle(p, order[i]) && Enters(p, order[i], order[m])
  {
    var c := order[m];
    CycleReturns(p, c, 0);
    var i := FirstLeader(p, order, c, m);
    CutIffEntered(p, order, c, i);
    if i == m {
      assert EntryAt(p, c, c, 0);
    } else {
      OutsideUnlessMember(p, c, order[i]);
    }
    assert FirstLeads(p, order, c, i);
  }

  /** What leads to a cycle is on no cycle or on this one. */
  lemma OutsideUnlessMember(p: Links, c: string, a: string)
    requires OnCycle(p, c) && Leads(p, a, c) && !SameCycle(p, c, a)
    ensures !OnCycle(p, a)
  {
    if OnCycle(p, a) {
      CycleLeads(p, a, c);
    }
  }

  /** A member that comes first of all rows is cut. */
  lemma FirstRowIsCut(p: Links, order: seq<string>, c: string)
    requires order != [] && order[0] == c && OnCycle(p, c)
    ensures IsCut(p, order, c)
  {
    CycleReturns(p, c, 0);
    assert EntryAt(p, c, c, 0);
    assert CutFrom(p, order, 0, c);
  }

  /** Whichever member of a cycle comes first is cut, so two orders that start with two
      members leave different links. */
  lemma CycleDependsOnOrder(p: Links, c: string, d: string, first: seq<string>, second: seq<string>)
    requires SameCycle(p, c, d) && c != d && c in p
    requires first != [] && first[0] == c && second != [] && second[0] == d
    ensures CutLinks(p, first) != CutLinks(p, second)
  {
    FirstRowIsCut(p, first, c);
    CycleLeads(p, c, d);
    FirstRowIsCut(p, second, d);
    CycleReturns(p, c, 0);
    MembersHaveParents(p, c, c);
    if IsCut(p, second, c) {
      CycleHasOneCut(p, second, c, d);
    }
    assert CutLinks(p, first)[c] == None && CutLinks(p, second)[c] == p[c];
  }

  /** The cut is not always at the earliest member: a tail row that comes first
      enters the cycle at its own parent. */
  lemma CutNeedNotBeEarliest()
    ensures var p: Links := map["t" := Some("b"), "a" := Some("b"), "b" := Some("a")];
            var order := ["t", "a", "b"];
            OnCycle(p, "a") && OnCycle(p, "b") && IsCut(p, order, "b") && !IsCut(p, order, "a")
  {
    var p: Links := map["t" := Some("b"), "a" := Some("b"), "b" := Some("a")];
    var order := ["t", "a", "b"];
    assert Up(p, "a", 0) == Some("a") && Up(p, "b", 0) == Some("b");
    assert Up(p, "a", 1) == Some("b") && Up(p, "b", 1) == Some("a");
    assert Up(p, "a", 2) == Some("a") && Up(p, "b", 2) == Some("b");
    assert Up(p, "t", 1) == Some("b");
    TailIsOffCycle(p, 1);
    assert EntryAt(p, "t", "b", 1);
    assert CutFrom(p, order, 0, "b");
    if IsCut(p, order, "a") {
      CycleHasOneCut(p, order, "a", "b");
      assert false;
    }
  }

  lemma TailIsOffCycle(p: Links, from: nat)
    requires p == map["t" := Some("b"), "a" := Some("b"), "b" := Some("a")]
    ensures !OnCycle(p, "t") && Up(p, "t", 0) == Some("t")
  {
    forall k: nat | k > 0 ensures Up(p, "t", k) != Some("t") {
      NeverTail(p, "b", k - 1);
    }
  }

  lemma {:induction false} NeverTail(p: Links, n: string, k: nat)
    requires p == map["t" := Some("b"), "a" := Some("b"), "b" := Some("a")] && n in {"a", "b"}
    ensures Up(p, n, k) != Some("t")
    decreases k
  {
    if k > 0 {
      NeverTail(p, p[n].value, k - 1);
    }
  }
}
