/** One cycle-cutting walk: from a span up through its ancestors until something
    already known to be safe, or until it revisits its own path. */
module CycleCut {
  import opened Wrappers
  import opened SpanLinks

  /** One of the first `i` rows leads to `n`. */
  ghost predicate Reached(p: Links, order: seq<string>, i: nat, n: string) {
    exists j :: 0 <= j < i && j < |order| && Leads(p, order[j], n)
  }

  /** `n` is cut by one of the first `i` rows. */
  ghost predicate CutBefore(p: Links, order: seq<string>, i: nat, n: string) {
    exists j: nat :: j < i && CutFrom(p, order, j, n)
  }

  /** The first `i` rows have been walked: exactly what they lead to is safe, and
      exactly the links they cut are gone. */
  ghost predicate Walked(p: Links, order: seq<string>, i: nat, q: Links, safe: set<string>, cut: set<string>) {
    && (forall n :: n in safe <==> n in p && Reached(p, order, i, n))
    && (forall n :: n in cut <==> n in p && CutBefore(p, order, i, n))
    && q.Keys == p.Keys
    && (forall n :: n in p ==> q[n] == if n in cut then None else p[n])
  }

  /** The walk from `start` so far: distinct spans, none of them safe. */
  ghost predicate IsPath(p: Links, start: string, path: seq<string>, safe: set<string>) {
    && (forall a :: 0 <= a < |path| ==> Up(p, start, a) == Some(path[a]) && path[a] !in safe)
    && (forall a, b :: 0 <= a < b < |path| ==> path[a] != path[b])
  }

  lemma PathPrefix(p: Links, start: string, path: seq<string>, safe: set<string>, a: nat)
    requires IsPath(p, start, path, safe) && a < |path|
    ensures path[a] in p && Leads(p, start, path[a])
  {
    UpPrefix(p, start, a, a);
  }

  /** The next span of the walk. */
  lemma PathStep(p: Links, start: string, path: seq<string>, safe: set<string>)
    requires Closed(p) && path != [] && IsPath(p, start, path, safe)
    ensures path[|path| - 1] in p && Up(p, start, |path|) == p[path[|path| - 1]]
  {
    var a := |path| - 1;
    UpPrefix(p, start, a, a);
    UpAdd(p, start, a, 1);
    assert Up(p, start, |path|) == Up(p, path[a], 1);
  }

  /** A walk that has come back to its own path never leaves it again. */
  lemma {:induction false} LoopsBack(p: Links, start: string, path: seq<string>, safe: set<string>, j: nat, m: nat)
    requires IsPath(p, start, path, safe) && j < |path| && Up(p, start, |path|) == Some(path[j]) && j <= m
    ensures exists b :: j <= b < |path| && Up(p, start, m) == Some(path[b])
    decreases m
  {
    if m < |path| {
      assert Up(p, start, m) == Some(path[m]);
    } else {
      UpAdd(p, start, |path|, m - |path|);
      UpAdd(p, start, j, m - |path|);
      LoopsBack(p, start, path, safe, j, j + (m - |path|));
    }
  }

  /** Where the walk revisits its path, it has entered its cycle for the first time. */
  lemma RevisitIsEntry(p: Links, start: string, path: seq<string>, safe: set<string>, j: nat)
    requires IsPath(p, start, path, safe) && j < |path| && Up(p, start, |path|) == Some(path[j])
    ensures EntryAt(p, start, path[j], j)
  {
    UpAdd(p, start, j, |path| - j);
    assert Up(p, path[j], |path| - j) == Some(path[j]);
    forall a: nat | a < j ensures Up(p, start, a).Some? && !OnCycle(p, Up(p, start, a).value) {
      if OnCycle(p, path[a]) {
        UpAdd(p, start, a, j - a);
        CycleReturns(p, path[a], j - a);
        var t: nat :| Up(p, path[j], t) == Some(path[a]);
        UpAdd(p, start, j, t);
        LoopsBack(p, start, path, safe, j, j + t);
        assert false;
      }
    }
  }

  lemma RevisitCuts(p: Links, order: seq<string>, i: nat, path: seq<string>, safe: set<string>, j: nat, n: string)
    requires i < |order| && IsPath(p, order[i], path, safe) && j < |path| && Up(p, order[i], |path|) == Some(path[j])
    requires forall m :: m in safe <==> m in p && Reached(p, order, i, m)
    ensures CutFrom(p, order, i, n) <==> n == path[j]
  {
    RevisitIsEntry(p, order[i], path, safe, j);
    PathPrefix(p, order[i], path, safe, j);
    if CutFrom(p, order, i, n) {
      var k: nat :| EntryAt(p, order[i], n, k);
      assert k == j;
    }
    assert Enters(p, order[i], path[j]);
    assert forall m :: 0 <= m < i ==> !Leads(p, order[m], path[j]);
  }

  /** A walk that ends at a root or at a safe span cuts nothing. */
  lemma NoCutAtEnd(p: Links, order: seq<string>, i: nat, path: seq<string>, safe: set<string>, n: string)
    requires i < |order| && IsPath(p, order[i], path, safe)
    requires forall m :: m in safe <==> m in p && Reached(p, order, i, m)
    requires Up(p, order[i], |path|).None? || Up(p, order[i], |path|).value in safe
    ensures !CutFrom(p, order, i, n)
  {
    var start, k := order[i], |path|;
    if CutFrom(p, order, i, n) {
      var m: nat :| EntryAt(p, start, n, m);
      if Up(p, start, k).None? {
        if m >= k {
          UpPrefix(p, start, k, m);
        } else {
          UpAdd(p, start, m, k - m);
          CycleReturns(p, n, k - m);
        }
        assert false;
      }
      var s := Up(p, start, k).value;
      var j :| 0 <= j < i && Leads(p, order[j], s);
      if m >= k {
        UpAdd(p, start, k, m - k);
      } else {
        UpAdd(p, start, m, k - m);
        CycleReturns(p, n, k - m);
      }
      LeadsOn(p, order[j], s, n);
      assert false;
    }
  }

  /** What the walk reaches is its path, and from there on what was safe before. */
  lemma WalkReaches(p: Links, order: seq<string>, i: nat, path: seq<string>, safe: set<string>, n: string)
    requires i < |order| && IsPath(p, order[i], path, safe) && n in p
    requires forall m :: m in safe <==> m in p && Reached(p, order, i, m)
    requires Up(p, order[i], |path|).Some? ==>
               Up(p, order[i], |path|).value in safe || Up(p, order[i], |path|).value in path
    ensures Reached(p, order, i + 1, n) <==> n in safe || n in path
  {
    var start, k := order[i], |path|;
    if n in path {
      var a :| 0 <= a < |path| && path[a] == n;
      PathPrefix(p, start, path, safe, a);
    }
    if Leads(p, start, n) && n !in path {
      var m: nat :| Up(p, start, m) == Some(n);
      assert m >= k;
      UpPrefix(p, start, k, m);
      var s := Up(p, start, k).value;
      if s in path {
        var j :| 0 <= j < |path| && path[j] == s;
        LoopsBack(p, start, path, safe, j, m);
        assert false;
      }
      UpAdd(p, start, k, m - k);
      var j :| 0 <= j < i && Leads(p, order[j], s);
      LeadsOn(p, order[j], s, n);
    }
  }

  lemma CutLater(p: Links, order: seq<string>, i: nat, n: string)
    ensures CutBefore(p, order, i + 1, n) <==> CutBefore(p, order, i, n) || CutFrom(p, order, i, n)
  {
  }

  /** Walk up from one span until a root, a safe span, or the walk's own path. */
  method WalkUp(order: seq<string>, ghost p: Links, i: nat, q: Links, safe: set<string>, ghost cut: set<string>)
    returns (path: seq<string>, stop: Option<string>)
    requires Closed(p) && i < |order| && order[i] in p && Walked(p, order, i, q, safe, cut)
    ensures IsPath(p, order[i], path, safe) && stop == Up(p, order[i], |path|)
    ensures stop.Some? ==> stop.value in p && (stop.value in safe || stop.value in path)
  {
    path := [];
    var onPath := {};
    var current := Some(order[i]);
    while current.Some? && current.value !in safe
      invariant IsPath(p, order[i], path, safe) && current == Up(p, order[i], |path|)
      invariant current.Some? ==> current.value in p
      invariant onPath <= p.Keys && forall n :: n in onPath <==> n in path
      decreases p.Keys - onPath
    {
      var n := current.value;
      if n in onPath {
        return path, current;
      }
      assert n !in cut;
      path := path + [n];
      onPath := onPath + {n};
      PathStep(p, order[i], path, safe);
      current := q[n];
    }
    stop := current;
  }

  /** When every row has been walked, exactly the links to cut are gone. */
  lemma AllWalked(p: Links, order: seq<string>, q: Links, safe: set<string>, cut: set<string>)
    requires Walked(p, order, |order|, q, safe, cut)
    ensures q == CutLinks(p, order)
    ensures forall n :: n in cut <==> n in p && IsCut(p, order, n)
  {
    forall n | n in p ensures CutBefore(p, order, |order|, n) <==> IsCut(p, order, n) {
      if IsCut(p, order, n) {
        var i: nat :| CutFrom(p, order, i, n);
      }
    }
  }

  /** The state after one more walk. */
  lemma WalkEnds(p: Links, order: seq<string>, i: nat, q: Links, safe: set<string>, cut: set<string>,
                 path: seq<string>, stop: Option<string>)
    requires Closed(p) && i < |order| && order[i] in p && Walked(p, order, i, q, safe, cut)
    requires IsPath(p, order[i], path, safe) && stop == Up(p, order[i], |path|)
    requires stop.Some? ==> stop.value in p && (stop.value in safe || stop.value in path)
    ensures forall n :: (n in safe || n in path) <==> n in p && Reached(p, order, i + 1, n)
    ensures var revisits := stop.Some? && stop.value !in safe;
            forall n :: (n in cut || (revisits && n == stop.value)) <==> n in p && CutBefore(p, order, i + 1, n)
  {
    forall n ensures (n in safe || n in path) <==> n in p && Reached(p, order, i + 1, n) {
      if n in p {
        WalkReaches(p, order, i, path, safe, n);
      } else if n in path {
        var a :| 0 <= a < |path| && path[a] == n;
        PathPrefix(p, order[i], path, safe, a);
      }
    }
    forall n
      ensures (n in cut || (stop.Some? && stop.value !in safe && n == stop.value)) <==> n in p && CutBefore(p, order, i + 1, n)
    {
      CutLater(p, order, i, n);
      if stop.Some? && stop.value !in safe {
        var j :| 0 <= j < |path| && path[j] == stop.value;
        RevisitCuts(p, order, i, path, safe, j, n);
      } else {
        NoCutAtEnd(p, order, i, path, safe, n);
      }
    }
  }

  /** After one more walk its path is safe, and the span it revisited is cut. */
  lemma WalkedOneMore(p: Links, order: seq<string>, i: nat, q: Links, safe: set<string>, cut: set<string>,
                      path: seq<string>, stop: Option<string>)
    requires Closed(p) && i < |order| && order[i] in p && Walked(p, order, i, q, safe, cut)
    requires IsPath(p, order[i], path, safe) && stop == Up(p, order[i], |path|)
    requires stop.Some? ==> stop.value in p && (stop.value in safe || stop.value in path)
    ensures var revisits := stop.Some? && stop.value !in safe;
            Walked(p, order, i + 1, if revisits then q[stop.value := None] else q, safe + (set n | n in path),
                   if revisits then cut + {stop.value} else cut)
  {
    WalkEnds(p, order, i, q, safe, cut, path, stop);
  }
}
