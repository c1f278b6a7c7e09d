/** Sizes: how many rows of a list satisfy a condition, and how lists and sets fit in
    one another. */
module RoomCounts {
  lemma SubsetFits<T>(some: set<T>, all: set<T>)
    requires some <= all
    ensures |some| <= |all|
  {
    assert some + (all - some) == all;
  }

  /** The rows that satisfy `p`, copies included. */
  function Those<T>(rows: seq<T>, p: T -> bool): seq<T> {
    if rows == [] then []
    else (if p(rows[0]) then [rows[0]] else []) + Those(rows[1..], p)
  }

  lemma {:induction false} ThoseCounts<T>(rows: seq<T>, p: T -> bool, r: T)
    ensures multiset(Those(rows, p))[r] == if p(r) then multiset(rows)[r] else 0
  {
    if rows != [] {
      ThoseCounts(rows[1..], p, r);
      assert rows == [rows[0]] + rows[1..];
    }
  }

  lemma PartFits<T(!new)>(part: multiset<T>, whole: multiset<T>)
    requires forall r :: part[r] <= whole[r]
    ensures |part| <= |whole|
  {
    assert part + (whole - part) == whole;
  }

  /** Some rows of a list that all satisfy `p` are no more than the list has. */
  lemma PartIsCounted<T(!new)>(part: seq<T>, rows: seq<T>, p: T -> bool)
    requires multiset(part) <= multiset(rows) && forall i :: 0 <= i < |part| ==> p(part[i])
    ensures |part| <= |Those(rows, p)|
  {
    forall r ensures multiset(part)[r] <= multiset(Those(rows, p))[r] {
      ThoseCounts(rows, p, r);
      if r in multiset(part) {
        assert r in part;
      }
    }
    PartFits(multiset(part), multiset(Those(rows, p)));
    assert |multiset(part)| == |part| && |multiset(Those(rows, p))| == |Those(rows, p)|;
  }

  /** A list with every copy of the rows that satisfy `p`, and one more row, is longer. */
  lemma WholeIsFewer<T(!new)>(rows: seq<T>, list: seq<T>, p: T -> bool, more: T)
    requires forall r :: p(r) ==> multiset(rows)[r] <= multiset(list)[r]
    requires more in list && !p(more)
    ensures |Those(rows, p)| < |list|
  {
    var part := multiset(Those(rows, p)) + multiset{more};
    assert more in multiset(list);
    forall r ensures part[r] <= multiset(list)[r] {
      ThoseCounts(rows, p, r);
    }
    PartFits(part, multiset(list));
    assert |multiset(Those(rows, p))| == |Those(rows, p)| && |multiset(list)| == |list|;
  }
}
