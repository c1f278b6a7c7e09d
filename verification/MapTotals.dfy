/** The sum of the values of a finite map. */
module MapTotals {
  ghost function Total(m: map<string, nat>): nat
    decreases |m|
  {
    if m == map[] then 0
    else
      var k :| k in m;
      Smaller(m, k);
      m[k] + Total(m - {k})
  }

  lemma Smaller(m: map<string, nat>, k: string)
    requires k in m
    ensures |m - {k}| < |m|
  {
    assert (m - {k}).Keys == m.Keys - {k};
    assert |m.Keys - {k}| == |m.Keys| - 1;
  }

  /** Any entry can be taken out first. */
  lemma {:induction false} TotalWithout(m: map<string, nat>, k: string)
    requires k in m
    ensures Total(m) == m[k] + Total(m - {k})
    decreases |m|
  {
    var j :| j in m && Total(m) == m[j] + Total(m - {j});
    if j != k {
      Smaller(m, j);
      Smaller(m, k);
      TotalWithout(m - {j}, k);
      TotalWithout(m - {k}, j);
      assert m - {j} - {k} == m - {k} - {j};
    }
  }

  lemma TotalOf(m: map<string, nat>, k: string, n: nat)
    requires k !in m
    ensures Total(m[k := n]) == Total(m) + n
  {
    TotalWithout(m[k := n], k);
    assert m[k := n] - {k} == m;
  }

  lemma TotalChanged(m: map<string, nat>, k: string, n: nat)
    requires k in m
    ensures Total(m[k := n]) == Total(m) - m[k] + n
  {
    TotalWithout(m, k);
    TotalWithout(m[k := n], k);
    assert m[k := n] - {k} == m - {k};
  }
}
