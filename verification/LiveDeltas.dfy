/** Cursor-based delta reads of one trace: the two capped queries, the cursor
    they return, and what repeated polling from that cursor reads.

    A row keeps only what the live protocol looks at: its identity (`span_id`, or
    the evaluation result's composite key), its arrival millisecond, and whether
    it is a root span (empty parent id). */
module LiveDeltas {
  import opened RoomCounts
  import opened TextOrder

  datatype Row = Row(key: string, ms: int, root: bool)

  datatype Cursor = Cursor(spanMs: int, evalMs: int)

  datatype Delta = Delta(spans: seq<Row>, evals: seq<Row>, cursor: Cursor, rootSeen: bool)

  const DELTA_SPAN_CAP: nat := 2000
  const DELTA_EVAL_CAP: nat := 1000

  /** Some row of `rows` has the key of `r` and did not arrive after it. */
  ghost predicate Covers(rows: seq<Row>, r: Row) {
    exists i :: 0 <= i < |rows| && rows[i].key == r.key && rows[i].ms <= r.ms
  }

  ghost predicate SortedByMs(rows: seq<Row>) {
    forall i, j :: 0 <= i < j < |rows| ==> rows[i].ms <= rows[j].ms
  }

  ghost predicate DistinctKeys(rows: seq<Row>) {
    forall i, j :: 0 <= i < j < |rows| ==> rows[i].key != rows[j].key
  }

  /** Everything the protocol relies on in an answer of a delta query over the
      visible rows `log`: the bound is inclusive, one row a key, arrival order,
      at most `cap` rows, and a row is left out only when an earlier row of its
      key stands for it or when the page is full with rows no younger.
      The order of rows of one millisecond is left open. */
  ghost predicate IsPage(log: seq<Row>, from: int, cap: nat, page: seq<Row>) {
    && |page| <= cap
    && (forall i :: 0 <= i < |page| ==> page[i] in log && page[i].ms >= from)
    && DistinctKeys(page)
    && SortedByMs(page)
    && (forall r :: r in log && r.ms >= from ==> Accounted(page, cap, r))
  }

  /** `r` is in the page by its key, or the full page ends no later than `r`. */
  ghost predicate Accounted(page: seq<Row>, cap: nat, r: Row) {
    Covers(page, r) || (|page| == cap && forall i :: 0 <= i < |page| ==> page[i].ms <= r.ms)
  }

  /** The watermark after a page: the newest millisecond read, or the old one. */
  function Advanced(page: seq<Row>, from: int): int {
    if page == [] || page[|page| - 1].ms < from then from else page[|page| - 1].ms
  }

  // ---------------------------------------------------------------------
  // The span query: filter, ORDER BY (ms, key), LIMIT 1 BY key, LIMIT cap
  // ---------------------------------------------------------------------

  function Matching(log: seq<Row>, from: int): seq<Row> {
    if log == [] then []
    else (if log[0].ms >= from then [log[0]] else []) + Matching(log[1..], from)
  }

  predicate Before(a: Row, b: Row) {
    a.ms < b.ms || (a.ms == b.ms && LexLeq(a.key, b.key))
  }

  function InsertRow(r: Row, rows: seq<Row>): seq<Row> {
    if rows == [] || Before(r, rows[0]) then [r] + rows
    else [rows[0]] + InsertRow(r, rows[1..])
  }

  function OrderRows(rows: seq<Row>): seq<Row> {
    if rows == [] then [] else InsertRow(rows[0], OrderRows(rows[1..]))
  }

  function WithoutKey(key: string, rows: seq<Row>): seq<Row> {
    if rows == [] then []
    else (if rows[0].key == key then [] else [rows[0]]) + WithoutKey(key, rows[1..])
  }

  function FirstPerKey(rows: seq<Row>): (kept: seq<Row>)
    decreases |rows|
  {
    if rows == [] then []
    else
      WithoutKeyShrinks(rows[0].key, rows[1..]);
      [rows[0]] + FirstPerKey(WithoutKey(rows[0].key, rows[1..]))
  }

  function SpanQuery(log: seq<Row>, from: int, cap: nat): seq<Row> {
    var rows := FirstPerKey(OrderRows(Matching(log, from)));
    if |rows| <= cap then rows else rows[..cap]
  }

  lemma WithoutKeyShrinks(key: string, rows: seq<Row>)
    ensures |WithoutKey(key, rows)| <= |rows|
  {
  }

  lemma {:induction false} MatchingMembers(log: seq<Row>, from: int, r: Row)
    ensures r in Matching(log, from) <==> r in log && r.ms >= from
  {
    if log != [] {
      MatchingMembers(log[1..], from, r);
      assert log == [log[0]] + log[1..];
    }
  }

  lemma {:induction false} InsertRowKeeps(r: Row, rows: seq<Row>)
    ensures multiset(InsertRow(r, rows)) == multiset{r} + multiset(rows)
    ensures forall i :: 0 <= i < |InsertRow(r, rows)| ==> InsertRow(r, rows)[i] == r || InsertRow(r, rows)[i] in rows
  {
    if rows != [] && !Before(r, rows[0]) {
      InsertRowKeeps(r, rows[1..]);
      assert rows == [rows[0]] + rows[1..];
    } else {
      assert multiset([r] + rows) == multiset{r} + multiset(rows);
    }
  }

  lemma {:induction false} InsertRowOrders(r: Row, rows: seq<Row>)
    requires SortedByMs(rows)
    ensures SortedByMs(InsertRow(r, rows))
  {
    if rows != [] && !Before(r, rows[0]) {
      InsertRowOrders(r, rows[1..]);
      InsertRowKeeps(r, rows[1..]);
      var rest := InsertRow(r, rows[1..]);
      forall i | 0 <= i < |rest| ensures rows[0].ms <= rest[i].ms {
        if rest[i] in rows[1..] {
          var j :| 0 <= j < |rows[1..]| && rows[1..][j] == rest[i];
          assert rows[j + 1] == rest[i];
        }
      }
    }
  }

  lemma {:induction false} OrderRowsOrders(rows: seq<Row>)
    ensures SortedByMs(OrderRows(rows))
    ensures multiset(OrderRows(rows)) == multiset(rows)
  {
    if rows != [] {
      OrderRowsOrders(rows[1..]);
      InsertRowOrders(rows[0], OrderRows(rows[1..]));
      InsertRowKeeps(rows[0], OrderRows(rows[1..]));
      assert rows == [rows[0]] + rows[1..];
    }
  }

  lemma {:induction false} WithoutKeyMembers(key: string, rows: seq<Row>)
    ensures forall r :: r in WithoutKey(key, rows) <==> r in rows && r.key != key
    ensures SortedByMs(rows) ==> SortedByMs(WithoutKey(key, rows))
  {
    if rows != [] {
      WithoutKeyMembers(key, rows[1..]);
      assert rows == [rows[0]] + rows[1..];
    }
  }

  lemma {:induction false} FirstPerKeyMembers(rows: seq<Row>)
    ensures forall r :: r in FirstPerKey(rows) ==> r in rows
    decreases |rows|
  {
    if rows != [] {
      WithoutKeyShrinks(rows[0].key, rows[1..]);
      WithoutKeyMembers(rows[0].key, rows[1..]);
      FirstPerKeyMembers(WithoutKey(rows[0].key, rows[1..]));
    }
  }

  lemma FirstRowLeads(rows: seq<Row>, kept: seq<Row>)
    requires rows != [] && SortedByMs(rows) && kept == FirstPerKey(WithoutKey(rows[0].key, rows[1..]))
    ensures forall i :: 0 <= i < |kept| ==> rows[0].ms <= kept[i].ms && rows[0].key != kept[i].key
  {
    var rest := WithoutKey(rows[0].key, rows[1..]);
    WithoutKeyMembers(rows[0].key, rows[1..]);
    FirstPerKeyMembers(rest);
    forall i | 0 <= i < |kept| ensures rows[0].ms <= kept[i].ms && rows[0].key != kept[i].key {
      assert kept[i] in rest;
      var j :| 0 <= j < |rows[1..]| && rows[1..][j] == kept[i];
      assert rows[j + 1] == kept[i];
    }
  }

  lemma {:induction false} FirstPerKeyOrdered(rows: seq<Row>)
    requires SortedByMs(rows)
    ensures SortedByMs(FirstPerKey(rows)) && DistinctKeys(FirstPerKey(rows))
    decreases |rows|
  {
    if rows != [] {
      var rest := WithoutKey(rows[0].key, rows[1..]);
      WithoutKeyShrinks(rows[0].key, rows[1..]);
      assert SortedByMs(rest) by { WithoutKeyMembers(rows[0].key, rows[1..]); }
      FirstPerKeyOrdered(rest);
      FirstRowLeads(rows, FirstPerKey(rest));
    }
  }

  lemma {:induction false} FirstPerKeyCovers(rows: seq<Row>, r: Row)
    requires SortedByMs(rows) && r in rows
    ensures Covers(FirstPerKey(rows), r)
    decreases |rows|
  {
    var rest := WithoutKey(rows[0].key, rows[1..]);
    WithoutKeyShrinks(rows[0].key, rows[1..]);
    WithoutKeyMembers(rows[0].key, rows[1..]);
    var i :| 0 <= i < |rows| && rows[i] == r;
    if r.key == rows[0].key {
      assert FirstPerKey(rows)[0] == rows[0];
    } else {
      assert rows[1..][i - 1] == r;
      FirstPerKeyCovers(rest, r);
      var k :| 0 <= k < |FirstPerKey(rest)| && FirstPerKey(rest)[k].key == r.key && FirstPerKey(rest)[k].ms <= r.ms;
      assert FirstPerKey(rows)[k + 1] == FirstPerKey(rest)[k];
    }
  }

  lemma OrderedMembers(log: seq<Row>, from: int, r: Row)
    ensures r in OrderRows(Matching(log, from)) <==> r in log && r.ms >= from
  {
    var matched := Matching(log, from);
    OrderRowsOrders(matched);
    MatchingMembers(log, from, r);
    assert r in OrderRows(matched) <==> r in multiset(OrderRows(matched));
  }

  /** The span query answers with a page, whatever duplicates the log holds. */
  lemma SpanQueryIsPage(log: seq<Row>, from: int, cap: nat)
    ensures IsPage(log, from, cap, SpanQuery(log, from, cap))
  {
    var ordered := OrderRows(Matching(log, from));
    var rows := FirstPerKey(ordered);
    var page := SpanQuery(log, from, cap);
    OrderRowsOrders(Matching(log, from));
    FirstPerKeyOrdered(ordered);
    forall i | 0 <= i < |page| ensures page[i] in log && page[i].ms >= from {
      FirstPerKeyMembers(ordered);
      assert page[i] in rows;
      OrderedMembers(log, from, page[i]);
    }
    forall r | r in log && r.ms >= from ensures Accounted(page, cap, r) {
      OrderedMembers(log, from, r);
      FirstPerKeyCovers(ordered, r);
      CutAccounts(rows, cap, r);
    }
  }

  /** Cutting ordered rows at the cap accounts for all that they cover. */
  lemma CutAccounts(rows: seq<Row>, cap: nat, r: Row)
    requires SortedByMs(rows) && Covers(rows, r)
    ensures Accounted(if |rows| <= cap then rows else rows[..cap], cap, r)
  {
    var page := if |rows| <= cap then rows else rows[..cap];
    var i :| 0 <= i < |rows| && rows[i].key == r.key && rows[i].ms <= r.ms;
    if i < |page| {
      assert page[i] == rows[i];
    }
  }

  function Max(a: int, b: int): int {
    if a < b then b else a
  }

  // ---------------------------------------------------------------------
  // fetchTraceDeltas
  // ---------------------------------------------------------------------

  ghost predicate IsDelta(spanLog: seq<Row>, evalLog: seq<Row>, from: Cursor, d: Delta) {
    && IsPage(spanLog, from.spanMs, DELTA_SPAN_CAP, d.spans)
    && IsPage(evalLog, from.evalMs, DELTA_EVAL_CAP, d.evals)
    && d.cursor == Cursor(Advanced(d.spans, from.spanMs), Advanced(d.evals, from.evalMs))
    && d.rootSeen == HasRoot(d.spans)
  }

  predicate HasRoot(rows: seq<Row>) {
    exists i :: 0 <= i < |rows| && rows[i].root
  }

  method ReadSpans(rows: seq<Row>, from: int) returns (spanMs: int, rootSeen: bool)
    requires SortedByMs(rows)
    ensures spanMs == Advanced(rows, from)
    ensures rootSeen == HasRoot(rows)
  {
    spanMs, rootSeen := from, false;
    for i := 0 to |rows|
      invariant spanMs == if i == 0 then from else Max(from, rows[i - 1].ms)
      invariant rootSeen == HasRoot(rows[..i])
    {
      spanMs := Max(spanMs, rows[i].ms);
      rootSeen := rootSeen || rows[i].root;
    }
    assert rows[..|rows|] == rows;
  }

  method ReadEvals(rows: seq<Row>, from: int) returns (evalMs: int)
    requires SortedByMs(rows)
    ensures evalMs == Advanced(rows, from)
  {
    evalMs := from;
    for i := 0 to |rows|
      invariant evalMs == if i == 0 then from else Max(from, rows[i - 1].ms)
    {
      evalMs := Max(evalMs, rows[i].ms);
    }
  }

  /** Assemble one delta from the answers of the two queries. */
  method FetchTraceDeltas(ghost spanLog: seq<Row>, ghost evalLog: seq<Row>, cursor: Cursor,
                          spanRows: seq<Row>, evalRows: seq<Row>)
    returns (d: Delta)
    requires IsPage(spanLog, cursor.spanMs, DELTA_SPAN_CAP, spanRows)
    requires IsPage(evalLog, cursor.evalMs, DELTA_EVAL_CAP, evalRows)
    ensures IsDelta(spanLog, evalLog, cursor, d)
    ensures d.spans == spanRows && d.evals == evalRows
  {
    var spanMs, rootSeen := ReadSpans(spanRows, cursor.spanMs);
    var evalMs := ReadEvals(evalRows, cursor.evalMs);
    d := Delta(spanRows, evalRows, Cursor(spanMs, evalMs), rootSeen);
  }

  /** The cursor is the newest millisecond of the page, or unmoved. */
  lemma AdvancedIsNewest(page: seq<Row>, from: int)
    requires SortedByMs(page)
    ensures Advanced(page, from) >= from
    ensures forall i :: 0 <= i < |page| ==> page[i].ms <= Advanced(page, from)
    ensures Advanced(page, from) == from || (page != [] && page[|page| - 1].ms == Advanced(page, from))
  {
  }

  /** Starting again at the returned cursor skips nothing: a row the page did not
      account for by its key is not below that cursor. */
  lemma NothingBelowIsSkipped(log: seq<Row>, from: int, cap: nat, page: seq<Row>, r: Row)
    requires IsPage(log, from, cap, page)
    requires r in log && from <= r.ms < Advanced(page, from)
    ensures Covers(page, r)
  {
    assert Accounted(page, cap, r);
  }

  // ---------------------------------------------------------------------
  // What fits on a page
  // ---------------------------------------------------------------------

  ghost function KeysOf(page: seq<Row>): set<string> {
    set i | 0 <= i < |page| :: page[i].key
  }

  /** The keys of the rows that arrived from `from` on. */
  ghost function KeysFrom(log: seq<Row>, from: int): set<string> {
    set i | 0 <= i < |log| && log[i].ms >= from :: log[i].key
  }

  /** ... from `from` on and before `to`. */
  ghost function KeysBetween(log: seq<Row>, from: int, to: int): set<string> {
    set i | 0 <= i < |log| && from <= log[i].ms < to :: log[i].key
  }

  lemma {:induction false} KeysCount(page: seq<Row>)
    requires DistinctKeys(page)
    ensures |KeysOf(page)| == |page|
  {
    if page != [] {
      var n := |page| - 1;
      KeysCount(page[..n]);
      assert KeysOf(page) == KeysOf(page[..n]) + {page[n].key};
      assert page[n].key !in KeysOf(page[..n]);
    }
  }

  /** A row the page does not stand for finds it full of other keys, none later. */
  lemma LeftOutOfFullPage(log: seq<Row>, from: int, cap: nat, page: seq<Row>, r: Row, keys: set<string>)
    requires IsPage(log, from, cap, page) && r in log && r.ms >= from && !Covers(page, r) && r.key in keys
    requires forall i :: 0 <= i < |page| && page[i].ms <= r.ms ==> page[i].key in keys
    ensures |keys| > cap
  {
    assert Accounted(page, cap, r);
    KeysCount(page);
    assert r.key !in KeysOf(page);
    SubsetFits(KeysOf(page) + {r.key}, keys);
  }

  lemma PageKeysFit(page: seq<Row>, keys: set<string>)
    requires DistinctKeys(page) && keys <= KeysOf(page)
    ensures |keys| <= |page|
  {
    KeysCount(page);
    SubsetFits(keys, KeysOf(page));
  }

  lemma LogRowOf(log: seq<Row>, from: int, cap: nat, page: seq<Row>, i: nat) returns (k: nat)
    requires IsPage(log, from, cap, page) && i < |page|
    ensures k < |log| && log[k] == page[i] && log[k].ms >= from
  {
    assert page[i] in log;
    k :| 0 <= k < |log| && log[k] == page[i];
  }

  /** The page stands for every row between `from` and `to`. */
  ghost predicate CoversBetween(log: seq<Row>, page: seq<Row>, from: int, to: int) {
    forall k :: 0 <= k < |log| && from <= log[k].ms < to ==> Covers(page, log[k])
  }

  /** A page stands for everything below `to` exactly when that is no more keys than
      the cap. */
  lemma PageCoversIff(log: seq<Row>, from: int, cap: nat, page: seq<Row>, to: int)
    requires IsPage(log, from, cap, page)
    ensures CoversBetween(log, page, from, to) <==> |KeysBetween(log, from, to)| <= cap
  {
    var keys := KeysBetween(log, from, to);
    if CoversBetween(log, page, from, to) {
      PageKeysFit(page, keys);
    } else {
      var k :| 0 <= k < |log| && from <= log[k].ms < to && !Covers(page, log[k]);
      forall i | 0 <= i < |page| && page[i].ms <= log[k].ms ensures page[i].key in keys {
        var j := LogRowOf(log, from, cap, page, i);
      }
      LeftOutOfFullPage(log, from, cap, page, log[k], keys);
    }
  }

  /** A page stands for everything when that is no more keys than the cap. */
  lemma PageCoversAll(log: seq<Row>, from: int, cap: nat, page: seq<Row>, k: nat)
    requires IsPage(log, from, cap, page) && |KeysFrom(log, from)| <= cap && k < |log| && log[k].ms >= from
    ensures Covers(page, log[k])
  {
    if !Covers(page, log[k]) {
      forall i | 0 <= i < |page| && page[i].ms <= log[k].ms ensures page[i].key in KeysFrom(log, from) {
        var j := LogRowOf(log, from, cap, page, i);
      }
      LeftOutOfFullPage(log, from, cap, page, log[k], KeysFrom(log, from));
    }
  }

  // ---------------------------------------------------------------------
  // Polling a fixed log to its end
  // ---------------------------------------------------------------------

  ghost function KeysIn(log: seq<Row>, ms: int): set<string> {
    set i | 0 <= i < |log| && log[i].ms == ms :: log[i].key
  }

  ghost function RowsAbove(log: seq<Row>, ms: int): set<Row> {
    set r | r in log && r.ms > ms
  }

  /** No millisecond at or after `from` holds as many keys as a page. */
  ghost predicate Sparse(log: seq<Row>, from: int, cap: nat) {
    forall ms :: ms >= from ==> |KeysIn(log, ms)| < cap
  }

  /** A page whose rows are all of one millisecond has no more rows than that has keys. */
  lemma OneMillisecond(log: seq<Row>, from: int, cap: nat, page: seq<Row>, ms: int)
    requires IsPage(log, from, cap, page) && forall i :: 0 <= i < |page| ==> page[i].ms == ms
    ensures |page| <= |KeysIn(log, ms)| && KeysOf(page) <= KeysIn(log, ms)
  {
    forall i | 0 <= i < |page| ensures page[i].key in KeysIn(log, ms) {
      var j := LogRowOf(log, from, cap, page, i);
    }
    KeysCount(page);
    SubsetFits(KeysOf(page), KeysIn(log, ms));
  }

  /** A page that ends above `from` stands for the whole millisecond `from`, and more. */
  lemma FullMillisecondIsRead(log: seq<Row>, from: int, cap: nat, page: seq<Row>)
    requires IsPage(log, from, cap, page) && Advanced(page, from) > from
    ensures |KeysIn(log, from)| < |page|
  {
    var shorter := page[..|page| - 1];
    forall k | 0 <= k < |log| && log[k].ms == from ensures log[k].key in KeysOf(shorter) {
      ReadBeforeLast(log, from, cap, page, k);
    }
    PageKeysFit(shorter, KeysIn(log, from));
  }

  lemma ReadBeforeLast(log: seq<Row>, from: int, cap: nat, page: seq<Row>, k: nat)
    requires IsPage(log, from, cap, page) && Advanced(page, from) > from
    requires k < |log| && log[k].ms == from
    ensures log[k].key in KeysOf(page[..|page| - 1])
  {
    assert Covers(page, log[k]) by { NothingBelowIsSkipped(log, from, cap, page, log[k]); }
    EarlierKey(page, log[k]);
  }

  lemma EarlierKey(page: seq<Row>, r: Row)
    requires Covers(page, r) && page[|page| - 1].ms > r.ms
    ensures r.key in KeysOf(page[..|page| - 1])
  {
    var i :| 0 <= i < |page| && page[i].key == r.key && page[i].ms <= r.ms;
    assert page[..|page| - 1][i].key == r.key;
  }

  /** With a later span waiting, one that has no row at the cursor's millisecond, the
      cursor stands still exactly when that millisecond holds `cap` keys or more: the
      documented "simply resumes on the next tick" needs the other case. */
  lemma StalledIff(log: seq<Row>, from: int, cap: nat, page: seq<Row>, late: Row)
    requires IsPage(log, from, cap, page)
    requires late in log && late.ms > from && late.key !in KeysIn(log, from)
    ensures Advanced(page, from) == from <==> |KeysIn(log, from)| >= cap
  {
    AdvancedIsNewest(page, from);
    if Advanced(page, from) > from {
      FullMillisecondIsRead(log, from, cap, page);
    } else {
      OneMillisecond(log, from, cap, page, from);
      assert late.key !in KeysOf(page);
      assert Accounted(page, cap, late);
    }
  }

  /** A full page moves the cursor when its first millisecond is not full. */
  lemma FullPageAdvances(log: seq<Row>, from: int, cap: nat, page: seq<Row>)
    requires IsPage(log, from, cap, page) && |page| == cap
    requires |KeysIn(log, from)| < cap
    ensures Advanced(page, from) > from
  {
    AdvancedIsNewest(page, from);
    if Advanced(page, from) <= from {
      OneMillisecond(log, from, cap, page, from);
    }
  }

  lemma SameKeySameRow(log: seq<Row>, q: Row, r: Row)
    requires DistinctKeys(log) && q in log && r in log && q.key == r.key
    ensures q == r
  {
    var i :| 0 <= i < |log| && log[i] == q;
    var j :| 0 <= j < |log| && log[j] == r;
    assert !(i < j) && !(j < i);
  }

  /** A query that answers with some page from every cursor. */
  ghost predicate Answers(log: seq<Row>, cap: nat, query: int -> seq<Row>) {
    forall from :: IsPage(log, from, cap, query(from))
  }

  /** Poll from the returned cursor until a page is not full. */
  ghost function PollToEnd(log: seq<Row>, from: int, cap: nat, query: int -> seq<Row>): seq<seq<Row>>
    requires Answers(log, cap, query) && Sparse(log, from, cap)
    decreases RowsAbove(log, from - 1)
  {
    var page := query(from);
    if |page| < cap then [page]
    else
      NextPollIsCloser(log, from, cap, page);
      [page] + PollToEnd(log, Advanced(page, from), cap, query)
  }

  lemma NextPollIsCloser(log: seq<Row>, from: int, cap: nat, page: seq<Row>)
    requires IsPage(log, from, cap, page) && |page| == cap && Sparse(log, from, cap)
    ensures Advanced(page, from) > from
    ensures RowsAbove(log, Advanced(page, from) - 1) < RowsAbove(log, from - 1)
  {
    assert |KeysIn(log, from)| < cap;
    FullPageAdvances(log, from, cap, page);
    AdvancedIsNewest(page, from);
    var first := page[0];
    assert first in RowsAbove(log, from - 1);
    if first.ms >= Advanced(page, from) {
      assert |KeysIn(log, first.ms)| < cap;
      OneMillisecond(log, from, cap, page, first.ms);
    }
    assert first !in RowsAbove(log, Advanced(page, from) - 1);
  }

  ghost predicate InSomePage(pages: seq<seq<Row>>, r: Row) {
    exists i :: 0 <= i < |pages| && r in pages[i]
  }

  ghost predicate CoveredInSome(pages: seq<seq<Row>>, r: Row) {
    exists i :: 0 <= i < |pages| && Covers(pages[i], r)
  }

  lemma CoveredLater(page: seq<Row>, rest: seq<seq<Row>>, r: Row)
    requires Covers(page, r) || CoveredInSome(rest, r)
    ensures CoveredInSome([page] + rest, r)
  {
    var pages := [page] + rest;
    if Covers(page, r) {
      assert Covers(pages[0], r);
    } else {
      var i :| 0 <= i < |rest| && Covers(rest[i], r);
      assert Covers(pages[i + 1], r);
    }
  }

  /** The pages of a full poll together stand for every row at or after the starting
      cursor, retries included ... */
  lemma {:induction false} PagesCoverTheLog(log: seq<Row>, from: int, cap: nat, query: int -> seq<Row>, r: Row)
    requires Answers(log, cap, query) && Sparse(log, from, cap) && r in log && r.ms >= from
    ensures CoveredInSome(PollToEnd(log, from, cap, query), r)
    decreases RowsAbove(log, from - 1)
  {
    var page := query(from);
    assert IsPage(log, from, cap, page);
    if |page| < cap {
      assert Accounted(page, cap, r);
      CoveredLater(page, [], r);
      assert [page] + [] == [page];
    } else {
      var next := Advanced(page, from);
      NextPollIsCloser(log, from, cap, page);
      if r.ms < next {
        NothingBelowIsSkipped(log, from, cap, page, r);
      } else {
        PagesCoverTheLog(log, next, cap, query, r);
      }
      CoveredLater(page, PollToEnd(log, next, cap, query), r);
    }
  }

  /** ... and hold nothing else. */
  lemma {:induction false} PagesAreFromTheLog(log: seq<Row>, from: int, cap: nat, query: int -> seq<Row>, i: nat, r: Row)
    requires Answers(log, cap, query) && Sparse(log, from, cap)
    requires i < |PollToEnd(log, from, cap, query)| && r in PollToEnd(log, from, cap, query)[i]
    ensures r in log && r.ms >= from
    decreases RowsAbove(log, from - 1)
  {
    var page := query(from);
    assert IsPage(log, from, cap, page);
    if |page| < cap || i == 0 {
      PageIsFromTheLog(log, from, cap, page, r);
    } else {
      var next := Advanced(page, from);
      NextPollIsCloser(log, from, cap, page);
      AdvancedIsLater(page, from);
      LaterPage(page, PollToEnd(log, next, cap, query), i);
      PagesAreFromTheLog(log, next, cap, query, i - 1, r);
    }
  }

  lemma AdvancedIsLater(page: seq<Row>, from: int)
    ensures Advanced(page, from) >= from
  {
  }

  lemma LaterPage(page: seq<Row>, rest: seq<seq<Row>>, i: nat)
    requires 0 < i < |[page] + rest|
    ensures ([page] + rest)[i] == rest[i - 1]
  {
  }

  lemma PageIsFromTheLog(log: seq<Row>, from: int, cap: nat, page: seq<Row>, r: Row)
    requires IsPage(log, from, cap, page) && r in page
    ensures r in log && r.ms >= from
  {
    var k :| 0 <= k < |page| && page[k] == r;
  }

  /** With one row a key, the pages of a full poll together hold exactly the rows
      at or after the starting cursor. */
  lemma PagesHoldTheLog(log: seq<Row>, from: int, cap: nat, query: int -> seq<Row>, r: Row)
    requires Answers(log, cap, query) && Sparse(log, from, cap) && DistinctKeys(log)
    ensures InSomePage(PollToEnd(log, from, cap, query), r) <==> r in log && r.ms >= from
  {
    var pages := PollToEnd(log, from, cap, query);
    if InSomePage(pages, r) {
      var i :| 0 <= i < |pages| && r in pages[i];
      PagesAreFromTheLog(log, from, cap, query, i, r);
    }
    if r in log && r.ms >= from {
      PagesCoverTheLog(log, from, cap, query, r);
      var i :| 0 <= i < |pages| && Covers(pages[i], r);
      var j :| 0 <= j < |pages[i]| && pages[i][j].key == r.key && pages[i][j].ms <= r.ms;
      assert pages[i][j] in pages[i];
      PagesAreFromTheLog(log, from, cap, query, i, pages[i][j]);
      SameKeySameRow(log, pages[i][j], r);
    }
  }
}
