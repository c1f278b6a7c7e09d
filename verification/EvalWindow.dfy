/** The scan window of the eval runner: a stored watermark, an overlap, and a batch
    limit. Span starts are nanoseconds; the watermark is whole milliseconds. */
module EvalWindow {
  import opened RoomCounts
  import opened Wrappers

  const NS_PER_MS: int := 1_000_000

  datatype SpanRow = SpanRow(spanId: string, startNs: int, operation: string, service: string,
                             model: string, promptVersion: string)

  /** An empty list restricts nothing. */
  datatype Selector = Selector(services: set<string>, models: set<string>, operations: set<string>)

  datatype Config = Config(lookbackMs: int, overlapMs: int, batchLimit: nat, selfService: string)

  predicate Matches(sel: Selector, self: string, r: SpanRow) {
    && r.operation != "" && r.service != self
    && (sel.services == {} || r.service in sel.services)
    && (sel.models == {} || r.model in sel.models)
    && (sel.operations == {} || r.operation in sel.operations)
  }

  /** Exclusive below, inclusive above. */
  predicate InWindow(r: SpanRow, since: int, until: int) {
    since * NS_PER_MS < r.startNs <= until * NS_PER_MS
  }

  /** From the watermark less the overlap, or a lookback on the first run. */
  function Since(cfg: Config, watermark: Option<int>, now: int): int {
    if watermark.Some? then watermark.value - cfg.overlapMs else now - cfg.lookbackMs
  }

  /** Everything the runner relies on in an answer of the candidate query: matching rows
      of the window, oldest first, at most `limit`, and a row is left out only when the
      batch is full with rows no younger. `visible` lists the stored rows, physical
      copies included: the query neither merges nor counts them once. */
  ghost predicate IsScan(visible: seq<SpanRow>, sel: Selector, self: string, since: int, until: int, limit: nat,
                         rows: seq<SpanRow>) {
    && |rows| <= limit && multiset(rows) <= multiset(visible)
    && (forall i :: 0 <= i < |rows| ==> Matches(sel, self, rows[i]) && InWindow(rows[i], since, until))
    && (forall i, j :: 0 <= i < j < |rows| ==> rows[i].startNs <= rows[j].startNs)
    && (forall r :: Matches(sel, self, r) && InWindow(r, since, until) && multiset(rows)[r] < multiset(visible)[r] ==>
          |rows| == limit && forall i :: 0 <= i < |rows| ==> rows[i].startNs <= r.startNs)
  }

  /** A scan that is not full returns exactly the stored rows that have an operation, are
      not of the judge's own service, are selected by service, model and operation, and
      start after the window opens and no later than now: every copy of them. */
  lemma ScanIff(cfg: Config, sel: Selector, since: int, s: Scan, r: SpanRow)
    requires IsScan(s.visible, sel, cfg.selfService, since, s.now, cfg.batchLimit, s.rows)
    requires |s.rows| < cfg.batchLimit
    ensures multiset(s.rows)[r] ==
              if r.operation != "" && r.service != cfg.selfService &&
                 (sel.services == {} || r.service in sel.services) && (sel.models == {} || r.model in sel.models) &&
                 (sel.operations == {} || r.operation in sel.operations) &&
                 since * 1_000_000 < r.startNs <= s.now * 1_000_000
              then multiset(s.visible)[r] else 0
  {
    if r in multiset(s.rows) {
      assert r in s.rows;
    }
  }

  function StartMs(r: SpanRow): int {
    r.startNs / NS_PER_MS
  }

  /** The newest scanned start, and never before the epoch. */
  function MaxStart(rows: seq<SpanRow>): int {
    if rows == [] then 0
    else
      var rest := MaxStart(rows[..|rows| - 1]);
      if StartMs(rows[|rows| - 1]) > rest then StartMs(rows[|rows| - 1]) else rest
  }

  lemma {:induction false} MaxStartIsMax(rows: seq<SpanRow>)
    ensures MaxStart(rows) >= 0
    ensures forall i :: 0 <= i < |rows| ==> StartMs(rows[i]) <= MaxStart(rows)
    ensures MaxStart(rows) == 0 || exists i :: 0 <= i < |rows| && StartMs(rows[i]) == MaxStart(rows)
  {
    if rows != [] {
      MaxStartIsMax(rows[..|rows| - 1]);
      var rest := MaxStart(rows[..|rows| - 1]);
      if MaxStart(rows) == rest && rest != 0 {
        var i :| 0 <= i < |rows| - 1 && StartMs(rows[..|rows| - 1][i]) == rest;
        assert StartMs(rows[i]) == rest;
      }
    }
  }

  /** One run as far as its window goes: when it ran, what was visible, what its scan
      returned, and whether it failed before it stored the watermark. */
  datatype Scan = Scan(now: int, visible: seq<SpanRow>, rows: seq<SpanRow>, failed: bool)

  function NextWatermark(watermark: Option<int>, s: Scan): Option<int> {
    if s.failed || s.rows == [] then watermark else Some(MaxStart(s.rows))
  }

  ghost predicate GoodScan(cfg: Config, sel: Selector, watermark: Option<int>, s: Scan) {
    IsScan(s.visible, sel, cfg.selfService, Since(cfg, watermark, s.now), s.now, cfg.batchLimit, s.rows)
  }

  /** A batch-limited scan sets the watermark no later than the start of any
      matching span of its window that it left out. */
  lemma WatermarkNotPastSkipped(cfg: Config, sel: Selector, watermark: Option<int>, s: Scan, x: SpanRow)
    requires GoodScan(cfg, sel, watermark, s) && x.startNs >= 0
    requires x in s.visible && Matches(sel, cfg.selfService, x) && InWindow(x, Since(cfg, watermark, s.now), s.now)
    requires x !in s.rows
    ensures |s.rows| == cfg.batchLimit && MaxStart(s.rows) <= StartMs(x)
  {
    MaxStartIsMax(s.rows);
    assert multiset(s.rows)[x] < multiset(s.visible)[x];
    assert forall i :: 0 <= i < |s.rows| ==> s.rows[i].startNs <= x.startNs;
    if MaxStart(s.rows) != 0 {
      var i :| 0 <= i < |s.rows| && StartMs(s.rows[i]) == MaxStart(s.rows);
      assert s.rows[i].startNs <= x.startNs;
    }
  }

  /** Hence, with a positive overlap, that span is still in the window of the next
      run, failed or not, once a watermark is stored. */
  lemma SkippedStaysInWindow(cfg: Config, sel: Selector, watermark: Option<int>, s: Scan, x: SpanRow, later: int)
    requires GoodScan(cfg, sel, watermark, s) && cfg.overlapMs > 0 && x.startNs >= 0 && s.now <= later
    requires x in s.visible && Matches(sel, cfg.selfService, x) && InWindow(x, Since(cfg, watermark, s.now), s.now)
    requires x !in s.rows && NextWatermark(watermark, s).Some?
    ensures InWindow(x, Since(cfg, NextWatermark(watermark, s), later), later)
  {
    WatermarkNotPastSkipped(cfg, sel, watermark, s, x);
  }

  /** A sequence of runs under a clock that does not run back. */
  ghost predicate GoodScans(cfg: Config, sel: Selector, watermark: Option<int>, ss: seq<Scan>)
    decreases |ss|
  {
    ss == [] ||
    (GoodScan(cfg, sel, watermark, ss[0]) && (|ss| > 1 ==> ss[0].now <= ss[1].now)
      && GoodScans(cfg, sel, NextWatermark(watermark, ss[0]), ss[1..]))
  }

  function WatermarkAfter(watermark: Option<int>, ss: seq<Scan>): Option<int>
    decreases |ss|
  {
    if ss == [] then watermark else WatermarkAfter(NextWatermark(watermark, ss[0]), ss[1..])
  }

  /** A run that kept its results had the span in its batch. */
  ghost predicate Scanned(ss: seq<Scan>, x: SpanRow) {
    exists i :: 0 <= i < |ss| && x in ss[i].rows && !ss[i].failed
  }

  /** A span that is in the window of a run, left out or not kept by it, is in the window
      of the next. */
  lemma NotKeptStaysInWindow(cfg: Config, sel: Selector, watermark: Option<int>, s: Scan, x: SpanRow, later: int)
    requires GoodScan(cfg, sel, watermark, s) && cfg.overlapMs > 0 && cfg.batchLimit > 0 && x.startNs >= 0
    requires s.now <= later && (watermark.Some? || !s.failed)
    requires x in s.visible && Matches(sel, cfg.selfService, x) && InWindow(x, Since(cfg, watermark, s.now), s.now)
    requires x !in s.rows || s.failed
    ensures NextWatermark(watermark, s).Some? && InWindow(x, Since(cfg, NextWatermark(watermark, s), later), later)
  {
    if !s.failed {
      WatermarkNotPastSkipped(cfg, sel, watermark, s, x);
      SkippedStaysInWindow(cfg, sel, watermark, s, x, later);
    }
  }

  /** No visible span is lost: a matching span that is in the window of one run, and
      stays visible, is in the batch of that or a later run that does not fail, or is
      still in the window of the run that comes next. On the very first run there is no
      watermark to fall back to, so that one must not fail. */
  lemma {:induction false} VisibleSpanIsNotLost(cfg: Config, sel: Selector, watermark: Option<int>, ss: seq<Scan>,
                                                x: SpanRow, later: int)
    requires ss != [] && GoodScans(cfg, sel, watermark, ss) && cfg.overlapMs > 0 && x.startNs >= 0
    requires cfg.batchLimit > 0 && ss[|ss| - 1].now <= later
    requires Matches(sel, cfg.selfService, x) && forall i :: 0 <= i < |ss| ==> x in ss[i].visible
    requires InWindow(x, Since(cfg, watermark, ss[0].now), ss[0].now)
    requires watermark.Some? || !ss[0].failed
    ensures Scanned(ss, x) || InWindow(x, Since(cfg, WatermarkAfter(watermark, ss), later), later)
    decreases |ss|
  {
    var s, rest := ss[0], ss[1..];
    if x !in s.rows || s.failed {
      NotKeptStaysInWindow(cfg, sel, watermark, s, x, if rest == [] then later else rest[0].now);
      if rest != [] {
        forall i | 0 <= i < |rest| ensures x in rest[i].visible {
          assert rest[i] == ss[i + 1];
        }
        VisibleSpanIsNotLost(cfg, sel, NextWatermark(watermark, s), rest, x, later);
        if Scanned(rest, x) {
          var i :| 0 <= i < |rest| && x in rest[i].rows && !rest[i].failed;
          assert x in ss[i + 1].rows && !ss[i + 1].failed;
        }
      }
    }
  }

  ghost predicate AllFailed(ss: seq<Scan>) {
    forall i :: 0 <= i < |ss| ==> ss[i].failed
  }

  lemma {:induction false} FailedRunsStoreNothing(watermark: Option<int>, ss: seq<Scan>)
    requires AllFailed(ss)
    ensures WatermarkAfter(watermark, ss) == watermark
    decreases |ss|
  {
    if ss != [] {
      FailedRunsStoreNothing(NextWatermark(watermark, ss[0]), ss[1..]);
    }
  }

  lemma {:induction false} GoodScansSplit(cfg: Config, sel: Selector, watermark: Option<int>, ss: seq<Scan>, k: nat)
    requires GoodScans(cfg, sel, watermark, ss) && k < |ss|
    ensures ss[0].now <= ss[k].now && GoodScans(cfg, sel, WatermarkAfter(watermark, ss[..k]), ss[k..])
    decreases k
  {
    if k > 0 {
      GoodScansSplit(cfg, sel, NextWatermark(watermark, ss[0]), ss[1..], k - 1);
      assert ss[..k][1..] == ss[1..][..k - 1];
    }
  }

  /** While the first runs of a definition fail, a span that one of them had in its window
      is in that of a later run exactly when it starts within the lookback of that later
      run: the promise is lost for the spans that age out in between. */
  lemma FirstFailuresKeepIff(cfg: Config, sel: Selector, ss: seq<Scan>, x: SpanRow, later: int)
    requires ss != [] && GoodScans(cfg, sel, None, ss) && AllFailed(ss) && ss[|ss| - 1].now <= later
    requires InWindow(x, Since(cfg, None, ss[0].now), ss[0].now)
    ensures InWindow(x, Since(cfg, WatermarkAfter(None, ss), later), later) <==>
              x.startNs > (later - cfg.lookbackMs) * NS_PER_MS
  {
    FailedRunsStoreNothing(None, ss);
    GoodScansSplit(cfg, sel, None, ss, |ss| - 1);
  }

  /** From the first run on that does not fail, such a span is safe like any other. */
  lemma SurvivesFirstFailures(cfg: Config, sel: Selector, ss: seq<Scan>, k: nat, x: SpanRow, later: int)
    requires k < |ss| && GoodScans(cfg, sel, None, ss) && AllFailed(ss[..k]) && !ss[k].failed
    requires cfg.overlapMs > 0 && cfg.batchLimit > 0 && x.startNs >= 0 && ss[|ss| - 1].now <= later
    requires Matches(sel, cfg.selfService, x) && forall i :: 0 <= i < |ss| ==> x in ss[i].visible
    requires InWindow(x, Since(cfg, None, ss[0].now), ss[0].now)
    requires x.startNs > (ss[k].now - cfg.lookbackMs) * NS_PER_MS
    ensures Scanned(ss, x) || InWindow(x, Since(cfg, WatermarkAfter(None, ss[k..]), later), later)
  {
    FailedRunsStoreNothing(None, ss[..k]);
    GoodScansSplit(cfg, sel, None, ss, k);
    VisibleSpanIsNotLost(cfg, sel, None, ss[k..], x, later);
    if Scanned(ss[k..], x) {
      var i :| 0 <= i < |ss[k..]| && x in ss[k..][i].rows && !ss[k..][i].failed;
      assert x in ss[k + i].rows && !ss[k + i].failed;
    }
  }

  // ---------------------------------------------------------------------
  // When a run makes progress
  // ---------------------------------------------------------------------

  predicate IsEarly(sel: Selector, cfg: Config, w: int, now: int, r: SpanRow) {
    Matches(sel, cfg.selfService, r) && InWindow(r, w - cfg.overlapMs, now) && StartMs(r) <= w
  }

  /** The stored rows of the window, copies included, that match and start no later than
      the watermark. */
  function Early(visible: seq<SpanRow>, sel: Selector, cfg: Config, w: int, now: int): seq<SpanRow> {
    Those(visible, r => IsEarly(sel, cfg, w, now, r))
  }

  /** With matching spans waiting above the watermark, a successful run moves the
      watermark up exactly when fewer than `batchLimit` stored rows of its window match
      and start at or before the watermark. Otherwise it rescans the overlap and stores
      a watermark no later than the one it had. */
  lemma WatermarkAdvancesIff(cfg: Config, sel: Selector, w: int, s: Scan, x: SpanRow)
    requires GoodScan(cfg, sel, Some(w), s) && !s.failed && cfg.batchLimit > 0 && w >= 0
    requires x in s.visible && Matches(sel, cfg.selfService, x) && InWindow(x, w - cfg.overlapMs, s.now)
    requires StartMs(x) > w
    ensures NextWatermark(Some(w), s).Some?
    ensures NextWatermark(Some(w), s).value > w <==> |Early(s.visible, sel, cfg, w, s.now)| < cfg.batchLimit
  {
    MaxStartIsMax(s.rows);
    if x !in s.rows {
      WatermarkNotPastSkipped(cfg, sel, Some(w), s, x);
    }
    if MaxStart(s.rows) > w {
      LateRowScanned(cfg, sel, w, s);
    } else {
      PartIsCounted(s.rows, s.visible, r => IsEarly(sel, cfg, w, s.now, r));
    }
  }

  /** A scan that reaches beyond the watermark has every early row, copies included, and
      one more. */
  lemma LateRowScanned(cfg: Config, sel: Selector, w: int, s: Scan)
    requires GoodScan(cfg, sel, Some(w), s) && w >= 0 && MaxStart(s.rows) > w
    ensures |Early(s.visible, sel, cfg, w, s.now)| < |s.rows|
  {
    MaxStartIsMax(s.rows);
    var k :| 0 <= k < |s.rows| && StartMs(s.rows[k]) == MaxStart(s.rows);
    forall r | IsEarly(sel, cfg, w, s.now, r) ensures multiset(s.visible)[r] <= multiset(s.rows)[r] {
      assert r.startNs < s.rows[k].startNs;
    }
    WholeIsFewer(s.visible, s.rows, r => IsEarly(sel, cfg, w, s.now, r), s.rows[k]);
  }

  // ---------------------------------------------------------------------
  // Runs that never make progress
  // ---------------------------------------------------------------------

  /** Rows once stored stay stored, every copy of them; others may arrive. */
  ghost predicate StoredStay(ss: seq<Scan>) {
    forall i :: 0 <= i < |ss| - 1 ==> multiset(ss[i].visible) <= multiset(ss[i + 1].visible)
  }

  /** No run reads a span above `w`. */
  ghost predicate NeverAbove(ss: seq<Scan>, w: int) {
    forall i :: 0 <= i < |ss| ==> MaxStart(ss[i].rows) <= w
  }

  lemma EarlyPart(visible: seq<SpanRow>, sel: Selector, cfg: Config, w: int, now: int)
    ensures multiset(Early(visible, sel, cfg, w, now)) <= multiset(visible)
    ensures forall r :: r in Early(visible, sel, cfg, w, now) ==> IsEarly(sel, cfg, w, now, r)
  {
    var early := Early(visible, sel, cfg, w, now);
    forall r ensures multiset(early)[r] == if IsEarly(sel, cfg, w, now, r) then multiset(visible)[r] else 0 {
      ThoseCounts(visible, x => IsEarly(sel, cfg, w, now, x), r);
    }
    forall r | r in early ensures IsEarly(sel, cfg, w, now, r) {
      assert r in multiset(early);
    }
  }

  /** Rows that are early at a watermark are still so, and as many, in a later store. */
  lemma StillEarly(part: seq<SpanRow>, visible: seq<SpanRow>, later: seq<SpanRow>, sel: Selector, cfg: Config, w: int,
                   now: int, then': int)
    requires multiset(part) <= multiset(visible) <= multiset(later) && now <= then'
    requires forall r :: r in part ==> IsEarly(sel, cfg, w, now, r)
    ensures |part| <= |Early(later, sel, cfg, w, then')|
  {
    forall i | 0 <= i < |part| ensures IsEarly(sel, cfg, w, then', part[i]) {
      assert part[i] in part;
    }
    PartIsCounted(part, later, r => IsEarly(sel, cfg, w, then', r));
  }

  /** A scan that finds a full batch at or below the watermark reads such a batch. */
  lemma FullBatchBelow(cfg: Config, sel: Selector, w: int, s: Scan)
    requires GoodScan(cfg, sel, Some(w), s) && w >= 0 && |Early(s.visible, sel, cfg, w, s.now)| >= cfg.batchLimit
    ensures |s.rows| == cfg.batchLimit && 0 <= MaxStart(s.rows) <= w
    ensures forall r :: r in s.rows ==> IsEarly(sel, cfg, MaxStart(s.rows), s.now, r)
  {
    MaxStartIsMax(s.rows);
    if MaxStart(s.rows) > w {
      LateRowScanned(cfg, sel, w, s);
    }
    if |s.rows| < cfg.batchLimit {
      ShortBatchIsAll(cfg, sel, w, s);
    }
  }

  /** A batch that is not full has every early row. */
  lemma ShortBatchIsAll(cfg: Config, sel: Selector, w: int, s: Scan)
    requires GoodScan(cfg, sel, Some(w), s) && |s.rows| < cfg.batchLimit
    ensures |Early(s.visible, sel, cfg, w, s.now)| <= |s.rows|
  {
    var early := Early(s.visible, sel, cfg, w, s.now);
    forall r ensures multiset(early)[r] <= multiset(s.rows)[r] {
      ThoseCounts(s.visible, x => IsEarly(sel, cfg, w, s.now, x), r);
    }
    PartFits(multiset(early), multiset(s.rows));
    assert |multiset(early)| == |early| && |multiset(s.rows)| == |s.rows|;
  }

  /** After such a scan, kept or not, the next finds a full batch at or below its own
      watermark again. */
  lemma StallGoesOn(cfg: Config, sel: Selector, w: int, s: Scan, next: Scan) returns (v: int)
    requires GoodScan(cfg, sel, Some(w), s) && cfg.batchLimit > 0 && w >= 0
    requires |Early(s.visible, sel, cfg, w, s.now)| >= cfg.batchLimit
    requires s.now <= next.now && multiset(s.visible) <= multiset(next.visible)
    ensures NextWatermark(Some(w), s) == Some(v) && 0 <= v <= w
    ensures |Early(next.visible, sel, cfg, v, next.now)| >= cfg.batchLimit
  {
    FullBatchBelow(cfg, sel, w, s);
    if s.failed {
      v := w;
      EarlyPart(s.visible, sel, cfg, w, s.now);
      StillEarly(Early(s.visible, sel, cfg, w, s.now), s.visible, next.visible, sel, cfg, w, s.now, next.now);
    } else {
      v := MaxStart(s.rows);
      StillEarly(s.rows, s.visible, next.visible, sel, cfg, v, s.now, next.now);
    }
  }

  lemma WatermarkBelow(cfg: Config, sel: Selector, w: int, s: Scan)
    requires GoodScan(cfg, sel, Some(w), s) && w >= 0 && |Early(s.visible, sel, cfg, w, s.now)| >= cfg.batchLimit
    ensures NextWatermark(Some(w), s).Some? && 0 <= NextWatermark(Some(w), s).value <= w
  {
    FullBatchBelow(cfg, sel, w, s);
  }

  /** Once the overlap holds a full batch of rows at or below the watermark, no later run
      ever reads a span above it, and the watermark never exceeds it: in every sequence of
      runs, failing or not, whatever else arrives. */
  lemma {:induction false} StallIsForever(cfg: Config, sel: Selector, w: int, ss: seq<Scan>)
    requires GoodScans(cfg, sel, Some(w), ss) && StoredStay(ss) && cfg.batchLimit > 0 && w >= 0
    requires ss != [] ==> |Early(ss[0].visible, sel, cfg, w, ss[0].now)| >= cfg.batchLimit
    ensures NeverAbove(ss, w)
    ensures WatermarkAfter(Some(w), ss).Some? && 0 <= WatermarkAfter(Some(w), ss).value <= w
    decreases |ss|
  {
    if ss != [] {
      var s, rest := ss[0], ss[1..];
      FullBatchBelow(cfg, sel, w, s);
      WatermarkBelow(cfg, sel, w, s);
      var v := NextWatermark(Some(w), s).value;
      if rest != [] {
        assert rest[0] == ss[1];
        v := StallGoesOn(cfg, sel, w, s, ss[1]);
      }
      forall i | 0 <= i < |rest| - 1 ensures multiset(rest[i].visible) <= multiset(rest[i + 1].visible) {
        assert rest[i] == ss[i + 1] && rest[i + 1] == ss[i + 2];
      }
      StallIsForever(cfg, sel, v, rest);
      forall i | 0 <= i < |ss| ensures MaxStart(ss[i].rows) <= w {
        assert i > 0 ==> rest[i - 1] == ss[i];
      }
    }
  }

  /** A run with matching spans waiting above the watermark advances, or no later run
      ever scans a span above it: which of the two is decided by whether the rows at or
      below the watermark fill a batch. */
  lemma AdvancesOrStalls(cfg: Config, sel: Selector, w: int, ss: seq<Scan>, x: SpanRow)
    requires ss != [] && GoodScans(cfg, sel, Some(w), ss) && StoredStay(ss) && cfg.batchLimit > 0 && w >= 0
    requires !ss[0].failed && x in ss[0].visible && Matches(sel, cfg.selfService, x) && StartMs(x) > w
    requires InWindow(x, w - cfg.overlapMs, ss[0].now)
    ensures NextWatermark(Some(w), ss[0]).Some?
    ensures NextWatermark(Some(w), ss[0]).value > w <==> |Early(ss[0].visible, sel, cfg, w, ss[0].now)| < cfg.batchLimit
    ensures NextWatermark(Some(w), ss[0]).value <= w <==> NeverAbove(ss, w)
    ensures NeverAbove(ss, w) ==> WatermarkAfter(Some(w), ss).Some? && WatermarkAfter(Some(w), ss).value <= w
  {
    WatermarkAdvancesIff(cfg, sel, w, ss[0], x);
    if |Early(ss[0].visible, sel, cfg, w, ss[0].now)| >= cfg.batchLimit {
      StallIsForever(cfg, sel, w, ss);
    } else {
      assert MaxStart(ss[0].rows) > w;
    }
  }

  // An instance: two rows in the overlap and a batch of two.

  const STARVED: Config := Config(1000, 60, 2, "judge")
  const ANY: Selector := Selector({}, {}, {})

  function SpanAt(id: string, ms: int): SpanRow {
    SpanRow(id, ms * NS_PER_MS, "chat", "svc", "m", "")
  }

  /** One row of `a` at 50 ms and one of `b` at 60 ms; whatever else is stored, and may
      arrive, starts later. */
  ghost predicate TwoEarliest(visible: seq<SpanRow>) {
    && multiset(visible)[SpanAt("a", 50)] == 1 && multiset(visible)[SpanAt("b", 60)] == 1
    && forall r :: r in visible ==> r == SpanAt("a", 50) || r == SpanAt("b", 60) || r.startNs > 60 * NS_PER_MS
  }

  lemma RowsOfTheStore(part: seq<SpanRow>, visible: seq<SpanRow>, r: SpanRow)
    requires multiset(part) <= multiset(visible) && multiset(visible)[r] == 1
    ensures !(|part| == 2 && part[0] == r && part[1] == r)
    ensures forall i :: 0 <= i < |part| ==> part[i] in visible
  {
    assert multiset([r, r])[r] == 2;
    if |part| == 2 {
      assert part == [part[0], part[1]];
    }
    forall i | 0 <= i < |part| ensures part[i] in visible {
      assert part[i] in multiset(part);
    }
  }

  /** A row left out finds the batch of two full of rows no younger. */
  lemma LeftOutOfTwo(w: int, s: Scan, r: SpanRow)
    requires GoodScan(STARVED, ANY, Some(w), s) && r in s.visible && r !in s.rows
    requires Matches(ANY, STARVED.selfService, r) && InWindow(r, w - 60, s.now)
    ensures |s.rows| == 2 && s.rows[0].startNs <= r.startNs && s.rows[1].startNs <= r.startNs
  {
    assert multiset(s.rows)[r] < multiset(s.visible)[r];
  }

  lemma TheTwoAreScanned(w: int, s: Scan)
    requires GoodScan(STARVED, ANY, Some(w), s) && 60 <= w <= 65 && s.now >= 100 && TwoEarliest(s.visible)
    ensures SpanAt("a", 50) in s.rows && SpanAt("b", 60) in s.rows
  {
    var a, b := SpanAt("a", 50), SpanAt("b", 60);
    RowsOfTheStore(s.rows, s.visible, a);
    assert a in multiset(s.visible) && b in multiset(s.visible);
    if a !in s.rows {
      LeftOutOfTwo(w, s, a);
    }
    if b !in s.rows {
      LeftOutOfTwo(w, s, b);
    }
  }

  /** With room for two and these two in the overlap, every scan is the two of them. */
  lemma ScanIsTheTwo(w: int, s: Scan)
    requires GoodScan(STARVED, ANY, Some(w), s) && 60 <= w <= 65 && s.now >= 100 && TwoEarliest(s.visible)
    ensures s.rows == [SpanAt("a", 50), SpanAt("b", 60)]
  {
    TheTwoAreScanned(w, s);
    var i :| 0 <= i < |s.rows| && s.rows[i] == SpanAt("a", 50);
    var j :| 0 <= j < |s.rows| && s.rows[j] == SpanAt("b", 60);
    assert i < j;
  }

  ghost predicate FindsTheTwo(s: Scan) {
    s.now >= 100 && TwoEarliest(s.visible)
  }

  ghost predicate IsTheTwo(s: Scan) {
    s.rows == [SpanAt("a", 50), SpanAt("b", 60)]
  }

  /** A capped scan inside the overlap moves the watermark back from 65 to 60, and from
      then on it never moves again: in every sequence of runs, failing or not, whatever
      arrives later, no run ever has another span in its batch. */
  lemma {:induction false} OverlapCanStarve(w: int, ss: seq<Scan>)
    requires 60 <= w <= 65 && GoodScans(STARVED, ANY, Some(w), ss)
    requires forall i :: 0 <= i < |ss| ==> FindsTheTwo(ss[i])
    ensures forall i :: 0 <= i < |ss| ==> IsTheTwo(ss[i])
    ensures WatermarkAfter(Some(w), ss) == Some(w) || WatermarkAfter(Some(w), ss) == Some(60)
    decreases |ss|
  {
    if ss != [] {
      assert FindsTheTwo(ss[0]);
      ScanIsTheTwo(w, ss[0]);
      TheTwoEndAt60();
      OverlapCanStarve(if ss[0].failed then w else 60, ss[1..]);
      forall i | 0 <= i < |ss| ensures IsTheTwo(ss[i]) {
        assert i > 0 ==> IsTheTwo(ss[1..][i - 1]);
      }
    }
  }

  lemma TheTwoEndAt60()
    ensures MaxStart([SpanAt("a", 50), SpanAt("b", 60)]) == 60
  {
    var a, b := SpanAt("a", 50), SpanAt("b", 60);
    assert [a, b][..1] == [a] && [a][..0] == [];
    assert MaxStart([a]) == 50;
  }

  lemma ThreeSpans()
    ensures SpanAt("a", 50) != SpanAt("b", 60) && SpanAt("b", 60) != SpanAt("c", 70) && SpanAt("a", 50) != SpanAt("c", 70)
  {
    assert SpanAt("a", 50).startNs < SpanAt("b", 60).startNs < SpanAt("c", 70).startNs;
  }

  lemma TwoOfThreeIsScan(w: int, now: int)
    requires now >= 100 && 60 <= w <= 65
    ensures var visible := [SpanAt("a", 50), SpanAt("b", 60), SpanAt("c", 70)];
            TwoEarliest(visible) && GoodScan(STARVED, ANY, Some(w), Scan(now, visible, visible[..2], false))
  {
    ThreeSpans();
    var visible := [SpanAt("a", 50), SpanAt("b", 60), SpanAt("c", 70)];
    assert visible[..2] == [visible[0], visible[1]];
  }

  lemma FirstTwo(a: SpanRow, b: SpanRow, c: SpanRow)
    ensures [a, b, c][..2] == [a, b]
  {
  }

  /** Such runs exist: with a third span waiting at 70 ms, still in every window. */
  lemma StarvingScanExists(now: int)
    requires now >= 100
    ensures var visible := [SpanAt("a", 50), SpanAt("b", 60), SpanAt("c", 70)];
            var s := Scan(now, visible, visible[..2], false);
            && GoodScan(STARVED, ANY, Some(65), s) && NextWatermark(Some(65), s) == Some(60)
            && GoodScan(STARVED, ANY, Some(60), s) && InWindow(visible[2], Since(STARVED, Some(60), now), now)
  {
    TwoOfThreeIsScan(65, now);
    TwoOfThreeIsScan(60, now);
    TheTwoEndAt60();
    FirstTwo(SpanAt("a", 50), SpanAt("b", 60), SpanAt("c", 70));
  }
}
