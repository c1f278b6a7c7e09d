/** What every run of the live protocol delivers: no gap and no duplicate in the
    broadcast, and nothing missing for a subscriber that opened the poller or was
    caught up. */
module LiveDelivery {
  import opened LiveDeltas
  import opened DeltaChannel
  import opened PollerSpec
  import opened LiveProtocol

  // ---------------------------------------------------------------------
  // One subscriber on one channel
  // ---------------------------------------------------------------------

  /** What a subscriber holds, to the row: every broadcast since it attached, in order,
      with its catch-up page in between once that has landed. What was broadcast before
      was visible when it attached and not above the head of that time; what is
      broadcast since is not below it. */
  ghost predicate Follows(h: History, f: Feed, cap: nat) {
    && Attached(h, f)
    && match f.page
       case NoPage => f.got == h.sent[f.joinedSent..]
       case Page(at, read, rows) =>
         && f.joinedSent <= at <= |h.sent| && f.joinedLog <= read <= |h.log|
         && IsPage(h.log[..read], f.cursor, cap, rows)
         && f.got == h.sent[f.joinedSent..at] + rows + h.sent[at..]
  }

  ghost predicate Attached(h: History, f: Feed) {
    && f.joinedSent <= |h.sent| && f.joinedLog <= |h.log| && h.start <= f.joinedHead <= h.ch.head
    && (forall i :: 0 <= i < f.joinedSent ==> h.sent[i] in h.log[..f.joinedLog] && h.sent[i].ms <= f.joinedHead)
    && (forall i :: f.joinedSent <= i < |h.sent| ==> f.joinedHead <= h.sent[i].ms)
  }

  lemma AttachedAfterPoll(h: History, f: Feed, n: nat, cap: nat, page: seq<Row>)
    requires Sound(h) && Attached(h, f) && ReadAt(h, n, cap, page)
    ensures Attached(Polled(h, page), Given(f, Fresh(h.ch, page)))
  {
    AdvancedIsNewest(page, h.ch.head);
    var news := Fresh(h.ch, page);
    FreshMembers(h.ch, page);
    forall i | 0 <= i < |news| ensures f.joinedHead <= news[i].ms {
      var j :| 0 <= j < |page| && page[j] == news[i];
    }
  }

  lemma GotAfterPoll(sent: seq<Row>, news: seq<Row>, from: nat, at: nat, rows: seq<Row>)
    requires from <= at <= |sent|
    ensures (sent + news)[from..] == sent[from..] + news
    ensures (sent + news)[from..at] + rows + (sent + news)[at..] == sent[from..at] + rows + sent[at..] + news
  {
    assert (sent + news)[from..at] == sent[from..at];
    assert (sent + news)[at..] == sent[at..] + news;
  }

  lemma FollowsPoll(h: History, f: Feed, n: nat, cap: nat, page: seq<Row>, feedCap: nat)
    requires Sound(h) && Follows(h, f, feedCap) && ReadAt(h, n, cap, page)
    ensures Follows(Polled(h, page), Given(f, Fresh(h.ch, page)), feedCap)
  {
    AttachedAfterPoll(h, f, n, cap, page);
    match f.page
    case NoPage => GotAfterPoll(h.sent, Fresh(h.ch, page), f.joinedSent, f.joinedSent, []);
    case Page(at, _, rows) => GotAfterPoll(h.sent, Fresh(h.ch, page), f.joinedSent, at, rows);
  }

  lemma FollowsLanding(h: History, f: Feed, r: Row, cap: nat)
    requires Follows(h, f, cap)
    ensures Follows(Landed(h, r), f, cap)
  {
    assert (h.log + [r])[..f.joinedLog] == h.log[..f.joinedLog];
    if f.page.Page? {
      assert (h.log + [r])[..f.page.read] == h.log[..f.page.read];
    }
  }

  lemma FollowsCatchUp(h: History, f: Feed, n: nat, cap: nat, page: seq<Row>)
    requires Follows(h, f, cap) && f.page.NoPage? && f.joinedLog <= n <= |h.log|
    requires IsPage(h.log[..n], f.cursor, cap, page)
    ensures Follows(h, CaughtUp(f, |h.sent|, n, page), cap)
  {
    assert h.sent[f.joinedSent..|h.sent|] == h.sent[f.joinedSent..];
    assert h.sent[f.joinedSent..] + page + [] == h.sent[f.joinedSent..] + page;
  }

  lemma FollowsFromJoin(h: History, cursor: int, cap: nat)
    requires Sound(h)
    ensures Follows(h, NewFeed(cursor, h), cap)
  {
    assert h.log[..|h.log|] == h.log;
    assert h.sent[|h.sent|..] == [];
  }

  // ---------------------------------------------------------------------
  // Every run
  // ---------------------------------------------------------------------

  /** The cursor was at or past the head when the subscriber attached: the opener's is. */
  predicate Ahead(f: Feed) {
    f.cursor >= f.joinedHead
  }

  /** A joiner behind the head in either channel gets its catch-up, once. */
  predicate Current(m: Member) {
    if m.waiting then m.spans.page.NoPage? && m.evals.page.NoPage?
    else (Ahead(m.spans) || m.spans.page.Page?) && (Ahead(m.evals) || m.evals.page.Page?)
  }

  ghost predicate MemberOk(s: State, m: Member) {
    && Follows(SpanHistory(s), m.spans, DELTA_SPAN_CAP)
    && Follows(EvalHistory(s), m.evals, DELTA_EVAL_CAP)
    && Current(m)
  }

  ghost predicate Inv(s: State) {
    && Sound(SpanHistory(s))
    && Sound(EvalHistory(s))
    && (forall id :: id in s.members ==> MemberOk(s, s.members[id]))
    && s.members.Keys <= s.used
    && s.catchUps <= s.joins
  }

  lemma OpenIsSound(id: nat, cursor: Cursor, now: int, spanLog: seq<Row>, evalLog: seq<Row>)
    requires SortedByMs(spanLog) && SortedByMs(evalLog)
    ensures Inv(Open(id, cursor, now, spanLog, evalLog))
  {
  }

  lemma LandingKeepsInv(cfg: Config, s: State, e: Event)
    requires Inv(s) && Enabled(s, e) && (e.SpanLands? || e.EvalLands?)
    ensures Inv(Next(cfg, s, e))
  {
    var s' := Next(cfg, s, e);
    if e.SpanLands? {
      LandedIsSound(SpanHistory(s), e.row);
    } else {
      LandedIsSound(EvalHistory(s), e.row);
    }
    forall id | id in s.members ensures MemberOk(s', s.members[id]) {
      if e.SpanLands? {
        FollowsLanding(SpanHistory(s), s.members[id].spans, e.row, DELTA_SPAN_CAP);
      } else {
        FollowsLanding(EvalHistory(s), s.members[id].evals, e.row, DELTA_EVAL_CAP);
      }
    }
  }

  lemma AfterReadHistories(cfg: Config, s: State, e: Event)
    requires e.TickReads?
    ensures SpanHistory(Next(cfg, s, e)) == Polled(SpanHistory(s), e.spans)
    ensures EvalHistory(Next(cfg, s, e)) == Polled(EvalHistory(s), e.evals)
  {
  }

  lemma AfterReadMembers(cfg: Config, s: State, e: Event, id: nat)
    requires e.TickReads? && id in Next(cfg, s, e).members
    ensures id in s.members
    ensures Next(cfg, s, e).members[id].spans == Given(s.members[id].spans, Fresh(s.poller.spans, e.spans))
    ensures Next(cfg, s, e).members[id].evals == Given(s.members[id].evals, Fresh(s.poller.evals, e.evals))
    ensures Next(cfg, s, e).members[id].waiting == s.members[id].waiting
  {
  }

  lemma ReadKeepsMember(cfg: Config, s: State, e: Event, id: nat)
    requires Sound(SpanHistory(s)) && Sound(EvalHistory(s)) && Enabled(s, e) && e.TickReads?
    requires id in Next(cfg, s, e).members && (id in s.members ==> MemberOk(s, s.members[id]))
    ensures MemberOk(Next(cfg, s, e), Next(cfg, s, e).members[id])
  {
    AfterReadHistories(cfg, s, e);
    AfterReadMembers(cfg, s, e, id);
    FollowsPoll(SpanHistory(s), s.members[id].spans, e.ns, DELTA_SPAN_CAP, e.spans, DELTA_SPAN_CAP);
    FollowsPoll(EvalHistory(s), s.members[id].evals, e.ne, DELTA_EVAL_CAP, e.evals, DELTA_EVAL_CAP);
  }

  lemma ReadKeepsHistories(cfg: Config, s: State, e: Event)
    requires Inv(s) && Enabled(s, e) && e.TickReads?
    ensures Sound(SpanHistory(Next(cfg, s, e))) && Sound(EvalHistory(Next(cfg, s, e)))
  {
    AfterReadHistories(cfg, s, e);
    PolledIsSound(SpanHistory(s), e.ns, DELTA_SPAN_CAP, e.spans);
    PolledIsSound(EvalHistory(s), e.ne, DELTA_EVAL_CAP, e.evals);
  }

  lemma ReadKeepsInv(cfg: Config, s: State, e: Event)
    requires Inv(s) && Enabled(s, e) && e.TickReads?
    ensures Inv(Next(cfg, s, e))
  {
    var s' := Next(cfg, s, e);
    ReadKeepsHistories(cfg, s, e);
    forall id | id in s'.members ensures MemberOk(s', s'.members[id]) && id in s.used {
      AfterReadMembers(cfg, s, e, id);
      ReadKeepsMember(cfg, s, e, id);
    }
  }

  lemma CatchUpKeepsMember(cfg: Config, s: State, e: Event, id: nat)
    requires Enabled(s, e) && e.CatchesUp? && id in Next(cfg, s, e).members
    requires id in s.members ==> MemberOk(s, s.members[id])
    ensures id in s.members && MemberOk(s, Next(cfg, s, e).members[id])
  {
    if id == e.id {
      FollowsCatchUp(SpanHistory(s), s.members[id].spans, e.ns, DELTA_SPAN_CAP, e.spans);
      FollowsCatchUp(EvalHistory(s), s.members[id].evals, e.ne, DELTA_EVAL_CAP, e.evals);
    }
  }

  lemma CatchUpKeepsInv(cfg: Config, s: State, e: Event)
    requires Inv(s) && Enabled(s, e) && e.CatchesUp?
    ensures Inv(Next(cfg, s, e))
  {
    var s' := Next(cfg, s, e);
    assert SpanHistory(s') == SpanHistory(s) && EvalHistory(s') == EvalHistory(s);
    forall id | id in s'.members ensures MemberOk(s', s'.members[id]) && id in s.used {
      CatchUpKeepsMember(cfg, s, e, id);
    }
  }

  lemma JoinKeepsInv(cfg: Config, s: State, e: Event)
    requires Inv(s) && Enabled(s, e) && e.Joins?
    ensures Inv(Next(cfg, s, e))
  {
    var s' := Next(cfg, s, e);
    assert SpanHistory(s') == SpanHistory(s) && EvalHistory(s') == EvalHistory(s);
    FollowsFromJoin(SpanHistory(s), e.cursor.spanMs, DELTA_SPAN_CAP);
    FollowsFromJoin(EvalHistory(s), e.cursor.evalMs, DELTA_EVAL_CAP);
    forall id | id in s'.members ensures MemberOk(s', s'.members[id]) && id in s'.used {
    }
  }

  lemma OtherStepsKeepInv(cfg: Config, s: State, e: Event)
    requires Inv(s) && Enabled(s, e)
    requires e.TickStarts? || e.TickFails? || e.CatchUpFails? || e.Leaves?
    ensures Inv(Next(cfg, s, e))
  {
    var s' := Next(cfg, s, e);
    assert SpanHistory(s') == SpanHistory(s) && EvalHistory(s') == EvalHistory(s);
    forall id | id in s'.members ensures MemberOk(s', s'.members[id]) && id in s.used {
    }
  }

  lemma StepKeepsInv(cfg: Config, s: State, e: Event)
    requires Inv(s) && Enabled(s, e)
    ensures Inv(Next(cfg, s, e))
  {
    if e.SpanLands? || e.EvalLands? {
      LandingKeepsInv(cfg, s, e);
    } else if e.TickReads? {
      ReadKeepsInv(cfg, s, e);
    } else if e.CatchesUp? {
      CatchUpKeepsInv(cfg, s, e);
    } else if e.Joins? {
      JoinKeepsInv(cfg, s, e);
    } else {
      OtherStepsKeepInv(cfg, s, e);
    }
  }

  lemma {:induction false} RunKeepsInv(cfg: Config, s: State, es: seq<Event>)
    requires Inv(s) && Valid(cfg, s, es)
    ensures Inv(Run(cfg, s, es))
    decreases |es|
  {
    if es != [] {
      StepKeepsInv(cfg, s, es[0]);
      RunKeepsInv(cfg, Next(cfg, s, es[0]), es[1..]);
    }
  }

  /** The channel has broadcast, once each, only visible rows from its start to its
      head, with every row below its head and every key of the boundary set; with one
      row a key, exactly the rows from its start to strictly below its head together
      with those of its boundary set. */
  ghost predicate BroadcastExactly(h: History) {
    && SentOnce(h.sent) && SentFromLog(h) && NoGap(h) && BoundaryIsSent(h)
    && (DistinctKeys(h.log) ==> forall r ::
          r in h.sent <==> r in h.log && h.start <= r.ms && Passed(h.ch, r))
  }

  /** The poller has read past the row: it lies below the head, or is one of the rows
      already delivered at it. */
  predicate Passed(ch: Channel, r: Row) {
    r.ms < ch.head || (r.ms == ch.head && r.key in ch.boundary)
  }

  /** No gaps and no duplicates, for every run of the protocol. */
  lemma BroadcastIsExact(cfg: Config, id: nat, cursor: Cursor, now: int, spanLog: seq<Row>, evalLog: seq<Row>,
                         es: seq<Event>)
    requires SortedByMs(spanLog) && SortedByMs(evalLog)
    requires Valid(cfg, Open(id, cursor, now, spanLog, evalLog), es)
    ensures BroadcastExactly(SpanHistory(Run(cfg, Open(id, cursor, now, spanLog, evalLog), es)))
    ensures BroadcastExactly(EvalHistory(Run(cfg, Open(id, cursor, now, spanLog, evalLog), es)))
  {
    OpenIsSound(id, cursor, now, spanLog, evalLog);
    RunKeepsInv(cfg, Open(id, cursor, now, spanLog, evalLog), es);
    SoundBroadcastsExactly(SpanHistory(Run(cfg, Open(id, cursor, now, spanLog, evalLog), es)));
    SoundBroadcastsExactly(EvalHistory(Run(cfg, Open(id, cursor, now, spanLog, evalLog), es)));
  }

  lemma SoundBroadcastsExactly(h: History)
    requires Sound(h)
    ensures BroadcastExactly(h)
  {
    if DistinctKeys(h.log) {
      forall r {
        SentExactly(h, r);
      }
    }
  }

  // ---------------------------------------------------------------------
  // What a subscriber is owed
  // ---------------------------------------------------------------------

  /** The subscriber was there from the first broadcast on, or has its catch-up. */
  predicate Served(f: Feed) {
    f.joinedSent == 0 || f.page.Page?
  }

  predicate VisibleAtJoin(h: History, f: Feed, r: Row) {
    f.joinedLog <= |h.log| && r in h.log[..f.joinedLog]
  }

  /** A row the subscriber is owed lies above its cursor, or at it when it was served;
      it was visible when the subscriber attached or lies at or after the poller's
      start; and the poller has passed it, or the catch-up read had it to find. */
  predicate Owed(h: History, f: Feed, r: Row) {
    && (f.cursor < r.ms || (f.cursor == r.ms && Served(f)))
    && (h.start <= r.ms || VisibleAtJoin(h, f, r))
    && (Passed(h.ch, r) || (f.page.Page? && VisibleAtJoin(h, f, r)))
  }

  /** What was visible to the catch-up read at or after the cursor fits on one page. */
  ghost predicate Fits(h: History, f: Feed, cap: nat) {
    f.page.Page? ==> f.page.read <= |h.log| && |KeysFrom(h.log[..f.page.read], f.cursor)| <= cap
  }

  lemma GotMembers(h: History, f: Feed, cap: nat, r: Row)
    requires Follows(h, f, cap)
    ensures r in f.got <==> r in h.sent[f.joinedSent..] || (f.page.Page? && r in f.page.rows)
  {
    if f.page.Page? {
      assert h.sent[f.joinedSent..] == h.sent[f.joinedSent..f.page.at] + h.sent[f.page.at..];
    }
  }

  lemma CoversBy(rows: seq<Row>, q: Row, r: Row)
    requires q in rows && q.key == r.key && q.ms <= r.ms
    ensures Covers(rows, r)
  {
    var i :| 0 <= i < |rows| && rows[i] == q;
  }

  /** A row visible when the subscriber attached, at or after its cursor, has come with
      the catch-up page. */
  lemma CaughtUpRow(h: History, f: Feed, cap: nat, k: nat)
    requires Follows(h, f, cap) && Fits(h, f, cap) && f.page.Page?
    requires k < f.joinedLog && f.cursor <= h.log[k].ms
    ensures Covers(f.got, h.log[k])
  {
    var seen := h.log[..f.page.read];
    assert seen[k] == h.log[k];
    PageCoversAll(seen, f.cursor, cap, f.page.rows, k);
    var i :| 0 <= i < |f.page.rows| && f.page.rows[i].key == h.log[k].key && f.page.rows[i].ms <= h.log[k].ms;
    GotMembers(h, f, cap, f.page.rows[i]);
    CoversBy(f.got, f.page.rows[i], h.log[k]);
  }

  /** Every broadcast row above the cursor (or at it, when served) has arrived. */
  lemma BroadcastArrived(h: History, f: Feed, cap: nat, i: nat)
    requires Follows(h, f, cap) && Fits(h, f, cap) && (Ahead(f) || f.page.Page?)
    requires i < |h.sent| && (f.cursor < h.sent[i].ms || (f.cursor == h.sent[i].ms && Served(f)))
    ensures Covers(f.got, h.sent[i])
  {
    if i < f.joinedSent {
      var k :| 0 <= k < f.joinedLog && h.log[..f.joinedLog][k] == h.sent[i];
      CaughtUpRow(h, f, cap, k);
    } else {
      assert h.sent[f.joinedSent..][i - f.joinedSent] == h.sent[i];
      GotMembers(h, f, cap, h.sent[i]);
      CoversBy(f.got, h.sent[i], h.sent[i]);
    }
  }

  /** The row itself or an earlier arrival of its span is there, or a retry of the span
      stands behind the subscriber's cursor. */
  ghost predicate Arrived(h: History, f: Feed, r: Row) {
    Covers(f.got, r) || exists q :: q in h.log && q.key == r.key && q.ms <= f.cursor && q.ms < r.ms
  }

  lemma PassedWasSent(h: History, r: Row) returns (i: nat)
    requires Sound(h) && r in h.log && h.start <= r.ms && Passed(h.ch, r)
    ensures i < |h.sent| && h.sent[i].key == r.key && h.sent[i].ms <= r.ms && h.sent[i] in h.log
  {
    if r.ms < h.ch.head {
      var k :| 0 <= k < |h.log| && h.log[k] == r;
      assert Covers(h.sent, h.log[k]);
      i :| 0 <= i < |h.sent| && h.sent[i].key == r.key && h.sent[i].ms <= r.ms;
    } else {
      assert SentAt(h.sent, r.key, h.ch.head);
      i :| 0 <= i < |h.sent| && h.sent[i].key == r.key && h.sent[i].ms == h.ch.head;
    }
  }

  lemma OwedArrived(h: History, f: Feed, cap: nat, r: Row)
    requires Sound(h) && Follows(h, f, cap) && Fits(h, f, cap) && (Ahead(f) || f.page.Page?)
    requires r in h.log && Owed(h, f, r)
    ensures Arrived(h, f, r)
  {
    if f.page.Page? && VisibleAtJoin(h, f, r) {
      var k :| 0 <= k < f.joinedLog && h.log[..f.joinedLog][k] == r;
      CaughtUpRow(h, f, cap, k);
    } else {
      var i := PassedWasSent(h, r);
      var q := h.sent[i];
      if f.cursor < q.ms || (f.cursor == q.ms && Served(f)) {
        BroadcastArrived(h, f, cap, i);
        var j :| 0 <= j < |f.got| && f.got[j].key == q.key && f.got[j].ms <= q.ms;
        CoversBy(f.got, f.got[j], r);
      }
    }
  }

  lemma GotIsLogged(h: History, f: Feed, cap: nat, r: Row)
    requires Sound(h) && Follows(h, f, cap) && r in f.got
    ensures r in h.log
  {
    GotMembers(h, f, cap, r);
    if r in h.sent[f.joinedSent..] {
      var i :| 0 <= i < |h.sent[f.joinedSent..]| && h.sent[f.joinedSent..][i] == r;
      assert h.sent[f.joinedSent + i] in h.log;
    } else {
      var i :| 0 <= i < |f.page.rows| && f.page.rows[i] == r;
      assert f.page.rows[i] in h.log[..f.page.read];
    }
  }

  /** Union of catch-up and broadcasts, both ways: with one row a key, what the
      subscriber holds of the rows it is owed is exactly the log. */
  lemma HoldsTheLog(h: History, f: Feed, cap: nat, r: Row)
    requires Sound(h) && Follows(h, f, cap) && Fits(h, f, cap) && (Ahead(f) || f.page.Page?)
    requires DistinctKeys(h.log) && Owed(h, f, r)
    ensures r in f.got <==> r in h.log
  {
    if r in f.got {
      GotIsLogged(h, f, cap, r);
    }
    if r in h.log {
      OwedArrived(h, f, cap, r);
      if q :| q in h.log && q.key == r.key && q.ms < r.ms {
        SameKeySameRow(h.log, q, r);
        assert false;
      }
      var j :| 0 <= j < |f.got| && f.got[j].key == r.key && f.got[j].ms <= r.ms;
      GotIsLogged(h, f, cap, f.got[j]);
      SameKeySameRow(h.log, f.got[j], r);
    }
  }

  /** Every owed row has arrived; with one row a key the subscriber holds exactly the
      rows it is owed. */
  ghost predicate MissesNothing(h: History, f: Feed) {
    && (forall r :: r in h.log && Owed(h, f, r) ==> Arrived(h, f, r))
    && (DistinctKeys(h.log) ==> forall r :: Owed(h, f, r) ==> (r in f.got <==> r in h.log))
  }

  lemma CurrentMissesNothing(h: History, f: Feed, cap: nat)
    requires Sound(h) && Follows(h, f, cap) && (Ahead(f) || f.page.Page?)
    ensures Fits(h, f, cap) ==> MissesNothing(h, f)
  {
    if Fits(h, f, cap) {
      forall r | r in h.log && Owed(h, f, r) ensures Arrived(h, f, r) {
        OwedArrived(h, f, cap, r);
      }
      forall r | DistinctKeys(h.log) && Owed(h, f, r) ensures r in f.got <==> r in h.log {
        HoldsTheLog(h, f, cap, r);
      }
    }
  }

  /** In every run, every attached subscriber whose catch-up is not still in flight has
      every row it is owed, in each channel in which its catch-up read found no more
      than a page. */
  lemma SubscribersMissNothing(cfg: Config, id: nat, cursor: Cursor, now: int, spanLog: seq<Row>, evalLog: seq<Row>,
                               es: seq<Event>, sub: nat)
    requires SortedByMs(spanLog) && SortedByMs(evalLog)
    requires Valid(cfg, Open(id, cursor, now, spanLog, evalLog), es)
    requires sub in Run(cfg, Open(id, cursor, now, spanLog, evalLog), es).members
    requires !Run(cfg, Open(id, cursor, now, spanLog, evalLog), es).members[sub].waiting
    ensures var s := Run(cfg, Open(id, cursor, now, spanLog, evalLog), es);
            var m := s.members[sub];
            && (Fits(SpanHistory(s), m.spans, DELTA_SPAN_CAP) ==> MissesNothing(SpanHistory(s), m.spans))
            && (Fits(EvalHistory(s), m.evals, DELTA_EVAL_CAP) ==> MissesNothing(EvalHistory(s), m.evals))
  {
    OpenIsSound(id, cursor, now, spanLog, evalLog);
    RunKeepsInv(cfg, Open(id, cursor, now, spanLog, evalLog), es);
    var s := Run(cfg, Open(id, cursor, now, spanLog, evalLog), es);
    CurrentMissesNothing(SpanHistory(s), s.members[sub].spans, DELTA_SPAN_CAP);
    CurrentMissesNothing(EvalHistory(s), s.members[sub].evals, DELTA_EVAL_CAP);
  }

  // ---------------------------------------------------------------------
  // Where a subscriber does miss a row
  // ---------------------------------------------------------------------

  /** Of what its catch-up read found between its cursor and the head it joined at, the
      subscriber has everything. */
  ghost predicate HoldsBehind(h: History, f: Feed)
    requires f.page.Page? && f.page.read <= |h.log|
  {
    CoversBetween(h.log[..f.page.read], f.got, f.cursor, f.joinedHead)
  }

  lemma LaterIsAbove(h: History, f: Feed)
    requires Attached(h, f)
    ensures forall r :: r in h.sent[f.joinedSent..] ==> f.joinedHead <= r.ms
  {
    assert forall i :: 0 <= i < |h.sent[f.joinedSent..]| ==> h.sent[f.joinedSent..][i] == h.sent[f.joinedSent + i];
  }

  /** Below the head it joined at nothing but the page helps. */
  lemma OnlyThePageHelps(h: History, f: Feed, cap: nat, r: Row)
    requires Follows(h, f, cap) && f.page.Page? && r.ms < f.joinedHead
    ensures Covers(f.got, r) <==> Covers(f.page.rows, r)
  {
    if Covers(f.got, r) {
      var i :| 0 <= i < |f.got| && f.got[i].key == r.key && f.got[i].ms <= r.ms;
      GotMembers(h, f, cap, f.got[i]);
      LaterIsAbove(h, f);
      CoversBy(f.page.rows, f.got[i], r);
    }
    if Covers(f.page.rows, r) {
      var i :| 0 <= i < |f.page.rows| && f.page.rows[i].key == r.key && f.page.rows[i].ms <= r.ms;
      GotMembers(h, f, cap, f.page.rows[i]);
      CoversBy(f.got, f.page.rows[i], r);
    }
  }

  lemma CaughtUpIff(h: History, f: Feed, cap: nat)
    requires Follows(h, f, cap) && f.page.Page?
    ensures HoldsBehind(h, f) <==> |KeysBetween(h.log[..f.page.read], f.cursor, f.joinedHead)| <= cap
  {
    var seen := h.log[..f.page.read];
    PageCoversIff(seen, f.cursor, cap, f.page.rows, f.joinedHead);
    forall k | 0 <= k < |seen| && f.cursor <= seen[k].ms < f.joinedHead
      ensures Covers(f.got, seen[k]) <==> Covers(f.page.rows, seen[k])
    {
      OnlyThePageHelps(h, f, cap, seen[k]);
    }
  }

  /** In every run, and however long it goes on: a landed catch-up leaves the joiner with
      every row between its cursor and the head it joined at if and only if these rows
      were of no more spans than one page holds. A longer backlog is never made up. */
  lemma CatchUpsHoldIff(cfg: Config, id: nat, cursor: Cursor, now: int, spanLog: seq<Row>, evalLog: seq<Row>,
                        es: seq<Event>, sub: nat)
    requires SortedByMs(spanLog) && SortedByMs(evalLog)
    requires Valid(cfg, Open(id, cursor, now, spanLog, evalLog), es)
    requires sub in Run(cfg, Open(id, cursor, now, spanLog, evalLog), es).members
    requires Run(cfg, Open(id, cursor, now, spanLog, evalLog), es).members[sub].spans.page.Page?
    requires Run(cfg, Open(id, cursor, now, spanLog, evalLog), es).members[sub].evals.page.Page?
    ensures var s := Run(cfg, Open(id, cursor, now, spanLog, evalLog), es);
            var (f, g) := (s.members[sub].spans, s.members[sub].evals);
            && f.page.read <= |s.spanLog| && g.page.read <= |s.evalLog|
            && (HoldsBehind(SpanHistory(s), f) <==>
                  |KeysBetween(s.spanLog[..f.page.read], f.cursor, f.joinedHead)| <= 2000)
            && (HoldsBehind(EvalHistory(s), g) <==>
                  |KeysBetween(s.evalLog[..g.page.read], g.cursor, g.joinedHead)| <= 1000)
  {
    OpenIsSound(id, cursor, now, spanLog, evalLog);
    RunKeepsInv(cfg, Open(id, cursor, now, spanLog, evalLog), es);
    var s := Run(cfg, Open(id, cursor, now, spanLog, evalLog), es);
    CaughtUpIff(SpanHistory(s), s.members[sub].spans, DELTA_SPAN_CAP);
    CaughtUpIff(EvalHistory(s), s.members[sub].evals, DELTA_EVAL_CAP);
  }

  /** Once landed, a catch-up is not repeated: the attachment stays as it is. */
  ghost predicate SameLanding(m: Member, t: Member) {
    && !t.waiting && t.spans.page.Page? && t.spans.page == m.spans.page
    && t.spans.cursor == m.spans.cursor && t.spans.joinedHead == m.spans.joinedHead
  }

  lemma StepKeepsLanding(cfg: Config, s: State, e: Event, sub: nat)
    requires Inv(s) && Enabled(s, e) && sub in s.used
    requires sub in s.members ==> SameLanding(s.members[sub], s.members[sub])
    ensures sub in Next(cfg, s, e).used
    ensures sub in Next(cfg, s, e).members ==>
              sub in s.members && SameLanding(s.members[sub], Next(cfg, s, e).members[sub])
  {
    if e.TickReads? && sub in Next(cfg, s, e).members {
      AfterReadMembers(cfg, s, e, sub);
    }
  }

  lemma {:induction false} RunKeepsLanding(cfg: Config, s: State, es: seq<Event>, sub: nat)
    requires Inv(s) && Valid(cfg, s, es) && sub in s.used
    requires sub in s.members ==> SameLanding(s.members[sub], s.members[sub])
    ensures sub in Run(cfg, s, es).members ==>
              sub in s.members && SameLanding(s.members[sub], Run(cfg, s, es).members[sub])
    decreases |es|
  {
    if es != [] {
      StepKeepsInv(cfg, s, es[0]);
      StepKeepsLanding(cfg, s, es[0], sub);
      RunKeepsLanding(cfg, Next(cfg, s, es[0]), es[1..], sub);
    }
  }

  /** `n` spans, one a millisecond from 1 on. */
  function Backlog(n: nat): seq<Row> {
    seq(n, i requires 0 <= i => Row(seq(i, _ => 'k'), i + 1, false))
  }

  lemma BacklogAt(n: nat, k: nat)
    requires k < n
    ensures |Backlog(n)[k].key| == k && Backlog(n)[k].ms == k + 1
  {
  }

  lemma BacklogPage(n: nat, cap: nat)
    requires cap <= n
    ensures SortedByMs(Backlog(n)) && IsPage(Backlog(n), 0, cap, Backlog(n)[..cap])
  {
    var log, page := Backlog(n), Backlog(n)[..cap];
    assert SortedByMs(log);
    assert DistinctKeys(log) by {
      forall i, j | 0 <= i < j < n ensures log[i].key != log[j].key {
        BacklogAt(n, i);
        BacklogAt(n, j);
      }
    }
    PrefixIsPage(log, cap, page);
  }

  /** Of a log with one row a key, the first rows are a page. */
  lemma PrefixIsPage(log: seq<Row>, cap: nat, page: seq<Row>)
    requires SortedByMs(log) && DistinctKeys(log) && cap <= |log| && page == log[..cap]
    requires forall i :: 0 <= i < |log| ==> log[i].ms >= 0
    ensures IsPage(log, 0, cap, page)
  {
    forall r | r in log && r.ms >= 0 ensures Accounted(page, cap, r) {
      var k :| 0 <= k < |log| && log[k] == r;
      if k < cap {
        assert page[k] == r;
      }
    }
  }

  lemma LastIsLeftOut(n: nat, cap: nat)
    requires cap < n
    ensures !Covers(Backlog(n)[..cap], Backlog(n)[cap])
  {
    BacklogAt(n, cap);
    forall i | 0 <= i < cap ensures Backlog(n)[..cap][i].key != Backlog(n)[cap].key {
      BacklogAt(n, i);
    }
  }

  const BACKLOG: nat := DELTA_SPAN_CAP + 1

  /** A poller that a late cursor opened over a backlog of one span more than a page ... */
  function LateOpening(): State {
    Open(0, Cursor(3000, 0), 0, Backlog(BACKLOG), [])
  }

  /** ... a subscriber that joins it from cursor 0 ... */
  function StaleJoin(): Event {
    Joins(1, Cursor(0, 0))
  }

  /** ... and its catch-up, which reads everything there is. */
  function OnePage(): Event {
    CatchesUp(1, BACKLOG, Backlog(BACKLOG)[..DELTA_SPAN_CAP], 0, [], true)
  }

  function StaleJoined(cfg: Config): State {
    Next(cfg, LateOpening(), StaleJoin())
  }

  function StaleCaughtUp(cfg: Config): State {
    Next(cfg, StaleJoined(cfg), OnePage())
  }

  lemma StaleJoinHappens(cfg: Config)
    ensures Inv(LateOpening()) && Enabled(LateOpening(), StaleJoin()) && Enabled(StaleJoined(cfg), OnePage())
  {
    var log := Backlog(BACKLOG);
    BacklogPage(BACKLOG, DELTA_SPAN_CAP);
    OpenIsSound(0, Cursor(3000, 0), 0, log, []);
    assert log[..BACKLOG] == log;
    assert StaleJoined(cfg).members[1].waiting;
  }

  lemma StalePageLands(cfg: Config)
    ensures var s := StaleCaughtUp(cfg);
            && 1 in s.members && 1 in s.used && SameLanding(s.members[1], s.members[1])
            && s.members[1].spans.joinedHead == 3000
            && s.members[1].spans.page.rows == Backlog(BACKLOG)[..DELTA_SPAN_CAP]
  {
    assert StaleJoined(cfg).members[1].waiting;
  }

  /** What a landed page leaves out below the head of the join stays missing. */
  lemma RunKeepsMissing(cfg: Config, s: State, es: seq<Event>, sub: nat, r: Row)
    requires Inv(s) && Valid(cfg, s, es) && sub in s.used
    requires sub in s.members && SameLanding(s.members[sub], s.members[sub])
    requires r.ms < s.members[sub].spans.joinedHead && !Covers(s.members[sub].spans.page.rows, r)
    ensures sub in Run(cfg, s, es).members ==> !Covers(Run(cfg, s, es).members[sub].spans.got, r)
  {
    var t := Run(cfg, s, es);
    assert Inv(t) by { RunKeepsInv(cfg, s, es); }
    RunKeepsLanding(cfg, s, es, sub);
    if sub in t.members {
      assert MemberOk(t, t.members[sub]);
      OnlyThePageHelps(SpanHistory(t), t.members[sub].spans, DELTA_SPAN_CAP, r);
    }
  }

  /** The real caps, a real run: with 2001 spans behind the head one catch-up page brings
      2000, and the last of them never arrives, whatever happens afterwards. */
  lemma CappedCatchUpLeavesGap(cfg: Config, es: seq<Event>)
    requires Valid(cfg, StaleCaughtUp(cfg), es)
    ensures Enabled(LateOpening(), StaleJoin()) && Enabled(StaleJoined(cfg), OnePage())
    ensures var t := Run(cfg, StaleCaughtUp(cfg), es);
            1 in t.members ==> !Covers(t.members[1].spans.got, Backlog(BACKLOG)[DELTA_SPAN_CAP])
  {
    StaleJoinHappens(cfg);
    StaleCaughtUpIsSound(cfg);
    StalePageLands(cfg);
    LastIsLeftOut(BACKLOG, DELTA_SPAN_CAP);
    BacklogAt(BACKLOG, DELTA_SPAN_CAP);
    RunKeepsMissing(cfg, StaleCaughtUp(cfg), es, 1, Backlog(BACKLOG)[DELTA_SPAN_CAP]);
  }

  lemma StaleCaughtUpIsSound(cfg: Config)
    ensures Inv(StaleCaughtUp(cfg))
  {
    StaleJoinHappens(cfg);
    StepKeepsInv(cfg, LateOpening(), StaleJoin());
    StepKeepsInv(cfg, StaleJoined(cfg), OnePage());
  }

  /** A joiner at or past the head gets no catch-up, and every run gives it exactly what is
      broadcast after it joined. A row already broadcast therefore never reaches
      it, not even one of the very millisecond its cursor names. */
  lemma AtHeadOnlyLaterBroadcasts(cfg: Config, s: State, sub: nat, cursor: Cursor, es: seq<Event>)
    requires Inv(s) && Enabled(s, Joins(sub, cursor))
    requires cursor.spanMs >= s.poller.spans.head && cursor.evalMs >= s.poller.evals.head
    requires Valid(cfg, Next(cfg, s, Joins(sub, cursor)), es)
    requires sub in Run(cfg, Next(cfg, s, Joins(sub, cursor)), es).members
    ensures var t := Run(cfg, Next(cfg, s, Joins(sub, cursor)), es);
            && |s.spanSent| <= |t.spanSent| && t.members[sub].spans.got == t.spanSent[|s.spanSent|..]
            && |s.evalSent| <= |t.evalSent| && t.members[sub].evals.got == t.evalSent[|s.evalSent|..]
  {
    var s1 := Next(cfg, s, Joins(sub, cursor));
    StepKeepsInv(cfg, s, Joins(sub, cursor));
    RunKeepsInv(cfg, s1, es);
    NeverWaitingNeverCaughtUp(cfg, s1, es, sub);
  }

  /** No catch-up is under way or has landed, and `t` is the same attachment. */
  ghost predicate SameAttachment(m: Member, t: Member) {
    && !t.waiting && t.spans.page.NoPage? && t.evals.page.NoPage?
    && t.spans.joinedSent == m.spans.joinedSent && t.evals.joinedSent == m.evals.joinedSent
  }

  lemma {:induction false} NeverWaitingNeverCaughtUp(cfg: Config, s: State, es: seq<Event>, sub: nat)
    requires Inv(s) && Valid(cfg, s, es) && sub in s.used
    requires sub in s.members ==> SameAttachment(s.members[sub], s.members[sub])
    ensures sub in Run(cfg, s, es).members ==>
              sub in s.members && SameAttachment(s.members[sub], Run(cfg, s, es).members[sub])
    decreases |es|
  {
    if es != [] {
      StepKeepsInv(cfg, s, es[0]);
      StepNeverCatchesUp(cfg, s, es[0], sub);
      NeverWaitingNeverCaughtUp(cfg, Next(cfg, s, es[0]), es[1..], sub);
    }
  }

  lemma StepNeverCatchesUp(cfg: Config, s: State, e: Event, sub: nat)
    requires Inv(s) && Enabled(s, e) && sub in s.used
    requires sub in s.members ==> SameAttachment(s.members[sub], s.members[sub])
    ensures sub in Next(cfg, s, e).used
    ensures sub in Next(cfg, s, e).members ==>
              sub in s.members && SameAttachment(s.members[sub], Next(cfg, s, e).members[sub])
  {
    if e.TickReads? && sub in Next(cfg, s, e).members {
      AfterReadMembers(cfg, s, e, sub);
    }
  }
}
