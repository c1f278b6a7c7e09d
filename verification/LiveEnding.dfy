/** When a poller ends itself, and that its polling does not depend on who
    listens. */
module LiveEnding {
  import opened Wrappers
  import opened LiveDeltas
  import opened DeltaChannel
  import opened PollerSpec
  import opened LiveProtocol
  import opened LiveDelivery

  // ---------------------------------------------------------------------
  // The quiet clock
  // ---------------------------------------------------------------------

  /** Every visible row at or after the head is a delivered boundary row. */
  ghost predicate NothingUnread(h: History) {
    forall i :: 0 <= i < |h.log| && h.log[i].ms >= h.ch.head ==>
      h.log[i].ms == h.ch.head && h.log[i].key in h.ch.boundary
  }

  /** A retry repeats the row: same key and millisecond, same row. */
  ghost predicate RetriesAgree(log: seq<Row>) {
    forall i, j :: 0 <= i < |log| && 0 <= j < |log| && log[i].key == log[j].key && log[i].ms == log[j].ms ==>
      log[i] == log[j]
  }

  ghost predicate Quiet(s: State) {
    NothingUnread(SpanHistory(s)) && NothingUnread(EvalHistory(s))
  }

  /** The quiet clock restarts exactly when a tick broadcasts something. */
  lemma ClockMovesOnNewsOnly(cfg: Config, s: State, e: Event)
    requires Enabled(s, e) && e.TickReads?
    ensures Next(cfg, s, e).poller.lastDataAt ==
              if Next(cfg, s, e).spanSent == s.spanSent && Next(cfg, s, e).evalSent == s.evalSent
              then s.poller.lastDataAt else e.at
  {
    var d := TrimmedDelta(s.poller, DeltaOf(s.poller.Head(), e.spans, e.evals));
    ReadMoves(cfg, s, e);
    AddsNothingIff(s.spanSent, d.spans);
    AddsNothingIff(s.evalSent, d.evals);
  }

  lemma ReadMoves(cfg: Config, s: State, e: Event)
    requires e.TickReads?
    ensures var d := TrimmedDelta(s.poller, DeltaOf(s.poller.Head(), e.spans, e.evals));
            var t := Next(cfg, s, e);
            && t.spanSent == s.spanSent + d.spans && t.evalSent == s.evalSent + d.evals
            && t.poller.lastDataAt == if HasNews(d) then e.at else s.poller.lastDataAt
  {
  }

  /** When the events last brought something new: the instant of the last tick that
      broadcast, or, if none did, the given one. */
  function LastNews(cfg: Config, s: State, es: seq<Event>, since: int): int
    decreases |es|
  {
    if es == [] then since
    else
      var t := Next(cfg, s, es[0]);
      LastNews(cfg, t, es[1..],
               if es[0].TickReads? && (t.spanSent != s.spanSent || t.evalSent != s.evalSent) then es[0].at else since)
  }

  lemma OthersLeaveClock(cfg: Config, s: State, e: Event)
    requires !e.TickReads?
    ensures Next(cfg, s, e).poller.lastDataAt == s.poller.lastDataAt
  {
  }

  lemma {:induction false} ClockFollowsNews(cfg: Config, s: State, es: seq<Event>)
    requires Valid(cfg, s, es)
    ensures Run(cfg, s, es).poller.lastDataAt == LastNews(cfg, s, es, s.poller.lastDataAt)
    decreases |es|
  {
    if es != [] {
      if es[0].TickReads? {
        ClockMovesOnNewsOnly(cfg, s, es[0]);
      } else {
        OthersLeaveClock(cfg, s, es[0]);
      }
      ClockFollowsNews(cfg, Next(cfg, s, es[0]), es[1..]);
    }
  }

  /** In every run the quiet clock stands at the last tick that broadcast something, or at
      the opening of the poller, whose first tick is due at once. */
  lemma ClockRunsFromOpening(cfg: Config, id: nat, cursor: Cursor, now: int, spanLog: seq<Row>, evalLog: seq<Row>,
                             es: seq<Event>)
    requires Valid(cfg, Open(id, cursor, now, spanLog, evalLog), es)
    ensures var s := Open(id, cursor, now, spanLog, evalLog);
            Run(cfg, s, es).poller.lastDataAt == LastNews(cfg, s, es, now) && s.poller.timer == Some(now)
  {
    ClockFollowsNews(cfg, Open(id, cursor, now, spanLog, evalLog), es);
  }

  lemma AddsNothingIff(sent: seq<Row>, news: seq<Row>)
    ensures sent + news == sent <==> news == []
  {
    assert |sent + news| == |sent| + |news|;
  }

  lemma QuietChannel(h: History, n: nat, cap: nat, page: seq<Row>)
    requires NothingUnread(h) && ReadAt(h, n, cap, page)
    ensures Fresh(h.ch, page) == [] && Polled(h, page) == h
  {
    forall i | 0 <= i < |page| ensures page[i].ms == h.ch.head && page[i].key in h.ch.boundary {
      assert page[i] in h.log[..n];
      var k :| 0 <= k < n && h.log[..n][k] == page[i];
      assert h.log[k] == page[i];
    }
    ReplayIsSilent(h.ch, page);
  }

  /** With nothing unread, a replayed root was already known. */
  lemma QuietRoot(h: History, n: nat, cap: nat, page: seq<Row>)
    requires Sound(h) && NothingUnread(h) && RetriesAgree(h.log) && ReadAt(h, n, cap, page) && HasRoot(page)
    ensures HasRoot(h.sent)
  {
    var i :| 0 <= i < |page| && page[i].root;
    var k := ReadRowAt(h, n, cap, page, i);
    SentRoot(h, k);
  }

  lemma ReadRowAt(h: History, n: nat, cap: nat, page: seq<Row>, i: nat) returns (k: nat)
    requires ReadAt(h, n, cap, page) && i < |page|
    ensures k < |h.log| && h.log[k] == page[i] && h.log[k].ms >= h.ch.head
  {
    assert page[i] in h.log[..n];
    k :| 0 <= k < n && h.log[..n][k] == page[i];
  }

  lemma SentRoot(h: History, k: nat)
    requires Sound(h) && RetriesAgree(h.log) && k < |h.log| && h.log[k].root
    requires h.log[k].ms == h.ch.head && h.log[k].key in h.ch.boundary
    ensures HasRoot(h.sent)
  {
    assert SentAt(h.sent, h.log[k].key, h.ch.head);
    var j :| 0 <= j < |h.sent| && h.sent[j].key == h.log[k].key && h.sent[j].ms == h.ch.head;
    assert h.sent[j] in h.log;
    var m :| 0 <= m < |h.log| && h.log[m] == h.sent[j];
    assert h.log[m] == h.log[k];
  }

  /** A read with nothing unread changes nothing but the error count. */
  lemma QuietRead(s: State, e: Event)
    requires Sound(SpanHistory(s)) && Enabled(s, e) && e.TickReads? && Quiet(s) && RetriesAgree(s.spanLog)
    requires s.poller.rootSeen == HasRoot(s.spanSent)
    ensures var d := DeltaOf(s.poller.Head(), e.spans, e.evals);
            && TrimmedDelta(s.poller, d).spans == [] && TrimmedDelta(s.poller, d).evals == []
            && Absorbed(s.poller, d, e.at) == s.poller.(errors := 0) && e.refused == {}
  {
    QuietChannel(SpanHistory(s), e.ns, DELTA_SPAN_CAP, e.spans);
    QuietChannel(EvalHistory(s), e.ne, DELTA_EVAL_CAP, e.evals);
    if HasRoot(e.spans) {
      QuietRoot(SpanHistory(s), e.ns, DELTA_SPAN_CAP, e.spans);
    }
  }

  lemma NothingDelivered(members: map<nat, Member>)
    ensures Delivered(members, [], [], {}) == members
  {
    forall f: Feed ensures Given(f, []) == f {
      assert f.got + [] == f.got;
    }
  }

  /** What the end of a tick makes of a poller that has not stopped: by whether it has seen
      a root, and how long its last news are back. */
  lemma SettledAt(cfg: Config, p: Poller, now: int)
    requires !p.stopped
    ensures var (end, pace) := if p.rootSeen then (cfg.settledEndMs, cfg.slowPollMs) else (cfg.deadEndMs, cfg.fastPollMs);
            if now - p.lastDataAt >= end
            then Settled(cfg, p, now) == p.(polling := false, stopped := true, timer := None) &&
                 Judged(cfg, p, now) == if p.rootSeen then Complete else Idle
            else Settled(cfg, p, now) == p.(polling := false, timer := Some(now + pace)) && Judged(cfg, p, now) == Again(pace)
  {
  }

  /** A tick that leaves somebody to serve. */
  lemma ReadAndServed(cfg: Config, s: State, e: Event)
    requires e.TickReads? && !s.poller.stopped
    requires var news := TrimmedDelta(s.poller, DeltaOf(s.poller.Head(), e.spans, e.evals));
             Delivered(s.members, news.spans, news.evals, e.refused) != map[]
    ensures var d := DeltaOf(s.poller.Head(), e.spans, e.evals);
            var (news, q, t) := (TrimmedDelta(s.poller, d), Absorbed(s.poller, d, e.at), Next(cfg, s, e));
            && Ticked(cfg, s, t, q, Delivered(s.members, news.spans, news.evals, e.refused), e.at)
            && t.spanSent == s.spanSent + news.spans && t.evalSent == s.evalSent + news.evals
            && t.spanLog == s.spanLog && t.evalLog == s.evalLog && t.start == s.start
  {
  }

  lemma ServedQuietly(cfg: Config, s: State, e: Event)
    requires e.TickReads? && e.refused == {} && !s.poller.stopped && s.members != map[]
    requires var d := DeltaOf(s.poller.Head(), e.spans, e.evals);
             && TrimmedDelta(s.poller, d).spans == [] && TrimmedDelta(s.poller, d).evals == []
             && Absorbed(s.poller, d, e.at) == s.poller.(errors := 0)
    ensures Ticked(cfg, s, Next(cfg, s, e), s.poller.(errors := 0), s.members, e.at)
    ensures Standing(s, Next(cfg, s, e))
  {
    NothingDelivered(s.members);
    ReadAndServed(cfg, s, e);
    assert s.spanSent + [] == s.spanSent && s.evalSent + [] == s.evalSent;
  }

  /** The end of a tick that left `members` to serve and the poller in state `q`. */
  ghost predicate Ticked(cfg: Config, s: State, t: State, q: Poller, members: map<nat, Member>, at: int) {
    && t.poller == Settled(cfg, q, at) && t.members == (if t.poller.stopped then map[] else members)
    && t.ending == (if Judged(cfg, q, at).Again? then s.ending else Some(Judged(cfg, q, at)))
  }

  /** How such a tick ends: the stream is over, or goes on. */
  lemma TickedDecides(cfg: Config, s: State, t: State, q: Poller, members: map<nat, Member>, at: int)
    requires Ticked(cfg, s, t, q, members, at) && !q.stopped && members != map[] && s.ending == None
    ensures t.poller.rootSeen == q.rootSeen && t.poller.lastDataAt == q.lastDataAt
    ensures if at - q.lastDataAt >= (if q.rootSeen then cfg.settledEndMs else cfg.deadEndMs)
            then t.ending == Some(if q.rootSeen then Complete else Idle) && t.members == map[] && t.poller.stopped
            else t.ending == None && t.members == members && !t.poller.stopped && !t.poller.polling &&
                 t.poller.timer == Some(at + if q.rootSeen then cfg.slowPollMs else cfg.fastPollMs)
  {
    SettledAt(cfg, q, at);
  }

  lemma QuietlyDecides(cfg: Config, s: State, e: Event)
    requires e.TickReads? && e.refused == {} && !s.poller.stopped && s.members != map[] && s.ending == None
    requires var d := DeltaOf(s.poller.Head(), e.spans, e.evals);
             && TrimmedDelta(s.poller, d).spans == [] && TrimmedDelta(s.poller, d).evals == []
             && Absorbed(s.poller, d, e.at) == s.poller.(errors := 0)
    ensures Standing(s, Next(cfg, s, e))
    ensures var t := Next(cfg, s, e);
            if e.at >= s.poller.lastDataAt + (if s.poller.rootSeen then cfg.settledEndMs else cfg.deadEndMs)
            then t.members == map[] && t.poller.stopped && t.ending == Some(if s.poller.rootSeen then Complete else Idle)
            else t.members == s.members && !t.poller.stopped && t.ending == None &&
                 t.poller.timer == Some(e.at + if s.poller.rootSeen then cfg.slowPollMs else cfg.fastPollMs)
  {
    ServedQuietly(cfg, s, e);
    TickedDecides(cfg, s, Next(cfg, s, e), s.poller.(errors := 0), s.members, e.at);
  }

  /** A tick over a log with nothing unread: nothing is sent, the clock stands, and the
      stream ends exactly at or past the bound, for the right reason. With a root
      broadcast that is the settled bound, and until then the next tick comes at the
      slow pace; without one, the dead bound and the fast pace. */
  lemma QuietTick(cfg: Config, s: State, e: Event)
    requires Sound(SpanHistory(s)) && Enabled(s, e) && e.TickReads? && Quiet(s) && RetriesAgree(s.spanLog)
    requires !s.poller.stopped && s.members != map[] && s.ending == None
    requires s.poller.rootSeen == HasRoot(s.spanSent)
    ensures Standing(s, Next(cfg, s, e))
    ensures var t := Next(cfg, s, e);
            if e.at >= s.poller.lastDataAt + (if HasRoot(s.spanSent) then cfg.settledEndMs else cfg.deadEndMs)
            then t.members == map[] && t.poller.stopped && t.ending == Some(if HasRoot(s.spanSent) then Complete else Idle)
            else t.members == s.members && !t.poller.stopped && t.ending == None &&
                 t.poller.timer == Some(e.at + if HasRoot(s.spanSent) then cfg.slowPollMs else cfg.fastPollMs)
  {
    QuietRead(s, e);
    QuietlyDecides(cfg, s, e);
  }

  /** Nothing a quiet run leaves alone has changed. */
  predicate Standing(s: State, t: State) {
    && t.spanLog == s.spanLog && t.evalLog == s.evalLog && t.start == s.start
    && t.spanSent == s.spanSent && t.evalSent == s.evalSent
    && t.poller.spans == s.poller.spans && t.poller.evals == s.poller.evals
    && t.poller.rootSeen == s.poller.rootSeen && t.poller.lastDataAt == s.poller.lastDataAt
  }

  /** No row lands, no fetch fails, and no tick reaches the bound. */
  predicate BeforeBound(es: seq<Event>, deadline: int) {
    forall i :: 0 <= i < |es| ==>
      && !es[i].SpanLands? && !es[i].EvalLands? && !es[i].TickFails?
      && (es[i].TickReads? ==> es[i].at < deadline)
  }

  /** A poller that has not stopped has subscribers, and a stopped one has none. */
  predicate Peopled(s: State) {
    s.poller.stopped <==> s.members == map[]
  }

  lemma StepKeepsPeopled(cfg: Config, s: State, e: Event)
    requires Peopled(s) && Enabled(s, e)
    ensures Peopled(Next(cfg, s, e))
  {
    match e
    case Joins(id, _) =>
      assert id in Next(cfg, s, e).members;
    case CatchesUp(id, _, _, _, _, _) =>
      if !s.poller.stopped && id in s.members && Next(cfg, s, e).members != map[] {
      } else if id in s.members {
        assert Next(cfg, s, e) == Without(s, id) || id in Next(cfg, s, e).members;
      }
    case _ =>
  }

  /** One step before the bound: the poller goes on, unless its last subscriber
      left by itself, and nobody is told of an end. */
  lemma QuietStep(cfg: Config, s: State, e: Event, deadline: int)
    requires Inv(s) && Peopled(s) && Enabled(s, e) && Quiet(s) && RetriesAgree(s.spanLog) && s.ending == None
    requires s.poller.rootSeen == HasRoot(s.spanSent)
    requires BeforeBound([e], deadline)
    requires deadline == s.poller.lastDataAt + (if HasRoot(s.spanSent) then cfg.settledEndMs else cfg.deadEndMs)
    ensures Standing(s, Next(cfg, s, e)) && Next(cfg, s, e).ending == None
  {
    assert !([e][0]).SpanLands?;
    if e.TickReads? {
      if s.poller.stopped {
        QuietStoppedRead(cfg, s, e);
      } else {
        QuietTick(cfg, s, e);
      }
    }
  }

  lemma QuietStoppedRead(cfg: Config, s: State, e: Event)
    requires Sound(SpanHistory(s)) && Enabled(s, e) && e.TickReads? && Quiet(s) && RetriesAgree(s.spanLog)
    requires Peopled(s) && s.poller.stopped && s.poller.rootSeen == HasRoot(s.spanSent) && s.ending == None
    ensures Standing(s, Next(cfg, s, e)) && Next(cfg, s, e).ending == None
  {
    QuietRead(s, e);
    assert s.spanSent + [] == s.spanSent && s.evalSent + [] == s.evalSent;
  }

  lemma {:induction false} QuietRun(cfg: Config, s: State, es: seq<Event>)
    requires Inv(s) && Peopled(s) && Valid(cfg, s, es) && Quiet(s) && RetriesAgree(s.spanLog) && s.ending == None
    requires s.poller.rootSeen == HasRoot(s.spanSent)
    requires BeforeBound(es, s.poller.lastDataAt + (if HasRoot(s.spanSent) then cfg.settledEndMs else cfg.deadEndMs))
    ensures Standing(s, Run(cfg, s, es)) && Run(cfg, s, es).ending == None
    ensures Inv(Run(cfg, s, es)) && Peopled(Run(cfg, s, es))
    decreases |es|
  {
    if es != [] {
      var t := Next(cfg, s, es[0]);
      assert [es[0]][0] == es[0];
      QuietStep(cfg, s, es[0], s.poller.lastDataAt + (if HasRoot(s.spanSent) then cfg.settledEndMs else cfg.deadEndMs));
      StepKeepsInv(cfg, s, es[0]);
      StepKeepsPeopled(cfg, s, es[0]);
      QuietRun(cfg, t, es[1..]);
    }
  }

  /** Boundary replays never refresh the quiet clock. From any state of any run
      with nothing unread, and as long as no row lands and fetches succeed, nobody
      is told of an end before the bound, and the first tick at or past it ends
      every subscriber: as `Complete` if a root was broadcast, `settledEndMs` after the
      last news, as `Idle` if not, `deadEndMs` after it. */
  lemma EndsExactlyAtTheBound(cfg: Config, s0: State, before: seq<Event>, es: seq<Event>, e: Event)
    requires Inv(s0) && Peopled(s0) && s0.poller.rootSeen == HasRoot(s0.spanSent) && Valid(cfg, s0, before)
    requires var s := Run(cfg, s0, before);
             && Quiet(s) && RetriesAgree(s.spanLog) && s.ending == None && Valid(cfg, s, es)
             && BeforeBound(es, s.poller.lastDataAt + (if HasRoot(s.spanSent) then cfg.settledEndMs else cfg.deadEndMs))
             && e.TickReads? && Enabled(Run(cfg, s, es), e) && !Run(cfg, s, es).poller.stopped
             && e.at >= s.poller.lastDataAt + (if HasRoot(s.spanSent) then cfg.settledEndMs else cfg.deadEndMs)
    ensures var s := Run(cfg, s0, before);
            var t := Next(cfg, Run(cfg, s, es), e);
            && Run(cfg, s, es).ending == None
            && t.members == map[] && t.poller.stopped
            && t.ending == Some(if HasRoot(s.spanSent) then Complete else Idle)
  {
    var s := Run(cfg, s0, before);
    RunKeepsInv(cfg, s0, before);
    RunKeepsPeopled(cfg, s0, before);
    RootSeenIsRootSent(cfg, s0, before);
    QuietRun(cfg, s, es);
    QuietTick(cfg, Run(cfg, s, es), e);
  }

  // ---------------------------------------------------------------------
  // Any tick: end, or next tick
  // ---------------------------------------------------------------------

  /** Somebody takes the news of the tick, if there are any. */
  predicate SomeoneStays(s: State, e: Event) {
    exists id :: id in s.members && (e.TickReads? ==> id !in e.refused)
  }

  lemma FailedAndServed(cfg: Config, s: State, e: Event)
    requires e.TickFails? && !s.poller.stopped && s.members != map[] && s.poller.errors + 1 < cfg.maxConsecutiveErrors
    ensures Ticked(cfg, s, Next(cfg, s, e), s.poller.(errors := s.poller.errors + 1), s.members, e.at)
  {
  }

  /** The stream has ended if and only if the last news lie as far back as the bound for
      whether a root has been seen; otherwise the next tick is set at the pace for it. */
  ghost predicate Decided(cfg: Config, t: State, at: int) {
    var quiet := at - t.poller.lastDataAt;
    if t.poller.rootSeen
    then if quiet >= cfg.settledEndMs
         then t.ending == Some(Complete) && t.members == map[] && t.poller.stopped
         else t.ending == None && t.members != map[] && !t.poller.stopped && !t.poller.polling &&
              t.poller.timer == Some(at + cfg.slowPollMs)
    else if quiet >= cfg.deadEndMs
         then t.ending == Some(Idle) && t.members == map[] && t.poller.stopped
         else t.ending == None && t.members != map[] && !t.poller.stopped && !t.poller.polling &&
              t.poller.timer == Some(at + cfg.fastPollMs)
  }

  lemma ReadDecides(cfg: Config, s: State, e: Event)
    requires e.TickReads? && !s.poller.stopped && s.ending == None && SomeoneStays(s, e)
    ensures Decided(cfg, Next(cfg, s, e), e.at)
  {
    var id :| id in s.members && id !in e.refused;
    var d := DeltaOf(s.poller.Head(), e.spans, e.evals);
    var news := TrimmedDelta(s.poller, d);
    assert id in Delivered(s.members, news.spans, news.evals, e.refused);
    ReadAndServed(cfg, s, e);
    TickedDecides(cfg, s, Next(cfg, s, e), Absorbed(s.poller, d, e.at),
                  Delivered(s.members, news.spans, news.evals, e.refused), e.at);
  }

  lemma FailDecides(cfg: Config, s: State, e: Event)
    requires e.TickFails? && !s.poller.stopped && s.ending == None && s.members != map[]
    requires s.poller.errors + 1 < cfg.maxConsecutiveErrors
    ensures Decided(cfg, Next(cfg, s, e), e.at)
  {
    FailedAndServed(cfg, s, e);
    TickedDecides(cfg, s, Next(cfg, s, e), s.poller.(errors := s.poller.errors + 1), s.members, e.at);
  }

  /** So ends, or goes on, every tick that leaves somebody to serve, whatever it read, and
      also when it failed but not too often in a row. */
  lemma TickDecides(cfg: Config, s: State, e: Event)
    requires Enabled(s, e) && !s.poller.stopped && s.ending == None && SomeoneStays(s, e)
    requires e.TickReads? || (e.TickFails? && s.poller.errors + 1 < cfg.maxConsecutiveErrors)
    ensures Decided(cfg, Next(cfg, s, e), e.at)
  {
    if e.TickReads? {
      ReadDecides(cfg, s, e);
    } else {
      FailDecides(cfg, s, e);
    }
  }

  /** The failed ticks since the last one that read. */
  function FailuresInARow(es: seq<Event>): nat {
    if es == [] then 0
    else
      var last := es[|es| - 1];
      if last.TickReads? then 0
      else FailuresInARow(es[..|es| - 1]) + if last.TickFails? then 1 else 0
  }

  lemma {:induction false} RunAppends(cfg: Config, s: State, es: seq<Event>, e: Event)
    requires Valid(cfg, s, es + [e])
    ensures Valid(cfg, s, es) && Enabled(Run(cfg, s, es), e)
    ensures Run(cfg, s, es + [e]) == Next(cfg, Run(cfg, s, es), e)
    decreases |es|
  {
    if es == [] {
      assert ([] + [e])[1..] == [];
    } else {
      assert (es + [e])[1..] == es[1..] + [e];
      RunAppends(cfg, Next(cfg, s, es[0]), es[1..], e);
    }
  }

  lemma StepCountsErrors(cfg: Config, s: State, e: Event)
    requires Enabled(s, e)
    ensures Next(cfg, s, e).poller.errors ==
              if e.TickReads? then 0 else s.poller.errors + if e.TickFails? then 1 else 0
  {
  }

  /** In every run the error count is that of the failed ticks in a row: a tick that reads
      forgives them all. */
  lemma {:induction false} ErrorsAreFailuresInARow(cfg: Config, s: State, es: seq<Event>)
    requires Valid(cfg, s, es) && s.poller.errors == 0
    ensures Run(cfg, s, es).poller.errors == FailuresInARow(es)
    decreases |es|
  {
    if es != [] {
      var front, last := es[..|es| - 1], es[|es| - 1];
      assert es == front + [last];
      RunAppends(cfg, s, front, last);
      ErrorsAreFailuresInARow(cfg, s, front);
      StepCountsErrors(cfg, Run(cfg, s, front), last);
    }
  }

  /** A failed tick closes everyone, without a notice, exactly when it completes
      `maxConsecutiveErrors` failures in a row; that is not an end of the stream. */
  lemma TooManyFailuresClose(cfg: Config, s: State, es: seq<Event>, e: Event)
    requires s.poller.errors == 0 && Valid(cfg, s, es + [e]) && e.TickFails?
    requires var u := Run(cfg, s, es); !u.poller.stopped && u.members != map[] && u.ending == None
    ensures FailuresInARow(es + [e]) >= cfg.maxConsecutiveErrors ==>
              var t := Run(cfg, s, es + [e]); t.members == map[] && t.poller.stopped && t.ending == None
    ensures FailuresInARow(es + [e]) < cfg.maxConsecutiveErrors ==>
              var t := Run(cfg, s, es + [e]); t.poller.stopped <==> t.ending != None
  {
    var u := Run(cfg, s, es);
    RunAppends(cfg, s, es, e);
    ErrorsAreFailuresInARow(cfg, s, es);
    assert (es + [e])[..|es|] == es;
    if u.poller.errors + 1 < cfg.maxConsecutiveErrors {
      var id :| id in u.members;
      assert SomeoneStays(u, e);
      TickDecides(cfg, u, e);
    }
  }

  lemma {:induction false} RunKeepsPeopled(cfg: Config, s: State, es: seq<Event>)
    requires Peopled(s) && Valid(cfg, s, es)
    ensures Peopled(Run(cfg, s, es))
    decreases |es|
  {
    if es != [] {
      StepKeepsPeopled(cfg, s, es[0]);
      RunKeepsPeopled(cfg, Next(cfg, s, es[0]), es[1..]);
    }
  }

  // ---------------------------------------------------------------------
  // What a poller has seen of the root, and that it keeps ticking
  // ---------------------------------------------------------------------

  lemma StepKnowsRoot(cfg: Config, s: State, e: Event)
    requires Sound(SpanHistory(s)) && Enabled(s, e) && RetriesAgree(s.spanLog)
    requires s.poller.rootSeen == HasRoot(s.spanSent)
    ensures Next(cfg, s, e).poller.rootSeen == HasRoot(Next(cfg, s, e).spanSent)
  {
    if e.TickReads? {
      ReadShowsRoot(cfg, s, e);
      RootAfterPoll(SpanHistory(s), e.ns, DELTA_SPAN_CAP, e.spans);
    } else {
      OthersLeaveRoot(cfg, s, e);
    }
  }

  lemma ReadShowsRoot(cfg: Config, s: State, e: Event)
    requires e.TickReads?
    ensures Next(cfg, s, e).spanSent == Polled(SpanHistory(s), e.spans).sent
    ensures Next(cfg, s, e).poller.rootSeen == (s.poller.rootSeen || HasRoot(e.spans))
  {
    AfterReadHistories(cfg, s, e);
  }

  lemma OthersLeaveRoot(cfg: Config, s: State, e: Event)
    requires !e.TickReads?
    ensures Next(cfg, s, e).spanSent == s.spanSent && Next(cfg, s, e).poller.rootSeen == s.poller.rootSeen
  {
  }

  lemma {:induction false} LogOnlyGrows(cfg: Config, s: State, es: seq<Event>)
    requires Valid(cfg, s, es)
    ensures s.spanLog <= Run(cfg, s, es).spanLog
    decreases |es|
  {
    if es != [] {
      LogOnlyGrows(cfg, Next(cfg, s, es[0]), es[1..]);
    }
  }

  /** In every run the poller has seen a root exactly when it broadcast one. */
  lemma {:induction false} RootSeenIsRootSent(cfg: Config, s: State, es: seq<Event>)
    requires Inv(s) && Valid(cfg, s, es) && RetriesAgree(Run(cfg, s, es).spanLog)
    requires s.poller.rootSeen == HasRoot(s.spanSent)
    ensures Run(cfg, s, es).poller.rootSeen == HasRoot(Run(cfg, s, es).spanSent)
    ensures Run(cfg, s, es).poller.rootSeen <==> exists r :: r in Run(cfg, s, es).spanSent && r.root
    decreases |es|
  {
    if es != [] {
      LogOnlyGrows(cfg, s, es);
      assert RetriesAgree(s.spanLog);
      StepKnowsRoot(cfg, s, es[0]);
      StepKeepsInv(cfg, s, es[0]);
      RootSeenIsRootSent(cfg, Next(cfg, s, es[0]), es[1..]);
    }
    RootIsAmong(Run(cfg, s, es).spanSent);
  }

  lemma RootIsAmong(rows: seq<Row>)
    ensures HasRoot(rows) <==> exists r :: r in rows && r.root
  {
    if r :| r in rows && r.root {
      var i :| 0 <= i < |rows| && rows[i] == r;
      assert rows[i].root;
    }
    if HasRoot(rows) {
      var i :| 0 <= i < |rows| && rows[i].root;
      assert rows[i] in rows;
    }
  }

  lemma RootAfterPoll(h: History, n: nat, cap: nat, page: seq<Row>)
    requires Sound(h) && RetriesAgree(h.log) && ReadAt(h, n, cap, page)
    ensures HasRoot(Polled(h, page).sent) == (HasRoot(h.sent) || HasRoot(page))
  {
    var news := Fresh(h.ch, page);
    HasRootGrows(h.sent, news);
    if HasRoot(news) {
      FreshRootIsRead(h.ch, page);
    } else if HasRoot(page) {
      StaleRootWasSent(h, n, cap, page);
    }
  }

  lemma FreshRootIsRead(ch: Channel, page: seq<Row>)
    requires HasRoot(Fresh(ch, page))
    ensures HasRoot(page)
  {
    var news := Fresh(ch, page);
    FreshMembers(ch, page);
    var i :| 0 <= i < |news| && news[i].root;
    assert news[i] in news;
    var j :| 0 <= j < |page| && page[j] == news[i];
  }

  lemma HasRootGrows(a: seq<Row>, b: seq<Row>)
    ensures HasRoot(a + b) <==> HasRoot(a) || HasRoot(b)
  {
    if HasRoot(a) {
      var i :| 0 <= i < |a| && a[i].root;
      assert (a + b)[i].root;
    } else if HasRoot(b) {
      var i :| 0 <= i < |b| && b[i].root;
      assert (a + b)[|a| + i].root;
    }
  }

  lemma StaleRootWasSent(h: History, n: nat, cap: nat, page: seq<Row>)
    requires Sound(h) && RetriesAgree(h.log) && ReadAt(h, n, cap, page) && HasRoot(page) && !HasRoot(Fresh(h.ch, page))
    ensures HasRoot(h.sent)
  {
    var i :| 0 <= i < |page| && page[i].root;
    if IsFresh(h.ch, page[i]) {
      FreshKeeps(h.ch, page, i);
      assert false;
    }
    assert page[i] in h.log[..n];
    BoundaryRowWasSent(h, page[i]);
  }

  lemma BoundaryRowWasSent(h: History, r: Row)
    requires Sound(h) && RetriesAgree(h.log) && r in h.log && r.ms == h.ch.head && r.key in h.ch.boundary
    ensures exists j :: 0 <= j < |h.sent| && h.sent[j] == r
  {
    assert SentAt(h.sent, r.key, h.ch.head);
    var j :| 0 <= j < |h.sent| && h.sent[j].key == r.key && h.sent[j].ms == h.ch.head;
    var k :| 0 <= k < |h.log| && h.log[k] == r;
    var m :| 0 <= m < |h.log| && h.log[m] == h.sent[j];
    assert h.log[m] == h.log[k];
  }

  /** A poller that has not stopped has exactly one of a pending timer and a fetch
      in flight, and a stopped one has no timer: its polling neither forks nor
      dies while someone listens. */
  predicate KeepsTicking(p: Poller) {
    if p.stopped then p.timer == None else p.timer.Some? != p.polling
  }

  lemma StepKeepsTicking(cfg: Config, s: State, e: Event)
    requires KeepsTicking(s.poller) && Enabled(s, e)
    ensures KeepsTicking(Next(cfg, s, e).poller)
  {
  }

  // ---------------------------------------------------------------------
  // Polling is independent of the audience
  // ---------------------------------------------------------------------

  /** What a run's ticks look like when the subscribers are left out. */
  datatype LoopEvent = Starts(at: int) | Reads(at: int, spans: seq<Row>, evals: seq<Row>) | Fails(at: int)

  function LoopStep(e: Event): seq<LoopEvent> {
    match e
    case TickStarts(at) => [Starts(at)]
    case TickReads(at, _, spans, _, evals, _) => [Reads(at, spans, evals)]
    case TickFails(at) => [Fails(at)]
    case _ => []
  }

  function LoopOf(es: seq<Event>): seq<LoopEvent> {
    if es == [] then [] else LoopStep(es[0]) + LoopOf(es[1..])
  }

  /** The loop alone: the poller's state and the fetches it issues. */
  function Loop(cfg: Config, p: Poller, ls: seq<LoopEvent>): (Poller, seq<(int, Cursor)>)
    decreases |ls|
  {
    if ls == [] then (p, [])
    else match ls[0]
      case Starts(at) =>
        var rest := Loop(cfg, p.(timer := None, polling := true), ls[1..]);
        (rest.0, [(at, p.Head())] + rest.1)
      case Reads(at, spans, evals) =>
        Loop(cfg, AfterRead(cfg, p, DeltaOf(p.Head(), spans, evals), at, false), ls[1..])
      case Fails(at) => Loop(cfg, AfterFailure(cfg, p, at), ls[1..])
  }

  /** No step of the run takes the last subscriber away other than by a tick's own
      verdict or failure. */
  ghost predicate NeverEmptied(cfg: Config, s: State, es: seq<Event>)
    decreases |es|
  {
    es == [] ||
    (!Empties(cfg, s, es[0]) && NeverEmptied(cfg, Next(cfg, s, es[0]), es[1..]))
  }

  predicate Empties(cfg: Config, s: State, e: Event) {
    match e
    case TickReads(at, _, spans, _, evals, refused) =>
      var news := TrimmedDelta(s.poller, DeltaOf(s.poller.Head(), spans, evals));
      !s.poller.stopped && Delivered(s.members, news.spans, news.evals, refused) == map[]
    case CatchesUp(_, _, _, _, _, _) => !s.poller.stopped && Next(cfg, s, e).members == map[]
    case CatchUpFails(_) => !s.poller.stopped && Next(cfg, s, e).members == map[]
    case Leaves(_) => !s.poller.stopped && Next(cfg, s, e).members == map[]
    case _ => false
  }

  lemma {:induction false} RunFollowsLoop(cfg: Config, s: State, es: seq<Event>)
    requires Peopled(s) && KeepsTicking(s.poller) && Valid(cfg, s, es) && NeverEmptied(cfg, s, es)
    ensures Run(cfg, s, es).poller == Loop(cfg, s.poller, LoopOf(es)).0
    ensures Run(cfg, s, es).fetches == s.fetches + Loop(cfg, s.poller, LoopOf(es)).1
    decreases |es|
  {
    if es != [] {
      var e, t := es[0], Next(cfg, s, es[0]);
      StepKeepsPeopled(cfg, s, e);
      StepKeepsTicking(cfg, s, e);
      RunFollowsLoop(cfg, t, es[1..]);
      StepFollowsLoop(cfg, s, e, LoopOf(es[1..]));
    }
  }

  lemma StepFollowsLoop(cfg: Config, s: State, e: Event, rest: seq<LoopEvent>)
    requires Peopled(s) && KeepsTicking(s.poller) && Enabled(s, e) && !Empties(cfg, s, e)
    ensures var t := Next(cfg, s, e);
            && Loop(cfg, s.poller, LoopStep(e) + rest).0 == Loop(cfg, t.poller, rest).0
            && s.fetches + Loop(cfg, s.poller, LoopStep(e) + rest).1 == t.fetches + Loop(cfg, t.poller, rest).1
  {
    var head := LoopStep(e);
    if head != [] {
      assert (head + rest)[0] == head[0] && (head + rest)[1..] == rest;
    } else {
      assert head + rest == rest;
    }
  }

  /** Two runs with the same clock and the same fetch results issue the same loop
      fetches, times and cursors, whatever their subscribers do. */
  lemma SameFetchesWhateverTheAudience(cfg: Config, s: State, t: State, es: seq<Event>, fs: seq<Event>)
    requires Peopled(s) && KeepsTicking(s.poller) && Valid(cfg, s, es) && NeverEmptied(cfg, s, es)
    requires Peopled(t) && KeepsTicking(t.poller) && Valid(cfg, t, fs) && NeverEmptied(cfg, t, fs)
    requires s.poller == t.poller && s.fetches == t.fetches && LoopOf(es) == LoopOf(fs)
    ensures Run(cfg, s, es).fetches == Run(cfg, t, fs).fetches
    ensures Run(cfg, s, es).poller == Run(cfg, t, fs).poller
  {
    RunFollowsLoop(cfg, s, es);
    RunFollowsLoop(cfg, t, fs);
  }

  /** Catch-ups add at most one fetch a subscribe, and only for a joiner behind. */
  lemma {:induction false} CatchUpsAreBounded(cfg: Config, s: State, es: seq<Event>)
    requires Valid(cfg, s, es)
    ensures 0 <= Run(cfg, s, es).catchUps - s.catchUps <= Run(cfg, s, es).joins - s.joins
    ensures Run(cfg, s, es).joins - s.joins == Joined(es)
    decreases |es|
  {
    if es != [] {
      CatchUpsAreBounded(cfg, Next(cfg, s, es[0]), es[1..]);
    }
  }

  function Joined(es: seq<Event>): nat {
    if es == [] then 0 else (if es[0].Joins? then 1 else 0) + Joined(es[1..])
  }
}
