/** The objects of the broker follow the step system: what a poller and its
    connections show moves, callback by callback, as the system's events say. */
module LiveSimulation {
  import opened Wrappers
  import opened LiveDeltas
  import opened DeltaChannel
  import opened PollerSpec
  import opened LiveProtocol
  import opened LiveDelivery
  import opened BrokerSpec
  import B = LiveBroker

  /** What a poller shows: its own state, and the deltas each subscriber received. */
  datatype Shot<!C> = Shot(poller: Poller, received: map<C, seq<Delta>>)

  ghost function SpansOf(ds: seq<Delta>): seq<Row> {
    if ds == [] then [] else SpansOf(ds[..|ds| - 1]) + ds[|ds| - 1].spans
  }

  ghost function EvalsOf(ds: seq<Delta>): seq<Row> {
    if ds == [] then [] else EvalsOf(ds[..|ds| - 1]) + ds[|ds| - 1].evals
  }

  lemma OneMore(ds: seq<Delta>, d: Delta)
    ensures SpansOf(ds + [d]) == SpansOf(ds) + d.spans && EvalsOf(ds + [d]) == EvalsOf(ds) + d.evals
  {
    assert (ds + [d])[..|ds|] == ds;
  }

  /** A member holds the rows of the deltas `ds`. */
  ghost predicate Holds(m: Member, ds: seq<Delta>) {
    m.spans.got == SpansOf(ds) && m.evals.got == EvalsOf(ds)
  }

  ghost function IdsOf<C>(cs: set<C>, ids: map<C, nat>): set<nat>
    requires cs <= ids.Keys
  {
    set c | c in cs :: ids[c]
  }

  /** Every connection ever attached has its own member id. */
  ghost predicate Numbered<C>(ids: map<C, nat>, used: set<nat>) {
    && (forall c :: c in ids ==> ids[c] in used)
    && (forall c, d :: c in ids && d in ids && ids[c] == ids[d] ==> c == d)
  }

  /** The members of the state are the subscribers, each holding what it received. */
  ghost predicate Mimics<C>(a: Shot<C>, s: State, ids: map<C, nat>) {
    && s.poller == a.poller && Numbered(ids, s.used)
    && a.received.Keys <= ids.Keys && s.members.Keys == IdsOf(a.received.Keys, ids)
    && (forall c :: c in a.received ==> Holds(s.members[ids[c]], a.received[c]))
  }

  // ---------------------------------------------------------------------
  // One lemma an event
  // ---------------------------------------------------------------------

  ghost function FirstShot<C>(cursor: Cursor, c: C, now: int): Shot<C> {
    Shot(PollerSpec.Opened(cursor, now).(timer := Some(now)), map[c := []])
  }

  lemma OpenMimicked<C>(b: Shot<C>, c: C, id: nat, cursor: Cursor, now: int, spanLog: seq<Row>, evalLog: seq<Row>)
    requires b == FirstShot(cursor, c, now)
    ensures Mimics(b, Open(id, cursor, now, spanLog, evalLog), map[c := id])
  {
    assert IdsOf({c}, map[c := id]) == {id} by { assert c in {c}; }
    assert b.received.Keys == {c};
  }

  lemma TickStartMimicked<C>(cfg: Config, a: Shot<C>, s: State, ids: map<C, nat>, at: int)
    requires Mimics(a, s, ids)
    ensures Mimics(a.(poller := a.poller.(timer := None, polling := true)), Next(cfg, s, TickStarts(at)), ids)
  {
  }

  /** What a broadcast leaves: some subscribers, with one more delta if it is news. */
  ghost predicate Broadcasted<C>(a: map<C, seq<Delta>>, b: map<C, seq<Delta>>, news: Delta) {
    forall c :: c in b ==> c in a && b[c] == a[c] + (if HasNews(news) then [news] else [])
  }

  lemma DeliveredHolds(m: Member, ds: seq<Delta>, news: Delta)
    requires Holds(m, ds)
    ensures Holds(m.(spans := Given(m.spans, news.spans), evals := Given(m.evals, news.evals)),
                  ds + (if HasNews(news) then [news] else []))
  {
    if HasNews(news) {
      OneMore(ds, news);
    } else {
      assert ds + [] == ds;
    }
  }

  /** The members that did not take the news. */
  ghost function Refused<C>(a: Shot<C>, b: Shot<C>, ids: map<C, nat>): set<nat>
    requires a.received.Keys <= ids.Keys
  {
    IdsOf(a.received.Keys - b.received.Keys, ids)
  }

  /** After the broadcast the members are those who took the news. */
  lemma DeliveredMimicked<C>(a: Shot<C>, b: Shot<C>, s: State, ids: map<C, nat>, news: Delta)
    requires Mimics(a, s, ids) && Broadcasted(a.received, b.received, news)
    ensures var members := Delivered(s.members, news.spans, news.evals, Refused(a, b, ids));
            && b.received.Keys <= ids.Keys && members.Keys == IdsOf(b.received.Keys, ids)
            && (forall c :: c in b.received ==> Holds(members[ids[c]], b.received[c]))
  {
    var members := Delivered(s.members, news.spans, news.evals, Refused(a, b, ids));
    forall c | c in b.received
      ensures c in ids && ids[c] in members && Holds(members[ids[c]], b.received[c])
    {
      assert ids[c] in s.members;
      DeliveredHolds(s.members[ids[c]], a.received[c], news);
    }
    forall id | id in members ensures id in IdsOf(b.received.Keys, ids) {
      var c :| c in a.received && ids[c] == id;
      assert c in b.received;
    }
  }

  /** The subscribers of a stopped poller are gone, and only then. */
  ghost predicate Settled<C>(a: Shot<C>) {
    (a.poller.stopped <==> a.received == map[]) && (a.poller.stopped ==> a.poller.timer == None)
  }

  /** What one tick makes of a shot, given what its two reads returned. */
  ghost predicate Ticked<C>(cfg: Config, a: Shot<C>, b: Shot<C>, d: Delta, at: int, emptied: bool) {
    var news := TrimmedDelta(a.poller, d);
    && b.poller == AfterRead(cfg, a.poller, d, at, emptied) && Settled(a) && Settled(b)
    && Broadcasted(a.received, b.received, news)
    && (emptied ==> !a.poller.stopped && HasNews(news))
    && (!HasNews(news) && !b.poller.stopped ==> b.received.Keys == a.received.Keys)
  }

  /** Those who refused the news: everyone when the broadcast emptied the poller, no
      one is left to tell when the verdict then ended it. */
  ghost function RefusedIn<C>(a: Shot<C>, b: Shot<C>, ids: map<C, nat>, emptied: bool): set<nat>
    requires a.received.Keys <= ids.Keys
  {
    if b.poller.stopped && !emptied then {} else Refused(a, b, ids)
  }

  /** A tick follows the event of its two reads. */
  lemma TickReadMimicked<C>(cfg: Config, a: Shot<C>, b: Shot<C>, s: State, ids: map<C, nat>, at: int, ns: nat,
                                  spans: seq<Row>, ne: nat, evals: seq<Row>, emptied: bool)
    requires Mimics(a, s, ids) && Ticked(cfg, a, b, DeltaOf(a.poller.Head(), spans, evals), at, emptied)
    ensures var refused := RefusedIn(a, b, ids, emptied);
            && refused <= s.members.Keys
            && (refused != {} ==> HasNews(TrimmedDelta(s.poller, DeltaOf(s.poller.Head(), spans, evals))))
            && Mimics(b, Next(cfg, s, TickReads(at, ns, spans, ne, evals, refused)), ids)
  {
    RefusedAreMembers(cfg, a, b, s, ids, DeltaOf(a.poller.Head(), spans, evals), at, emptied);
    if b.poller.stopped {
      StoppedTick(cfg, a, b, s, ids, at, ns, spans, ne, evals, emptied);
    } else {
      assert !emptied;
      RunningTick(cfg, a, b, s, ids, at, ns, spans, ne, evals, emptied);
    }
  }

  lemma RefusedAreMembers<C>(cfg: Config, a: Shot<C>, b: Shot<C>, s: State, ids: map<C, nat>, d: Delta, at: int,
                                   emptied: bool)
    requires Mimics(a, s, ids) && Ticked(cfg, a, b, d, at, emptied)
    ensures RefusedIn(a, b, ids, emptied) <= s.members.Keys
    ensures RefusedIn(a, b, ids, emptied) != {} ==> HasNews(TrimmedDelta(s.poller, d))
  {
    if !HasNews(TrimmedDelta(s.poller, d)) && !b.poller.stopped {
      assert a.received.Keys - b.received.Keys == {};
    }
  }

  lemma RunningTick<C>(cfg: Config, a: Shot<C>, b: Shot<C>, s: State, ids: map<C, nat>, at: int, ns: nat,
                             spans: seq<Row>, ne: nat, evals: seq<Row>, emptied: bool)
    requires Mimics(a, s, ids) && Ticked(cfg, a, b, DeltaOf(a.poller.Head(), spans, evals), at, emptied)
    requires !b.poller.stopped && !emptied
    ensures Mimics(b, Next(cfg, s, TickReads(at, ns, spans, ne, evals, Refused(a, b, ids))), ids)
  {
    var d := DeltaOf(a.poller.Head(), spans, evals);
    var news := TrimmedDelta(a.poller, d);
    DeliveredMimicked(a, b, s, ids, news);
    var members := Delivered(s.members, news.spans, news.evals, Refused(a, b, ids));
    var c :| c in b.received;
    assert ids[c] in IdsOf(b.received.Keys, ids);
    RunningNext(cfg, s, at, ns, spans, ne, evals, Refused(a, b, ids));
  }

  /** A tick that leaves members and does not end the poller. */
  lemma RunningNext(cfg: Config, s: State, at: int, ns: nat, spans: seq<Row>, ne: nat, evals: seq<Row>,
                    refused: set<nat>)
    requires var d := DeltaOf(s.poller.Head(), spans, evals); var news := TrimmedDelta(s.poller, d);
             Delivered(s.members, news.spans, news.evals, refused) != map[] &&
             !AfterRead(cfg, s.poller, d, at, false).stopped
    ensures var d := DeltaOf(s.poller.Head(), spans, evals); var news := TrimmedDelta(s.poller, d);
            var t := Next(cfg, s, TickReads(at, ns, spans, ne, evals, refused));
            && t.poller == AfterRead(cfg, s.poller, d, at, false) && t.used == s.used
            && t.members == Delivered(s.members, news.spans, news.evals, refused)
  {
  }

  lemma StoppedTick<C>(cfg: Config, a: Shot<C>, b: Shot<C>, s: State, ids: map<C, nat>, at: int, ns: nat,
                             spans: seq<Row>, ne: nat, evals: seq<Row>, emptied: bool)
    requires Mimics(a, s, ids) && Ticked(cfg, a, b, DeltaOf(a.poller.Head(), spans, evals), at, emptied)
    requires b.poller.stopped
    ensures var refused := RefusedIn(a, b, ids, emptied);
            Mimics(b, Next(cfg, s, TickReads(at, ns, spans, ne, evals, refused)), ids)
  {
    var d := DeltaOf(a.poller.Head(), spans, evals);
    var news := TrimmedDelta(a.poller, d);
    DeliveredMimicked(a, b, s, ids, news);
    assert b.received == map[];
    var members := Delivered(s.members, news.spans, news.evals, RefusedIn(a, b, ids, emptied));
    if emptied {
      assert a.received.Keys - b.received.Keys == a.received.Keys;
      assert members == map[];
    } else {
      assert members.Keys == s.members.Keys;
    }
  }

  lemma TickFailMimicked<C>(cfg: Config, a: Shot<C>, s: State, ids: map<C, nat>, at: int)
    requires Mimics(a, s, ids) && Settled(a)
    ensures var p := AfterFailure(cfg, a.poller, at);
            Mimics(Shot(p, if p.stopped then map[] else a.received), Next(cfg, s, TickFails(at)), ids)
  {
  }

  lemma JoinMimicked<C>(cfg: Config, a: Shot<C>, s: State, ids: map<C, nat>, c: C, id: nat, cursor: Cursor)
    requires Mimics(a, s, ids) && c !in ids && id !in s.used
    ensures Mimics(a.(received := a.received[c := []]), Next(cfg, s, Joins(id, cursor)), ids[c := id])
  {
    var b, t, more := a.received[c := []], Next(cfg, s, Joins(id, cursor)), ids[c := id];
    forall n ensures n in t.members <==> n in IdsOf(b.Keys, more) {
      if n in t.members && n != id {
        var d :| d in a.received && ids[d] == n;
        assert d in b && more[d] == n;
      }
      if n == id {
        assert c in b && more[c] == n;
      }
    }
  }

  /** A shot without one subscriber: the last one out stops the poller. */
  ghost function Fewer<C>(a: Shot<C>, c: C): Shot<C> {
    var rest := a.received - {c};
    Shot(if rest == map[] then Stopped(a.poller) else a.poller, rest)
  }

  lemma LeaveMimicked<C>(a: Shot<C>, s: State, ids: map<C, nat>, c: C)
    requires Mimics(a, s, ids) && c in a.received
    ensures ids[c] in s.members && Mimics(Fewer(a, c), Without(s, ids[c]), ids)
  {
    var rest, members := a.received - {c}, s.members - {ids[c]};
    forall n ensures n in members <==> n in IdsOf(rest.Keys, ids) {
      if n in members {
        var d :| d in a.received && ids[d] == n;
        assert d in rest;
      }
    }
    assert members == map[] <==> rest == map[] by {
      if d :| d in rest {
        assert ids[d] in IdsOf(rest.Keys, ids);
      }
    }
  }

  lemma CatchUpMimicked<C>(cfg: Config, a: Shot<C>, s: State, ids: map<C, nat>, c: C, ns: nat, spans: seq<Row>,
                                 ne: nat, evals: seq<Row>, d: Delta)
    requires Mimics(a, s, ids) && c in a.received && d.spans == spans && d.evals == evals
    ensures var b := a.(received := a.received[c := a.received[c] + (if HasNews(d) then [d] else [])]);
            Mimics(b, Next(cfg, s, CatchesUp(ids[c], ns, spans, ne, evals, true)), ids)
  {
    assert ids[c] in s.members;
    DeliveredHolds(s.members[ids[c]], a.received[c], d);
    assert a.received[c := a.received[c] + (if HasNews(d) then [d] else [])].Keys == a.received.Keys;
  }

  // ---------------------------------------------------------------------
  // One callback of the event loop, one event
  // ---------------------------------------------------------------------

  ghost function Shown(p: B.TracePoller): Shot<B.Connection>
    reads p, p.subscribers
  {
    Shot(p.View(), map c | c in p.subscribers :: c.received)
  }

  /** The poller and its connections show what the state says. */
  ghost predicate Follows(p: B.TracePoller, s: State, ids: map<B.Connection, nat>)
    reads p, p.subscribers, p.broker, p.broker.table.Keys, p.broker.conns.Keys
  {
    p.broker.Valid() && p in p.broker.table && Mimics(Shown(p), s, ids)
  }

  lemma ShownIsSettled(p: B.TracePoller)
    requires p.broker.Valid() && p in p.broker.table
    ensures Settled(Shown(p))
  {
    p.StoppedIffEmpty();
    assert Shown(p).received.Keys == p.subscribers;
  }

  lemma ShownIs(p: B.TracePoller, b: Shot<B.Connection>)
    requires p.View() == b.poller && p.subscribers == b.received.Keys
    requires forall c :: c in p.subscribers ==> c.received == b.received[c]
    ensures Shown(p) == b
  {
  }

  method JoinKeeping(p: B.TracePoller, cursor: Cursor, c: B.Connection, now: int) returns (catchUp: bool)
    requires p.broker.Valid() && p in p.broker.table
    requires p.traceId in p.broker.pollers && p.broker.pollers[p.traceId] == p
    requires c !in p.broker.conns && p.broker.Pristine(c) && c.released == 0 && c.received == []
    requires CanAccept(p.broker.config, p.broker.State(), p.traceId)
    modifies p.broker, c`poller, c`subscribed, p`subscribers, p`timer
    ensures p.broker.Valid() && p in p.broker.table && catchUp == Behind(cursor, p.head)
    ensures p.View() == old(p.View()) && p.subscribers == old(p.subscribers) + {c} && c.received == []
    ensures forall d :: d in old(p.subscribers) ==> d.received == old(d.received)
  {
    catchUp := p.broker.JoinExisting(p, p.traceId, cursor, c, now);
  }

  method JoinShown(p: B.TracePoller, cursor: Cursor, c: B.Connection, now: int) returns (catchUp: bool)
    requires p.broker.Valid() && p in p.broker.table
    requires p.traceId in p.broker.pollers && p.broker.pollers[p.traceId] == p
    requires c !in p.broker.conns && p.broker.Pristine(c) && c.released == 0 && c.received == []
    requires CanAccept(p.broker.config, p.broker.State(), p.traceId)
    modifies p.broker, c`poller, c`subscribed, p`subscribers, p`timer
    ensures p.broker.Valid() && p in p.broker.table && catchUp == Behind(cursor, p.head)
    ensures Shown(p) == old(Shown(p)).(received := old(Shown(p)).received[c := []])
  {
    ghost var b := Shown(p).(received := Shown(p).received[c := []]);
    catchUp := JoinKeeping(p, cursor, c, now);
    ShownIs(p, b);
  }

  /** A fresh connection joins the running poller of its trace. */
  method Join(p: B.TracePoller, cursor: Cursor, c: B.Connection, now: int, ghost id: nat, ghost s: State,
              ghost ids: map<B.Connection, nat>)
    returns (catchUp: bool)
    requires Follows(p, s, ids) && p.traceId in p.broker.pollers && p.broker.pollers[p.traceId] == p && !p.stopped
    requires c !in p.broker.conns && p.broker.Pristine(c) && c.released == 0 && c.received == []
    requires CanAccept(p.broker.config, p.broker.State(), p.traceId) && c !in ids && id !in s.used
    modifies p.broker, c`poller, c`subscribed, p`subscribers, p`timer
    ensures Enabled(s, Joins(id, cursor)) && Follows(p, Next(p.broker.config, s, Joins(id, cursor)), ids[c := id])
    ensures catchUp == Next(p.broker.config, s, Joins(id, cursor)).members[id].waiting
  {
    JoinMimicked(p.broker.config, Shown(p), s, ids, c, id, cursor);
    catchUp := JoinShown(p, cursor, c, now);
  }

  method StartShown(p: B.TracePoller) returns (from: Cursor)
    requires p.broker.Valid() && p in p.broker.table && p.timer.Some?
    modifies p`timer, p`polling, p.broker`table
    ensures p.broker.Valid() && p in p.broker.table && from == p.head
    ensures Shown(p) == old(Shown(p)).(poller := old(p.View()).(timer := None, polling := true))
  {
    from := p.TimerFires();
  }

  /** The timer of the next tick fires. */
  method StartTick(p: B.TracePoller, at: int, ghost s: State, ghost ids: map<B.Connection, nat>) returns (from: Cursor)
    requires Follows(p, s, ids) && p.timer.Some? && p.timer.value <= at && s.now <= at
    modifies p`timer, p`polling, p.broker`table
    ensures Enabled(s, TickStarts(at)) && Follows(p, Next(p.broker.config, s, TickStarts(at)), ids)
    ensures from == s.poller.Head()
  {
    TickStartMimicked(p.broker.config, Shown(p), s, ids, at);
    from := StartShown(p);
  }

  method ReadShown(p: B.TracePoller, fetched: Delta, at: int) returns (ghost emptied: bool)
    requires p.broker.Valid() && p in p.broker.table && p.polling
    modifies p, p.subscribers, p.broker`fetchCount
    modifies p.broker`pollers, p.broker`subscriberCount, p.broker`table, p.broker`conns
    ensures p.broker.Valid() && p in p.broker.table
    ensures Ticked(p.broker.config, old(Shown(p)), Shown(p), fetched, at, emptied)
  {
    ShownIsSettled(p);
    emptied := p.TickFetched(fetched, at);
    ShownIsSettled(p);
  }

  /** The two reads of a tick have returned: it follows the event in which those refuse
      the news whom the broadcast lost. */
  method FinishTick(p: B.TracePoller, at: int, ghost ns: nat, spans: seq<Row>, ghost ne: nat, evals: seq<Row>,
                    ghost s: State, ghost ids: map<B.Connection, nat>)
    returns (ghost e: Event)
    requires Follows(p, s, ids) && p.polling && Enabled(s, TickReads(at, ns, spans, ne, evals, {}))
    modifies p, p.subscribers, p.broker`fetchCount
    modifies p.broker`pollers, p.broker`subscriberCount, p.broker`table, p.broker`conns
    ensures e.TickReads? && e == TickReads(at, ns, spans, ne, evals, e.refused)
    ensures Enabled(s, e) && Follows(p, Next(p.broker.config, s, e), ids)
  {
    ghost var a := Shown(p);
    ghost var emptied := ReadShown(p, DeltaOf(p.head, spans, evals), at);
    TickReadMimicked(p.broker.config, a, Shown(p), s, ids, at, ns, spans, ne, evals, emptied);
    e := TickReads(at, ns, spans, ne, evals, RefusedIn(a, Shown(p), ids, emptied));
  }

  method FailShown(p: B.TracePoller, at: int)
    requires p.broker.Valid() && p in p.broker.table && p.polling
    modifies p, p.subscribers
    modifies p.broker`pollers, p.broker`subscriberCount, p.broker`table, p.broker`conns
    ensures p.broker.Valid() && p in p.broker.table
    ensures var q := AfterFailure(p.broker.config, old(Shown(p)).poller, at);
            Shown(p) == Shot(q, if q.stopped then map[] else old(Shown(p)).received)
  {
    ghost var q := AfterFailure(p.broker.config, p.View(), at);
    ghost var b := Shot(q, if q.stopped then map[] else Shown(p).received);
    p.TickFailed(at);
    ShownIs(p, b);
  }

  /** A read of a tick has failed. */
  method FailTick(p: B.TracePoller, at: int, ghost s: State, ghost ids: map<B.Connection, nat>)
    requires Follows(p, s, ids) && p.polling && s.now <= at
    modifies p, p.subscribers
    modifies p.broker`pollers, p.broker`subscriberCount, p.broker`table, p.broker`conns
    ensures Enabled(s, TickFails(at)) && Follows(p, Next(p.broker.config, s, TickFails(at)), ids)
  {
    ShownIsSettled(p);
    TickFailMimicked(p.broker.config, Shown(p), s, ids, at);
    FailShown(p, at);
  }

  method OpenShown(b: B.Broker, traceId: string, cursor: Cursor, c: B.Connection, now: int) returns (p: B.TracePoller)
    requires b.Valid() && traceId !in b.pollers && c !in b.conns && b.Pristine(c) && c.released == 0 && c.received == []
    requires CanAccept(b.config, b.State(), traceId)
    modifies b, c`poller, c`subscribed
    ensures b.Valid() && p in b.table && p.broker == b
    ensures Shown(p) == FirstShot(cursor, c, now)
  {
    p := b.JoinNew(traceId, cursor, c, now);
    ShownIs(p, FirstShot(cursor, c, now));
  }

  /** The first subscriber opens the poller of its trace. */
  method OpenFirst(b: B.Broker, traceId: string, cursor: Cursor, c: B.Connection, now: int, ghost id: nat,
                   ghost spanLog: seq<Row>, ghost evalLog: seq<Row>)
    returns (p: B.TracePoller)
    requires b.Valid() && traceId !in b.pollers && c !in b.conns && b.Pristine(c) && c.released == 0 && c.received == []
    requires CanAccept(b.config, b.State(), traceId)
    modifies b, c`poller, c`subscribed
    ensures p.broker == b && Follows(p, Open(id, cursor, now, spanLog, evalLog), map[c := id])
  {
    p := OpenShown(b, traceId, cursor, c, now);
    OpenMimicked(Shown(p), c, id, cursor, now, spanLog, evalLog);
  }

  lemma TornVal<P, C>(cfg: Config, r: Registry<P, C>, p: P, c: C)
    requires Consistent(cfg, r) && p in r.table && c in r.table[p].subs
    ensures c in r.conns && r.conns[c].home == p && p in TornDown(r, c).table
    ensures TornDown(r, c).table[p] == Thinner(r.table[p], r.table[p].subs - {c})
  {
    assert PollerOk(cfg, r, p);
    TearDownReleases(cfg, r, c);
  }

  method AbortThins(p: B.TracePoller, c: B.Connection)
    requires p.broker.Valid() && p in p.broker.table && c in p.subscribers && Attached(p, c)
    modifies c`closed, c`heartbeat, c`done, c`released
    modifies p`subscribers, p`timer, p`stopped
    modifies p.broker`pollers, p.broker`subscriberCount, p.broker`table, p.broker`conns
    ensures p.broker.Valid() && p in p.broker.table
    ensures p.Val() == Thinner(old(p.Val()), old(p.subscribers) - {c})
  {
    TornVal(p.broker.config, p.broker.State(), p, c);
    c.Abort();
  }

  method AbortKeeping(p: B.TracePoller, c: B.Connection)
    requires p.broker.Valid() && p in p.broker.table && c in p.subscribers && Attached(p, c)
    modifies c`closed, c`heartbeat, c`done, c`released
    modifies p`subscribers, p`timer, p`stopped
    modifies p.broker`pollers, p.broker`subscriberCount, p.broker`table, p.broker`conns
    ensures p.broker.Valid() && p in p.broker.table
    ensures p.Val() == Thinner(old(p.Val()), old(p.subscribers) - {c})
    ensures p.View() == old(p.View()).(timer := p.timer, stopped := p.stopped)
    ensures forall e :: e in old(p.subscribers) && e != c ==> e.received == old(e.received)
  {
    AbortThins(p, c);
  }

  ghost predicate Attached(p: B.TracePoller, c: B.Connection)
    reads c, p.broker
  {
    c.poller == p && c.broker == p.broker && c in p.broker.conns
  }

  lemma SubscribersAreAttached(p: B.TracePoller, c: B.Connection)
    requires p.broker.Valid() && p in p.broker.table && c in p.subscribers
    ensures Attached(p, c)
  {
    assert PollerOk(p.broker.config, p.broker.State(), p);
  }

  /** The registry's value of a poller and its shot agree. */
  ghost predicate Agree(v: PollerVal<B.Connection>, a: Shot<B.Connection>) {
    v.subs == a.received.Keys && v.timer == a.poller.timer && v.stopped == a.poller.stopped
  }

  lemma FewerShown(p: B.TracePoller, a: Shot<B.Connection>, v: PollerVal<B.Connection>, c: B.Connection)
    requires Agree(v, a) && p.Val() == Thinner(v, v.subs - {c})
    requires p.View() == a.poller.(timer := p.timer, stopped := p.stopped)
    requires forall d :: d in a.received && d != c ==> d.received == a.received[d]
    ensures Shown(p) == Fewer(a, c)
  {
    assert a.received - {c} == map[] <==> a.received.Keys - {c} == {} by {
      assert (a.received - {c}).Keys == a.received.Keys - {c};
    }
  }

  method AbortShown(p: B.TracePoller, c: B.Connection)
    requires p.broker.Valid() && p in p.broker.table && c in p.subscribers && Attached(p, c)
    modifies c`closed, c`heartbeat, c`done, c`released
    modifies p`subscribers, p`timer, p`stopped
    modifies p.broker`pollers, p.broker`subscriberCount, p.broker`table, p.broker`conns
    ensures p.broker.Valid() && p in p.broker.table && Shown(p) == Fewer(old(Shown(p)), c)
  {
    ghost var a, v := Shown(p), p.Val();
    AbortKeeping(p, c);
    FewerShown(p, a, v, c);
  }

  /** The client of a subscriber goes away. */
  method Leave(p: B.TracePoller, c: B.Connection, ghost s: State, ghost ids: map<B.Connection, nat>)
    requires Follows(p, s, ids) && c in p.subscribers
    modifies c`closed, c`heartbeat, c`done, c`released
    modifies p`subscribers, p`timer, p`stopped
    modifies p.broker`pollers, p.broker`subscriberCount, p.broker`table, p.broker`conns
    ensures c in ids && Enabled(s, Leaves(ids[c])) && Follows(p, Next(p.broker.config, s, Leaves(ids[c])), ids)
  {
    SubscribersAreAttached(p, c);
    LeaveMimicked(Shown(p), s, ids, c);
    AbortShown(p, c);
  }

  method FailCatchUpThins(p: B.TracePoller, c: B.Connection)
    requires p.broker.Valid() && p in p.broker.table && c in p.subscribers && Attached(p, c)
    modifies p`subscribers, p`timer, p`stopped, c
    modifies p.broker`pollers, p.broker`subscriberCount, p.broker`table, p.broker`conns
    ensures p.broker.Valid() && p in p.broker.table
    ensures p.Val() == Thinner(old(p.Val()), old(p.subscribers) - {c})
  {
    TornVal(p.broker.config, p.broker.State(), p, c);
    p.CatchUpFailed(c);
  }

  method FailCatchUpKeeping(p: B.TracePoller, c: B.Connection)
    requires p.broker.Valid() && p in p.broker.table && c in p.subscribers && Attached(p, c)
    modifies p`subscribers, p`timer, p`stopped, c
    modifies p.broker`pollers, p.broker`subscriberCount, p.broker`table, p.broker`conns
    ensures p.broker.Valid() && p in p.broker.table
    ensures p.Val() == Thinner(old(p.Val()), old(p.subscribers) - {c})
    ensures p.View() == old(p.View()).(timer := p.timer, stopped := p.stopped)
    ensures forall e :: e in old(p.subscribers) && e != c ==> e.received == old(e.received)
  {
    FailCatchUpThins(p, c);
  }

  method FailCatchUpShown(p: B.TracePoller, c: B.Connection)
    requires p.broker.Valid() && p in p.broker.table && c in p.subscribers && Attached(p, c)
    modifies p`subscribers, p`timer, p`stopped, c
    modifies p.broker`pollers, p.broker`subscriberCount, p.broker`table, p.broker`conns
    ensures p.broker.Valid() && p in p.broker.table && Shown(p) == Fewer(old(Shown(p)), c)
  {
    ghost var a, v := Shown(p), p.Val();
    FailCatchUpKeeping(p, c);
    FewerShown(p, a, v, c);
  }

  /** The catch-up read of a subscriber has failed. */
  method FailCatchUp(p: B.TracePoller, c: B.Connection, ghost s: State, ghost ids: map<B.Connection, nat>)
    requires Follows(p, s, ids) && c in p.subscribers && c in ids && ids[c] in s.members
    requires s.members[ids[c]].waiting
    modifies p`subscribers, p`timer, p`stopped, c
    modifies p.broker`pollers, p.broker`subscriberCount, p.broker`table, p.broker`conns
    ensures Enabled(s, CatchUpFails(ids[c])) && Follows(p, Next(p.broker.config, s, CatchUpFails(ids[c])), ids)
  {
    SubscribersAreAttached(p, c);
    LeaveMimicked(Shown(p), s, ids, c);
    FailCatchUpShown(p, c);
  }

  method CatchUpShown(p: B.TracePoller, c: B.Connection, d: Delta) returns (ghost kept: bool)
    requires p.broker.Valid() && p in p.broker.table && c in p.subscribers && Attached(p, c)
    modifies p`subscribers, p`timer, p`stopped, c, p.broker`fetchCount
    modifies p.broker`pollers, p.broker`subscriberCount, p.broker`table, p.broker`conns
    ensures p.broker.Valid() && p in p.broker.table && (!kept ==> HasNews(d))
    ensures var a := old(Shown(p));
            Shown(p) == if kept then a.(received := a.received[c := a.received[c] + (if HasNews(d) then [d] else [])])
                        else Fewer(a, c)
  {
    ghost var a, v := Shown(p), p.Val();
    CatchUpKeeping(p, c, d);
    kept := c in p.subscribers;
    if kept {
      ShownIs(p, a.(received := a.received[c := a.received[c] + (if HasNews(d) then [d] else [])]));
    } else {
      FewerShown(p, a, v, c);
    }
  }

  method CatchUpThins(p: B.TracePoller, c: B.Connection, d: Delta)
    requires p.broker.Valid() && p in p.broker.table && c in p.subscribers && Attached(p, c)
    modifies p`subscribers, p`timer, p`stopped, c, p.broker`fetchCount
    modifies p.broker`pollers, p.broker`subscriberCount, p.broker`table, p.broker`conns
    ensures p.broker.Valid() && p in p.broker.table
    ensures p.Val() == if c in p.subscribers then old(p.Val()) else Thinner(old(p.Val()), old(p.subscribers) - {c})
    ensures c in p.subscribers ==> c.received == old(c.received) + (if HasNews(d) then [d] else [])
    ensures c !in p.subscribers ==> HasNews(d)
  {
    TornVal(p.broker.config, p.broker.State(), p, c);
    p.CatchUpFetched(c, d);
  }

  method CatchUpKeeping(p: B.TracePoller, c: B.Connection, d: Delta)
    requires p.broker.Valid() && p in p.broker.table && c in p.subscribers && Attached(p, c)
    modifies p`subscribers, p`timer, p`stopped, c, p.broker`fetchCount
    modifies p.broker`pollers, p.broker`subscriberCount, p.broker`table, p.broker`conns
    ensures p.broker.Valid() && p in p.broker.table
    ensures p.Val() == if c in p.subscribers then old(p.Val()) else Thinner(old(p.Val()), old(p.subscribers) - {c})
    ensures c in p.subscribers ==> c.received == old(c.received) + (if HasNews(d) then [d] else [])
    ensures c !in p.subscribers ==> HasNews(d)
    ensures p.View() == old(p.View()).(timer := p.timer, stopped := p.stopped)
    ensures forall e :: e in old(p.subscribers) && e != c ==> e.received == old(e.received)
  {
    CatchUpThins(p, c, d);
  }

  /** The catch-up read of a subscriber has returned; it takes the page or is dropped. */
  method CatchUp(p: B.TracePoller, c: B.Connection, d: Delta, ghost ns: nat, ghost ne: nat, ghost s: State,
                 ghost ids: map<B.Connection, nat>)
    returns (ghost e: Event)
    requires Follows(p, s, ids) && c in p.subscribers && c in ids
    requires Enabled(s, CatchesUp(ids[c], ns, d.spans, ne, d.evals, true))
    modifies p`subscribers, p`timer, p`stopped, c, p.broker`fetchCount
    modifies p.broker`pollers, p.broker`subscriberCount, p.broker`table, p.broker`conns
    ensures e.CatchesUp? && e == CatchesUp(ids[c], ns, d.spans, ne, d.evals, e.accepted)
    ensures Enabled(s, e) && Follows(p, Next(p.broker.config, s, e), ids)
  {
    SubscribersAreAttached(p, c);
    ghost var a := Shown(p);
    ghost var kept := CatchUpShown(p, c, d);
    e := CatchesUp(ids[c], ns, d.spans, ne, d.evals, kept);
    if kept {
      CatchUpMimicked(p.broker.config, a, s, ids, c, ns, d.spans, ne, d.evals, d);
    } else {
      LeaveMimicked(a, s, ids, c);
    }
  }

  lemma GoneIsNoMember<C>(a: Shot<C>, s: State, ids: map<C, nat>, c: C)
    requires Mimics(a, s, ids) && c in ids && c !in a.received
    ensures ids[c] !in s.members
  {
    forall d | d in a.received ensures ids[d] != ids[c] {
    }
  }

  /** A catch-up read that returns after its subscriber left changes nothing. */
  method LateCatchUp(p: B.TracePoller, c: B.Connection, d: Delta, ghost e: Event, ghost s: State,
                     ghost ids: map<B.Connection, nat>)
    requires Follows(p, s, ids) && c !in p.subscribers && c in p.broker.conns && c.broker == p.broker && c.poller == p
    requires c in ids && e.CatchesUp? && e.id == ids[c]
    modifies p`subscribers, p`timer, p`stopped, c, p.broker`fetchCount
    modifies p.broker`pollers, p.broker`subscriberCount, p.broker`table, p.broker`conns
    ensures Enabled(s, e) && Follows(p, Next(p.broker.config, s, e), ids)
  {
    GoneIsNoMember(Shown(p), s, ids, c);
    LateShown(p, c, d);
  }

  method LateShown(p: B.TracePoller, c: B.Connection, d: Delta)
    requires p.broker.Valid() && p in p.broker.table
    requires c !in p.subscribers && c in p.broker.conns && c.broker == p.broker && c.poller == p
    modifies p`subscribers, p`timer, p`stopped, c, p.broker`fetchCount
    modifies p.broker`pollers, p.broker`subscriberCount, p.broker`table, p.broker`conns
    ensures p.broker.Valid() && p in p.broker.table && Shown(p) == old(Shown(p))
  {
    ghost var a := Shown(p);
    LateThins(p, c, d);
    ShownIs(p, a);
  }

  method LateThins(p: B.TracePoller, c: B.Connection, d: Delta)
    requires p.broker.Valid() && p in p.broker.table
    requires c !in p.subscribers && c in p.broker.conns && c.broker == p.broker && c.poller == p
    modifies p`subscribers, p`timer, p`stopped, c, p.broker`fetchCount
    modifies p.broker`pollers, p.broker`subscriberCount, p.broker`table, p.broker`conns
    ensures p.broker.Valid() && p in p.broker.table && p.Val() == old(p.Val())
  {
    p.CatchUpFetched(c, d);
  }

  /** A catch-up read that fails after its subscriber left changes nothing either. */
  method LateFailCatchUp(p: B.TracePoller, c: B.Connection, ghost s: State, ghost ids: map<B.Connection, nat>)
    requires Follows(p, s, ids) && c !in p.subscribers && c in p.broker.conns && c.broker == p.broker && c.poller == p
    modifies p`subscribers, p`timer, p`stopped, c
    modifies p.broker`pollers, p.broker`subscriberCount, p.broker`table, p.broker`conns
    ensures Follows(p, s, ids)
  {
    LateFailShown(p, c);
  }

  method LateFailShown(p: B.TracePoller, c: B.Connection)
    requires p.broker.Valid() && p in p.broker.table
    requires c !in p.subscribers && c in p.broker.conns && c.broker == p.broker && c.poller == p
    modifies p`subscribers, p`timer, p`stopped, c
    modifies p.broker`pollers, p.broker`subscriberCount, p.broker`table, p.broker`conns
    ensures p.broker.Valid() && p in p.broker.table && Shown(p) == old(Shown(p))
  {
    ghost var a := Shown(p);
    LateFailThins(p, c);
    ShownIs(p, a);
  }

  method LateFailThins(p: B.TracePoller, c: B.Connection)
    requires p.broker.Valid() && p in p.broker.table
    requires c !in p.subscribers && c in p.broker.conns && c.broker == p.broker && c.poller == p
    modifies p`subscribers, p`timer, p`stopped, c
    modifies p.broker`pollers, p.broker`subscriberCount, p.broker`table, p.broker`conns
    ensures p.broker.Valid() && p in p.broker.table && p.Val() == old(p.Val())
  {
    GoneIsTornDown(p.broker.config, p.broker.State(), p, c);
    p.CatchUpFailed(c);
  }

  lemma GoneIsTornDown<P, C>(cfg: Config, r: Registry<P, C>, p: P, c: C)
    requires Consistent(cfg, r) && p in r.table && c in r.conns && r.conns[c].home == p && c !in r.table[p].subs
    ensures TornDown(r, c) == r
  {
    assert OpenOk(r, c);
  }

  // ---------------------------------------------------------------------
  // Callbacks of another poller
  // ---------------------------------------------------------------------

  /** Two pollers share no subscriber. */
  lemma Apart(p: B.TracePoller, q: B.TracePoller)
    requires p.broker.Valid() && p in p.broker.table && q in p.broker.table && p != q
    ensures p.subscribers !! q.subscribers
    ensures forall c :: c in p.subscribers ==> c in p.broker.conns && c.poller == p
  {
    var r := p.broker.State();
    assert PollerOk(p.broker.config, r, p) && PollerOk(p.broker.config, r, q);
  }

  /** Another poller of the same broker. */
  ghost predicate Other(p: B.TracePoller, q: B.TracePoller)
    reads p.broker
  {
    q != p && q.broker == p.broker && q in p.broker.table
  }

  /** A connection that was once attached to that poller. */
  ghost predicate Foreign(q: B.TracePoller, c: B.Connection)
    reads q.broker, c
  {
    c in q.broker.conns && c.broker == q.broker && c.poller == q
  }

  /** No callback of another poller changes what this one follows: its timer, ... */
  method TimerElsewhere(p: B.TracePoller, q: B.TracePoller, ghost s: State, ghost ids: map<B.Connection, nat>)
    requires Follows(p, s, ids) && Other(p, q) && q.timer.Some?
    modifies q`timer, q`polling, q.broker`table
    ensures Follows(p, s, ids)
  {
    Apart(p, q);
    ghost var a := Shown(p);
    var _ := q.TimerFires();
    ShownIs(p, a);
  }

  /** ... a tick that reads, ... */
  method FetchElsewhere(p: B.TracePoller, q: B.TracePoller, fetched: Delta, now: int, ghost s: State,
                        ghost ids: map<B.Connection, nat>)
    requires Follows(p, s, ids) && Other(p, q) && q.polling
    modifies q, q.subscribers, q.broker`fetchCount
    modifies q.broker`pollers, q.broker`subscriberCount, q.broker`table, q.broker`conns
    ensures Follows(p, s, ids)
  {
    Apart(p, q);
    ghost var a := Shown(p);
    ghost var _ := q.TickFetched(fetched, now);
    ShownIs(p, a);
  }

  /** ... a tick that fails, ... */
  method FailElsewhere(p: B.TracePoller, q: B.TracePoller, now: int, ghost s: State, ghost ids: map<B.Connection, nat>)
    requires Follows(p, s, ids) && Other(p, q) && q.polling
    modifies q, q.subscribers
    modifies q.broker`pollers, q.broker`subscriberCount, q.broker`table, q.broker`conns
    ensures Follows(p, s, ids)
  {
    Apart(p, q);
    ghost var a := Shown(p);
    q.TickFailed(now);
    ShownIs(p, a);
  }

  /** ... a catch-up that reads or fails, ... */
  method CatchUpElsewhere(p: B.TracePoller, q: B.TracePoller, c: B.Connection, delta: Delta, ghost s: State,
                          ghost ids: map<B.Connection, nat>)
    requires Follows(p, s, ids) && Other(p, q) && Foreign(q, c)
    modifies q`subscribers, q`timer, q`stopped, c, q.broker`fetchCount
    modifies q.broker`pollers, q.broker`subscriberCount, q.broker`table, q.broker`conns
    ensures Follows(p, s, ids)
  {
    Apart(p, q);
    ghost var a := Shown(p);
    CatchUpKeepsPollers(q, c, delta);
    ShownIs(p, a);
  }

  method FailCatchUpElsewhere(p: B.TracePoller, q: B.TracePoller, c: B.Connection, ghost s: State,
                              ghost ids: map<B.Connection, nat>)
    requires Follows(p, s, ids) && Other(p, q) && Foreign(q, c)
    modifies q`subscribers, q`timer, q`stopped, c
    modifies q.broker`pollers, q.broker`subscriberCount, q.broker`table, q.broker`conns
    ensures Follows(p, s, ids)
  {
    Apart(p, q);
    ghost var a := Shown(p);
    TornKeys(q.broker.config, q.broker.State(), c);
    q.CatchUpFailed(c);
    ShownIs(p, a);
  }

  /** ... a client that goes away or a stream that is cancelled. */
  method AbortElsewhere(p: B.TracePoller, q: B.TracePoller, c: B.Connection, ghost s: State,
                        ghost ids: map<B.Connection, nat>)
    requires Follows(p, s, ids) && Other(p, q) && Foreign(q, c)
    modifies q`subscribers, q`timer, q`stopped, c`closed, c`heartbeat, c`done, c`released
    modifies q.broker`pollers, q.broker`subscriberCount, q.broker`table, q.broker`conns
    ensures Follows(p, s, ids)
  {
    Apart(p, q);
    ghost var a := Shown(p);
    TornKeys(q.broker.config, q.broker.State(), c);
    c.Abort();
    ShownIs(p, a);
  }

  method CancelElsewhere(p: B.TracePoller, q: B.TracePoller, c: B.Connection, ghost s: State,
                         ghost ids: map<B.Connection, nat>)
    requires Follows(p, s, ids) && Other(p, q) && Foreign(q, c)
    modifies q`subscribers, q`timer, q`stopped, c`closed, c`heartbeat, c`done, c`released
    modifies q.broker`pollers, q.broker`subscriberCount, q.broker`table, q.broker`conns
    ensures Follows(p, s, ids)
  {
    Apart(p, q);
    ghost var a := Shown(p);
    c.Cancel();
    ShownIs(p, a);
  }

  method CatchUpKeepsPollers(q: B.TracePoller, c: B.Connection, delta: Delta)
    requires q.broker.Valid() && q in q.broker.table && Foreign(q, c)
    modifies q`subscribers, q`timer, q`stopped, c, q.broker`fetchCount, q.broker`pollers, q.broker`subscriberCount
    modifies q.broker`table, q.broker`conns
    ensures q.broker.Valid() && q.broker.table.Keys == old(q.broker.table.Keys)
  {
    TornKeys(q.broker.config, q.broker.State(), c);
    q.CatchUpFetched(c, delta);
  }

  lemma TornKeys<P, C>(cfg: Config, r: Registry<P, C>, c: C)
    requires Consistent(cfg, r) && c in r.conns
    ensures r.conns[c].home in r.table && TornDown(r, c).table.Keys == r.table.Keys
  {
    TearDownReleases(cfg, r, c);
  }

  /** Nor does opening or joining another one. */
  method SubscribeElsewhere(p: B.TracePoller, traceId: string, cursor: Cursor, c: B.Connection, now: int,
                            ghost s: State, ghost ids: map<B.Connection, nat>)
    returns (ok: bool, catchUp: bool)
    requires Follows(p, s, ids) && (traceId in p.broker.pollers ==> p.broker.pollers[traceId] != p)
    requires c !in p.broker.conns && p.broker.Pristine(c) && c.released == 0
    modifies p.broker, c`poller, c`subscribed, if traceId in p.broker.pollers then {p.broker.pollers[traceId]} else {}
    ensures Follows(p, s, ids)
  {
    ghost var a := Shown(p);
    ok, catchUp := SubscribeAside(p, traceId, cursor, c, now);
    ShownIs(p, a);
  }

  method SubscribeAside(p: B.TracePoller, traceId: string, cursor: Cursor, c: B.Connection, now: int)
    returns (ok: bool, catchUp: bool)
    requires p.broker.Valid() && p in p.broker.table
    requires traceId in p.broker.pollers ==> p.broker.pollers[traceId] != p
    requires c !in p.broker.conns && p.broker.Pristine(c) && c.released == 0
    modifies p.broker, c`poller, c`subscribed, if traceId in p.broker.pollers then {p.broker.pollers[traceId]} else {}
    ensures p.broker.Valid() && p in p.broker.table && p.View() == old(p.View()) && p.subscribers == old(p.subscribers)
    ensures forall d :: d in p.subscribers ==> d.received == old(d.received)
  {
    ok, catchUp := p.broker.Subscribe(traceId, cursor, c, now);
  }

  // ---------------------------------------------------------------------
  // What the connections of a run hold
  // ---------------------------------------------------------------------

  /** The event of one more callback extends a run. */
  lemma {:induction false} OneMoreEvent(cfg: Config, s: State, es: seq<Event>, e: Event)
    requires Valid(cfg, s, es) && Enabled(Run(cfg, s, es), e)
    ensures Valid(cfg, s, es + [e]) && Run(cfg, s, es + [e]) == Next(cfg, Run(cfg, s, es), e)
    decreases |es|
  {
    if es == [] {
      assert ([] + [e])[1..] == [];
    } else {
      assert (es + [e])[1..] == es[1..] + [e];
      OneMoreEvent(cfg, Next(cfg, s, es[0]), es[1..], e);
    }
  }

  /** Every connection still attached to a poller that has followed a run, and whose
      catch-up is not in flight, has received every row it is owed, in each channel in
      which its catch-up read found no more than a page. */
  lemma ConnectionsMissNothing(p: B.TracePoller, id: nat, cursor: Cursor, now: int, spanLog: seq<Row>,
                               evalLog: seq<Row>, es: seq<Event>, ids: map<B.Connection, nat>, c: B.Connection)
    requires SortedByMs(spanLog) && SortedByMs(evalLog)
    requires Valid(p.broker.config, Open(id, cursor, now, spanLog, evalLog), es)
    requires Follows(p, Run(p.broker.config, Open(id, cursor, now, spanLog, evalLog), es), ids)
    requires c in p.subscribers && c in ids
    requires ids[c] in Run(p.broker.config, Open(id, cursor, now, spanLog, evalLog), es).members
    requires !Run(p.broker.config, Open(id, cursor, now, spanLog, evalLog), es).members[ids[c]].waiting
    ensures var s := Run(p.broker.config, Open(id, cursor, now, spanLog, evalLog), es);
            var m := s.members[ids[c]];
            && (Fits(SpanHistory(s), m.spans, DELTA_SPAN_CAP) ==>
                  MissesNothing(SpanHistory(s), m.spans.(got := SpansOf(c.received))))
            && (Fits(EvalHistory(s), m.evals, DELTA_EVAL_CAP) ==>
                  MissesNothing(EvalHistory(s), m.evals.(got := EvalsOf(c.received))))
  {
    SubscribersMissNothing(p.broker.config, id, cursor, now, spanLog, evalLog, es, ids[c]);
    var s := Run(p.broker.config, Open(id, cursor, now, spanLog, evalLog), es);
    assert Holds(s.members[ids[c]], Shown(p).received[c]);
  }
}
