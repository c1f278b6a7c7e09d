/** The fan-out broker: the registry of trace pollers, the pollers, and the
    connections of the event-stream route, with the re-entrant calls between them.
    Every step of the event loop is one method, and the broker is consistent
    between any two of them. */
module LiveBroker {
  import opened Wrappers
  import opened LiveDeltas
  import opened DeltaChannel
  import opened PollerSpec
  import opened BrokerSpec
  import opened LiveProtocol

  const MAX_BACKPRESSURE_STRIKES: nat := 3

  /** One connection of the route, as the subscriber the broker sees. */
  class Connection {
    const broker: Broker
    var closed: bool
    var strikes: nat
    var heartbeat: bool
    var subscribed: bool
    var done: bool
    var poller: TracePoller?
    ghost var released: nat
    ghost var received: seq<Delta>
    /** The terminal notice it took. */
    ghost var told: Option<Verdict>

    constructor (broker: Broker)
      ensures this.broker == broker && poller == null && received == [] && told == None
      ensures !closed && strikes == 0 && !heartbeat && !subscribed && !done && released == 0
    {
      this.broker := broker;
      closed, strikes, heartbeat, subscribed, done, poller := false, 0, false, false, false, null;
      released, received, told := 0, [], None;
    }

    ghost function Val(): ConnVal<TracePoller>
      requires poller != null
      reads this
    {
      ConnVal(poller, closed, subscribed, done, released)
    }

    ghost predicate Known()
      reads this, broker, broker.table.Keys, broker.conns.Keys
    {
      broker.Wired() && this in broker.conns
    }

    method SetDone()
      requires Known()
      modifies this`done, broker`conns
      ensures Known() && broker.table == old(broker.table)
      ensures broker.State() == WithConn(old(broker.State()), this, old(broker.conns)[this].(done := true))
    {
      done := true;
      broker.conns := broker.conns[this := Val()];
    }

    method SetClosed()
      requires Known()
      modifies this`closed, this`heartbeat, broker`conns
      ensures Known() && closed && !heartbeat && broker.table == old(broker.table)
      ensures broker.State() == WithConn(old(broker.State()), this, old(broker.conns)[this].(closed := true))
    {
      closed, heartbeat := true, false;
      broker.conns := broker.conns[this := Val()];
    }

    /** The closure `subscribe` hands out: idempotent, whoever calls it. */
    method Unsubscribe()
      requires Known() && poller in broker.table && subscribed
      modifies this`done, this`released, poller`subscribers, poller`timer, poller`stopped
      modifies broker`pollers, broker`subscriberCount, broker`table, broker`conns
      ensures Known() && broker.State() == Unsubscribed(old(broker.State()), this)
    {
      if !done {
        SetDone();
        poller.Detach(this);
      }
    }

    /** Close once: stop the heartbeat and leave the broker. */
    method Teardown()
      requires Known() && poller in broker.table
      modifies this`closed, this`heartbeat, this`done, this`released
      modifies poller`subscribers, poller`timer, poller`stopped
      modifies broker`pollers, broker`subscriberCount, broker`table, broker`conns
      ensures Known() && broker.State() == TornDown(old(broker.State()), this)
      ensures closed && (!old(closed) ==> !heartbeat)
    {
      if !closed {
        SetClosed();
        if subscribed {
          Unsubscribe();
        }
      }
    }

    /** Enqueue one frame; false when the connection is gone. `accepts`: the
        stream still takes frames. */
    method Write(accepts: bool) returns (ok: bool)
      requires Known() && poller in broker.table
      modifies this`closed, this`heartbeat, this`done, this`released
      modifies poller`subscribers, poller`timer, poller`stopped
      modifies broker`pollers, broker`subscriberCount, broker`table, broker`conns
      ensures Known() && ok == (!old(closed) && accepts) && closed == !ok
      ensures broker.State() == (if ok then old(broker.State()) else TornDown(old(broker.State()), this))
      ensures ok ==> heartbeat == old(heartbeat)
    {
      if closed {
        return false;
      }
      if accepts {
        return true;
      }
      Teardown();
      return false;
    }

    /** Deliver one delta. `strained`: the consumer is behind; it is dropped after
        more than three strained deliveries in a row. */
    method Send(delta: Delta, strained: bool, accepts: bool) returns (ok: bool)
      requires Known() && poller in broker.table
      modifies this`closed, this`heartbeat, this`done, this`released, this`strikes, this`received
      modifies poller`subscribers, poller`timer, poller`stopped
      modifies broker`pollers, broker`subscriberCount, broker`table, broker`conns
      ensures Known()
      ensures ok == (!old(closed) && accepts && !(strained && old(strikes) >= 3))
      ensures strikes == if strained then old(strikes) + 1 else 0
      ensures received == old(received) + (if ok then [delta] else [])
      ensures broker.State() == (if ok then old(broker.State()) else TornDown(old(broker.State()), this))
    {
      var tooMany := CountStrike(strained);
      if tooMany {
        Teardown();
        return false;
      }
      ok := Write(accepts);
      if ok {
        Receive(delta);
      }
    }

    /** One more strike when strained, a clean slate when not. */
    method CountStrike(strained: bool) returns (tooMany: bool)
      requires Known()
      modifies this`strikes
      ensures Known() && strikes == if strained then old(strikes) + 1 else 0
      ensures tooMany == (strained && old(strikes) >= 3)
    {
      strikes := if strained then strikes + 1 else 0;
      tooMany := strained && strikes > MAX_BACKPRESSURE_STRIKES;
    }

    ghost method Receive(delta: Delta)
      requires Known()
      modifies this`received
      ensures Known() && received == old(received) + [delta]
    {
      received := received + [delta];
    }

    /** The terminal notice: the connection goes, whether it took it or not. */
    method End(reason: Verdict, accepts: bool)
      requires Known() && poller in broker.table
      modifies this`closed, this`heartbeat, this`done, this`released, this`told
      modifies poller`subscribers, poller`timer, poller`stopped
      modifies broker`pollers, broker`subscriberCount, broker`table, broker`conns
      ensures Known() && broker.State() == TornDown(old(broker.State()), this)
      ensures closed && told == if !old(closed) && accepts then Some(reason) else old(told)
    {
      var ok := Write(accepts);
      if ok {
        Note(reason);
      }
      Teardown();
    }

    /** Dismissed: with a terminal notice, or closed without one. */
    method Go(notice: Option<Verdict>)
      requires Known() && poller in broker.table
      modifies this`closed, this`heartbeat, this`done, this`released, this`told
      modifies poller`subscribers, poller`timer, poller`stopped
      modifies broker`pollers, broker`subscriberCount, broker`table, broker`conns
      ensures Known() && broker.State() == TornDown(old(broker.State()), this)
      ensures closed && (told == old(told) || told == notice)
    {
      if notice.Some? {
        var accepts: bool := *;
        End(notice.value, accepts);
      } else {
        Teardown();
      }
    }

    ghost method Note(reason: Verdict)
      requires Known()
      modifies this`told
      ensures Known() && told == Some(reason)
    {
      told := Some(reason);
    }

    /** The client is gone (request abort). */
    method Abort()
      requires broker.Valid() && this in broker.conns
      modifies this`closed, this`heartbeat, this`done, this`released
      modifies poller`subscribers, poller`timer, poller`stopped
      modifies broker`pollers, broker`subscriberCount, broker`table, broker`conns
      ensures broker.Valid() && this in broker.conns && closed
      ensures poller in old(broker.table) && broker.State() == TornDown(old(broker.State()), this)
    {
      TearDownKeepsConsistent(broker.config, broker.State(), this);
      Teardown();
    }

    /** Send the reconnect hint and start the heartbeat, which is set even when
        that first frame found the consumer gone. */
    method Greet(accepts: bool)
      requires broker.Valid() && this in broker.conns && !closed
      modifies this`closed, this`heartbeat, this`done, this`released
      modifies poller`subscribers, poller`timer, poller`stopped
      modifies broker`pollers, broker`subscriberCount, broker`table, broker`conns
      ensures broker.Valid() && this in broker.conns && heartbeat && closed == !accepts
    {
      WriteFirst(accepts);
      StartHeartbeat();
    }

    method WriteFirst(accepts: bool)
      requires broker.Valid() && this in broker.conns && !closed
      modifies this`closed, this`heartbeat, this`done, this`released
      modifies poller`subscribers, poller`timer, poller`stopped
      modifies broker`pollers, broker`subscriberCount, broker`table, broker`conns
      ensures broker.Valid() && this in broker.conns && closed == !accepts
    {
      TearDownKeepsConsistent(broker.config, broker.State(), this);
      var ok := Write(accepts);
    }

    method StartHeartbeat()
      requires broker.Valid() && this in broker.conns
      modifies this`heartbeat
      ensures broker.Valid() && this in broker.conns && heartbeat
    {
      heartbeat := true;
    }

    /** A connection the broker refused: the notice that it is over capacity, then the
        teardown, with nothing to release. */
    method Refuse(accepts: bool) returns (told: bool)
      requires !subscribed && !closed && !heartbeat
      modifies this`closed, this`heartbeat
      ensures told == accepts && closed && !heartbeat
    {
      told := accepts;
      if !told {
        CloseUnsubscribed();
      }
      CloseUnsubscribed();
    }

    /** The teardown of a connection that was never subscribed. */
    method CloseUnsubscribed()
      requires !subscribed
      modifies this`closed, this`heartbeat
      ensures closed && (!old(closed) ==> !heartbeat) && (old(closed) ==> heartbeat == old(heartbeat))
    {
      if !closed {
        closed, heartbeat := true, false;
      }
    }

    /** The stream is cancelled by its consumer. */
    method Cancel()
      requires broker.Valid() && this in broker.conns
      modifies this`closed, this`heartbeat, this`done, this`released
      modifies poller`subscribers, poller`timer, poller`stopped
      modifies broker`pollers, broker`subscriberCount, broker`table, broker`conns
      ensures broker.Valid() && this in broker.conns && closed && !heartbeat
      ensures broker.table.Keys == old(broker.table.Keys)
    {
      CancelKeepsConsistent(broker.config, broker.State(), this);
      SetClosed();
      if subscribed {
        Unsubscribe();
      }
    }
  }

  class TracePoller {
    const broker: Broker
    const traceId: string
    var subscribers: set<Connection>
    var head: Cursor
    var spanBoundary: set<string>
    var evalBoundary: set<string>
    var rootSeen: bool
    var lastDataAt: int
    var consecutiveErrors: nat
    var timer: Option<int>
    var polling: bool
    var stopped: bool

    constructor (broker: Broker, traceId: string, cursor: Cursor, now: int)
      ensures this.broker == broker && this.traceId == traceId && subscribers == {}
      ensures View() == PollerSpec.Opened(cursor, now)
    {
      this.broker, this.traceId, subscribers, head := broker, traceId, {}, cursor;
      spanBoundary, evalBoundary, rootSeen, lastDataAt, consecutiveErrors := {}, {}, false, now, 0;
      timer, polling, stopped := None, false, false;
    }

    /** The poller's own state, without its subscribers. */
    function View(): Poller
      reads this
    {
      Poller(Channel(head.spanMs, spanBoundary), Channel(head.evalMs, evalBoundary),
             rootSeen, lastDataAt, consecutiveErrors, timer, polling, stopped)
    }

    ghost function Val(): PollerVal<Connection>
      reads this
    {
      PollerVal(traceId, subscribers, timer, polling, stopped)
    }

    /** Stop polling and leave the registry. */
    method Stop()
      requires broker.Wired() && this in broker.table
      modifies this`timer, this`stopped, broker`pollers, broker`table
      ensures broker.Wired()
      ensures broker.State() == StoppedIn(old(broker.State()), this)
    {
      stopped, timer := true, None;
      broker.table := broker.table[this := Val()];
      broker.RemovePoller(traceId, this);
    }

    method Remove(c: Connection)
      requires broker.Wired() && this in broker.table
      modifies this`subscribers, broker`table
      ensures broker.Wired() && broker.State() == Removed(old(broker.State()), this, c)
    {
      subscribers := subscribers - {c};
      broker.table := broker.table[this := Val()];
    }

    /** Release one subscriber; the last one out stops the poller. */
    method Detach(c: Connection)
      requires broker.Wired() && this in broker.table && c in broker.conns
      modifies this`subscribers, this`timer, this`stopped, c`released
      modifies broker`pollers, broker`subscriberCount, broker`table, broker`conns
      ensures broker.Wired() && broker.State() == Detached(old(broker.State()), this, c)
    {
      if c in subscribers {
        Remove(c);
        broker.OnDetached(c);
        if subscribers == {} {
          Stop();
        }
      }
    }

    // -------------------------------------------------------------------
    // Broadcasts and ends
    // -------------------------------------------------------------------

    ghost predicate Serving()
      reads this, broker, broker.table.Keys, broker.conns.Keys
    {
      broker.Wired() && this in broker.table && Linked(broker.config, broker.State()) && Openness(broker.State())
    }

    lemma Mine(c: Connection)
      requires Serving() && c in subscribers
      ensures c in broker.conns && c.broker == broker && c.poller == this
    {
      assert PollerOk(broker.config, broker.State(), this);
      assert broker.table[this] == Val();
      assert broker.conns[c] == c.Val();
    }

    /** Offer a delta to one subscriber, which takes it or is dropped; whether the
        consumer is strained or gone is its own affair. */
    method Offer(c: Connection, delta: Delta, ghost r: Registry<TracePoller, Connection>)
      requires Serving() && c in subscribers && this in r.table && Thinned(r, broker.State(), this)
      modifies this`subscribers, this`timer, this`stopped, c
      modifies broker`pollers, broker`subscriberCount, broker`table, broker`conns
      ensures Serving() && Thinned(r, broker.State(), this)
      ensures if c in subscribers then subscribers == old(subscribers) && c.received == old(c.received) + [delta]
              else subscribers == old(subscribers) - {c}
    {
      Mine(c);
      DroppingOut(broker.config, broker.State(), this, c);
      ThinnedTwice(r, broker.State(), TornDown(broker.State(), c), this);
      var strained: bool, accepts: bool := *, *;
      var ok := c.Send(delta, strained, accepts);
      if !ok {
        Detach(c);
      }
    }

    /** Every subscriber gets the delta or is dropped. */
    method Broadcast(delta: Delta)
      requires Serving()
      modifies this`subscribers, this`timer, this`stopped, subscribers
      modifies broker`pollers, broker`subscriberCount, broker`table, broker`conns
      ensures Serving() && Thinned(old(broker.State()), broker.State(), this)
      ensures forall c :: c in subscribers ==> c in old(subscribers) && c.received == old(c.received) + [delta]
    {
      ghost var r := broker.State();
      ThinnedByNothing(broker.config, r, this);
      var pending := subscribers;
      while pending != {}
        invariant Serving() && Thinned(r, broker.State(), this)
        invariant pending <= subscribers <= old(subscribers)
        invariant forall c :: c in subscribers ==> c.received == old(c.received) + (if c in pending then [] else [delta])
        decreases pending
      {
        var c :| c in pending;
        Offer(c, delta, r);
        pending := pending - {c};
      }
    }

    /** Dismiss everyone: with a terminal notice, or closing without one. */
    method DismissAll(notice: Option<Verdict>)
      requires Serving()
      modifies this`subscribers, this`timer, this`stopped, subscribers
      modifies broker`pollers, broker`subscriberCount, broker`table, broker`conns
      ensures Serving() && Thinned(old(broker.State()), broker.State(), this) && subscribers == {}
      ensures forall c :: c in old(subscribers) ==> c.told == old(c.told) || c.told == notice
    {
      ghost var r := broker.State();
      ThinnedByNothing(broker.config, r, this);
      var pending := subscribers;
      while pending != {}
        invariant Serving() && pending == subscribers <= old(subscribers) && Thinned(r, broker.State(), this)
        invariant forall c :: c in old(subscribers) ==> c.told == old(c.told) || (c !in pending && c.told == notice)
        decreases pending
      {
        var c :| c in pending;
        Dismiss(c, notice, r);
        pending := pending - {c};
      }
    }

    method Dismiss(c: Connection, notice: Option<Verdict>, ghost r: Registry<TracePoller, Connection>)
      requires Serving() && c in subscribers && this in r.table && Thinned(r, broker.State(), this)
      modifies this`subscribers, this`timer, this`stopped, c
      modifies broker`pollers, broker`subscriberCount, broker`table, broker`conns
      ensures Serving() && Thinned(r, broker.State(), this)
      ensures subscribers == old(subscribers) - {c} && (c.told == old(c.told) || c.told == notice)
    {
      Mine(c);
      DroppingOut(broker.config, broker.State(), this, c);
      ThinnedTwice(r, broker.State(), TornDown(broker.State(), c), this);
      c.Go(notice);
      Detach(c);
    }

    // -------------------------------------------------------------------
    // The tick
    // -------------------------------------------------------------------

    ghost predicate Other()
      reads this, broker, broker.table.Keys, broker.conns.Keys
    {
      Serving() && TickingBut(broker.State(), {this})
    }

    method SetTick(timer': Option<int>, polling': bool)
      requires Other() && (stopped ==> timer' == None)
      modifies this`timer, this`polling, broker`table
      ensures Other() && View() == old(View()).(timer := timer', polling := polling')
      ensures broker.table.Keys == old(broker.table.Keys)
    {
      ghost var r := broker.State();
      timer, polling := timer', polling';
      broker.table := broker.table[this := Val()];
      OwnStepKeepsLinked(broker.config, r, this, Val());
      OwnStepKeepsOpenness(r, this, Val());
      OthersTick(r, broker.State(), this);
    }

    /** The timer fires: issue one fetch from the head. */
    method TimerFires() returns (from: Cursor)
      requires broker.Valid() && this in broker.table && timer.Some?
      modifies this`timer, this`polling, broker`table
      ensures broker.Valid() && this in broker.table
      ensures from == head && View() == old(View()).(timer := None, polling := true)
      ensures broker.table.Keys == old(broker.table.Keys)
    {
      AllTick(broker.State(), this);
      SetTick(None, true);
      TickKeepsConsistent(broker.config, broker.State(), this);
      from := head;
    }

    /** Drop the rows at the previous watermark that were already delivered, and
        remember the rows now at the new one. */
    method TrimBoundaryReplays(fetched: Delta) returns (delta: Delta)
      modifies this`spanBoundary, this`evalBoundary
      ensures delta == TrimmedDelta(old(View()), fetched)
      ensures spanBoundary == TrimmedTo(old(View()).spans, fetched.spans, fetched.cursor.spanMs).boundary
      ensures evalBoundary == TrimmedTo(old(View()).evals, fetched.evals, fetched.cursor.evalMs).boundary
    {
      var spans := DropReplays(Channel(head.spanMs, spanBoundary), fetched.spans);
      var evals := DropReplays(Channel(head.evalMs, evalBoundary), fetched.evals);
      spanBoundary := NextBoundary(Channel(head.spanMs, spanBoundary), fetched.spans, fetched.cursor.spanMs);
      evalBoundary := NextBoundary(Channel(head.evalMs, evalBoundary), fetched.evals, fetched.cursor.evalMs);
      delta := fetched.(spans := spans, evals := evals);
    }

    static method DropReplays(ch: Channel, rows: seq<Row>) returns (kept: seq<Row>)
      ensures kept == Fresh(ch, rows)
    {
      kept := [];
      for i := 0 to |rows|
        invariant kept + Fresh(ch, rows[i..]) == Fresh(ch, rows)
      {
        if rows[i].ms > ch.head || rows[i].key !in ch.boundary {
          kept := kept + [rows[i]];
        }
      }
    }

    static method NextBoundary(ch: Channel, rows: seq<Row>, head: int) returns (boundary: set<string>)
      ensures boundary == TrimmedTo(ch, rows, head).boundary
    {
      var base := if head == ch.head then ch.boundary else {};
      boundary := base;
      for i := 0 to |rows|
        invariant boundary == base + KeysAt(rows[..i], head)
      {
        assert rows[..i + 1] == rows[..i] + [rows[i]];
        if rows[i].ms == head {
          boundary := boundary + {rows[i].key};
        }
        assert boundary == base + KeysAt(rows[..i + 1], head);
      }
      assert rows[..|rows|] == rows;
    }

    method AbsorbOwn(fetched: Delta, now: int) returns (delta: Delta)
      modifies this`head, this`spanBoundary, this`evalBoundary, this`rootSeen, this`lastDataAt, this`consecutiveErrors
      ensures View() == Absorbed(old(View()), fetched, now) && delta == TrimmedDelta(old(View()), fetched)
    {
      consecutiveErrors := 0;
      delta := TrimBoundaryReplays(fetched);
      head := delta.cursor;
      rootSeen := rootSeen || delta.rootSeen;
      if delta.spans != [] || delta.evals != [] {
        lastDataAt := now;
      }
    }

    /** A successful fetch: heads, boundaries, root flag and quiet clock. */
    method Absorb(fetched: Delta, now: int) returns (delta: Delta)
      requires Other()
      modifies this`head, this`spanBoundary, this`evalBoundary, this`rootSeen, this`lastDataAt
      modifies this`consecutiveErrors, broker`fetchCount
      ensures Other() && broker.fetchCount == old(broker.fetchCount) + 1
      ensures View() == Absorbed(old(View()), fetched, now) && delta == TrimmedDelta(old(View()), fetched)
    {
      broker.CountFetch();
      delta := AbsorbOwn(fetched, now);
    }

    /** Everyone is dismissed and the poller is out of the registry. */
    method Finish(notice: Option<Verdict>)
      requires Other() && timer == None && !polling && subscribers != {}
      modifies this`subscribers, this`timer, this`stopped, subscribers
      modifies broker`pollers, broker`subscriberCount, broker`table, broker`conns
      ensures broker.Valid() && this in broker.table
      ensures subscribers == {} && View() == Stopped(old(View()))
      ensures broker.table.Keys == old(broker.table.Keys)
      ensures forall c :: c in old(subscribers) ==> c.told == old(c.told) || c.told == notice
    {
      ghost var r := broker.State();
      DismissAll(notice);
      OthersTick(r, broker.State(), this);
      TickKeepsConsistent(broker.config, broker.State(), this);
    }

    method Again(at: int)
      requires Other() && !polling && !stopped
      modifies this`timer, this`polling, broker`table
      ensures broker.Valid() && this in broker.table && View() == old(View()).(timer := Some(at))
      ensures broker.table.Keys == old(broker.table.Keys)
    {
      SetTick(Some(at), false);
      TickKeepsConsistent(broker.config, broker.State(), this);
    }

    /** The end of a tick: tell everyone it is over, or set the next timer. */
    method Settle(now: int)
      requires Other() && timer == None
      modifies this`subscribers, this`timer, this`stopped, this`polling, subscribers
      modifies broker`pollers, broker`subscriberCount, broker`table, broker`conns
      ensures broker.Valid() && this in broker.table
      ensures View() == Settled(broker.config, old(View()), now)
      ensures subscribers == if stopped then {} else old(subscribers)
      ensures !stopped ==> forall c :: c in subscribers ==> c.received == old(c.received)
      ensures broker.table.Keys == old(broker.table.Keys)
      ensures forall c :: c in old(subscribers) ==>
                c.told == old(c.told) || c.told == Some(if rootSeen then Complete else Idle)
    {
      SettledNow(broker.config, View(), now);
      SetTick(None, false);
      Judge(now);
    }

    /** The fetch is over; a poller that has stopped stays as it is. */
    method Judge(now: int)
      requires Other() && timer == None && !polling
      modifies this`subscribers, this`timer, this`stopped, this`polling, subscribers
      modifies broker`pollers, broker`subscriberCount, broker`table, broker`conns
      ensures broker.Valid() && this in broker.table
      ensures View() == Settled(broker.config, old(View()), now)
      ensures subscribers == if stopped then {} else old(subscribers)
      ensures !stopped ==> forall c :: c in subscribers ==> c.received == old(c.received)
      ensures broker.table.Keys == old(broker.table.Keys)
      ensures forall c :: c in old(subscribers) ==>
                c.told == old(c.told) || c.told == Some(if rootSeen then Complete else Idle)
    {
      StoppedIffEmpty();
      if stopped {
        TickKeepsConsistent(broker.config, broker.State(), this);
        return;
      }
      match Judged(broker.config, View(), now)
      case Again(delay) => Again(now + delay);
      case verdict => Finish(Some(verdict));
    }

    lemma SettledNow(cfg: Config, p: Poller, now: int)
      requires p.timer == None
      ensures Settled(cfg, p.(timer := None, polling := false), now) == Settled(cfg, p, now)
    {
    }

    lemma StoppedIffEmpty()
      requires Serving()
      ensures stopped <==> subscribers == {}
      ensures stopped ==> timer == None
    {
      assert PollerOk(broker.config, broker.State(), this);
    }

    /** The fetch of a tick has succeeded. A stopped poller absorbs it in silence. */
    method TickFetched(fetched: Delta, now: int) returns (ghost emptied: bool)
      requires broker.Valid() && this in broker.table && polling
      modifies this, subscribers, broker`fetchCount
      modifies broker`pollers, broker`subscriberCount, broker`table, broker`conns
      ensures broker.Valid() && this in broker.table && broker.fetchCount == old(broker.fetchCount) + 1
      ensures View() == AfterRead(broker.config, old(View()), fetched, now, emptied)
      ensures emptied ==> !old(stopped) && HasNews(TrimmedDelta(old(View()), fetched))
      ensures var delta := TrimmedDelta(old(View()), fetched);
              forall c :: c in subscribers ==>
                c in old(subscribers) && c.received == old(c.received) + (if HasNews(delta) then [delta] else [])
      ensures !HasNews(TrimmedDelta(old(View()), fetched)) ==> subscribers == if stopped then {} else old(subscribers)
      ensures broker.table.Keys == old(broker.table.Keys)
    {
      AllTick(broker.State(), this);
      emptied := ReadAndAnnounce(fetched, now);
      Settle(now);
    }

    /** The page is absorbed, and what is new in it broadcast. */
    method ReadAndAnnounce(fetched: Delta, now: int) returns (ghost emptied: bool)
      requires Other() && timer == None
      modifies this, subscribers, broker`fetchCount
      modifies broker`pollers, broker`subscriberCount, broker`table, broker`conns
      ensures Other() && timer == None && broker.fetchCount == old(broker.fetchCount) + 1
      ensures var q := Absorbed(old(View()), fetched, now); View() == if emptied then Stopped(q) else q
      ensures emptied ==> !old(stopped) && HasNews(TrimmedDelta(old(View()), fetched))
      ensures var delta := TrimmedDelta(old(View()), fetched);
              forall c :: c in subscribers ==>
                c in old(subscribers) && c.received == old(c.received) + (if HasNews(delta) then [delta] else [])
      ensures !HasNews(TrimmedDelta(old(View()), fetched)) ==> subscribers == old(subscribers)
      ensures broker.table.Keys == old(broker.table.Keys)
    {
      StoppedIffEmpty();
      emptied := false;
      var delta := Absorb(fetched, now);
      if delta.spans != [] || delta.evals != [] {
        Announce(delta);
        emptied := subscribers == {} && !old(stopped);
      }
    }

    /** A broadcast in the middle of a tick. */
    method Announce(delta: Delta)
      requires Other() && timer == None
      modifies this`subscribers, this`timer, this`stopped, subscribers
      modifies broker`pollers, broker`subscriberCount, broker`table, broker`conns
      ensures Other() && View() == (if subscribers == {} then Stopped(old(View())) else old(View()))
      ensures forall c :: c in subscribers ==> c in old(subscribers) && c.received == old(c.received) + [delta]
      ensures broker.table.Keys == old(broker.table.Keys)
    {
      ghost var r := broker.State();
      Broadcast(delta);
      OthersTick(r, broker.State(), this);
    }

    /** The fetch of a tick has failed: after too many in a row, close everyone
        without a notice, so that they reconnect. */
    method TickFailed(now: int)
      requires broker.Valid() && this in broker.table && polling
      modifies this, subscribers
      modifies broker`pollers, broker`subscriberCount, broker`table, broker`conns
      ensures broker.Valid() && this in broker.table
      ensures View() == AfterFailure(broker.config, old(View()), now)
      ensures subscribers == if stopped then {} else old(subscribers)
      ensures forall c :: c in subscribers ==> c.received == old(c.received)
      ensures broker.table.Keys == old(broker.table.Keys)
      ensures consecutiveErrors >= broker.config.maxConsecutiveErrors ==>
                forall c :: c in old(subscribers) ==> c.told == old(c.told) || c.told == None
    {
      AllTick(broker.State(), this);
      StoppedIffEmpty();
      CountError();
      SettleOrGiveUp(now);
    }

    method SettleOrGiveUp(now: int)
      requires Other() && timer == None
      modifies this`subscribers, this`timer, this`stopped, this`polling, subscribers
      modifies broker`pollers, broker`subscriberCount, broker`table, broker`conns
      ensures broker.Valid() && this in broker.table && broker.table.Keys == old(broker.table.Keys)
      ensures View() == if consecutiveErrors < broker.config.maxConsecutiveErrors then Settled(broker.config, old(View()), now)
                        else Stopped(old(View()).(polling := false))
      ensures subscribers == if stopped then {} else old(subscribers)
      ensures forall c :: c in subscribers ==> c.received == old(c.received)
      ensures consecutiveErrors >= broker.config.maxConsecutiveErrors ==>
                forall c :: c in old(subscribers) ==> c.told == old(c.told) || c.told == None
    {
      if consecutiveErrors < broker.config.maxConsecutiveErrors {
        Settle(now);
      } else {
        GiveUp();
      }
    }

    /** Close everyone without a notice, and with that the poller. */
    method GiveUp()
      requires Other() && timer == None
      modifies this`subscribers, this`timer, this`stopped, this`polling, subscribers
      modifies broker`pollers, broker`subscriberCount, broker`table, broker`conns
      ensures broker.Valid() && this in broker.table && subscribers == {}
      ensures View() == Stopped(old(View()).(polling := false))
      ensures broker.table.Keys == old(broker.table.Keys)
      ensures forall c :: c in old(subscribers) ==> c.told == old(c.told) || c.told == None
    {
      StoppedIffEmpty();
      SetTick(None, false);
      if subscribers != {} {
        Finish(None);
      } else {
        TickKeepsConsistent(broker.config, broker.State(), this);
      }
    }

    method CountError()
      requires Other()
      modifies this`consecutiveErrors
      ensures Other() && consecutiveErrors == old(consecutiveErrors) + 1
    {
      consecutiveErrors := consecutiveErrors + 1;
    }

    // -------------------------------------------------------------------
    // Joining and catching up
    // -------------------------------------------------------------------

    /** Attach first, then catch up when behind; poll at once if nothing else will. */
    method Attach(c: Connection, cursor: Cursor, now: int) returns (catchUp: bool)
      modifies this`subscribers, this`timer
      ensures subscribers == old(subscribers) + {c} && catchUp == Behind(cursor, head)
      ensures timer == if old(timer) == None && !polling && !stopped then Some(now) else old(timer)
    {
      subscribers := subscribers + {c};
      catchUp := cursor.spanMs < head.spanMs || cursor.evalMs < head.evalMs;
      if timer == None && !polling && !stopped {
        timer := Some(now);
      }
    }

    /** The catch-up fetch of one subscriber has succeeded. If it detached in the
        meantime nothing is sent. */
    method CatchUpFetched(c: Connection, delta: Delta)
      requires broker.Valid() && this in broker.table && c in broker.conns && c.poller == this
      modifies this`subscribers, this`timer, this`stopped, c, broker`fetchCount
      modifies broker`pollers, broker`subscriberCount, broker`table, broker`conns
      ensures broker.Valid() && broker.fetchCount == old(broker.fetchCount) + 1
      ensures c !in old(subscribers) ==> c.received == old(c.received)
      ensures c in subscribers ==> c.received == old(c.received) + (if HasNews(delta) then [delta] else [])
      ensures subscribers == old(subscribers) || subscribers == old(subscribers) - {c}
      ensures broker.State() == if c in old(subscribers) && c !in subscribers then TornDown(old(broker.State()), c)
                                else old(broker.State())
      ensures c in old(subscribers) && !HasNews(delta) ==> c in subscribers
    {
      broker.CountFetch();
      if c !in subscribers {
        return;
      }
      if delta.spans != [] || delta.evals != [] {
        OfferAlone(c, delta);
      }
    }

    method OfferAlone(c: Connection, delta: Delta)
      requires broker.Valid() && this in broker.table && c in broker.conns && c.poller == this && c in subscribers
      modifies this`subscribers, this`timer, this`stopped, c
      modifies broker`pollers, broker`subscriberCount, broker`table, broker`conns
      ensures broker.Valid()
      ensures if c in subscribers then subscribers == old(subscribers) && c.received == old(c.received) + [delta]
              else subscribers == old(subscribers) - {c}
      ensures broker.State() == if c in subscribers then old(broker.State()) else TornDown(old(broker.State()), c)
    {
      DroppingOut(broker.config, broker.State(), this, c);
      TearDownKeepsConsistent(broker.config, broker.State(), c);
      var strained: bool, accepts: bool := *, *;
      var ok := c.Send(delta, strained, accepts);
      if !ok {
        Detach(c);
      }
    }

    /** The catch-up fetch of one subscriber has failed: it is closed, to reconnect. */
    method CatchUpFailed(c: Connection)
      requires broker.Valid() && this in broker.table && c in broker.conns && c.poller == this
      modifies this`subscribers, this`timer, this`stopped, c
      modifies broker`pollers, broker`subscriberCount, broker`table, broker`conns
      ensures broker.Valid() && c !in subscribers && c.closed
      ensures broker.State() == TornDown(old(broker.State()), c)
    {
      // The same teardown as when the client is gone.
      c.Abort();
      HomeIsKnown(c);
      DetachGone(c);
    }

    lemma HomeIsKnown(c: Connection)
      requires broker.Valid() && c in broker.conns && c.poller == this
      ensures this in broker.table
    {
      assert ConnOk(broker.State(), c);
    }

    /** Releasing a subscriber that has left already changes nothing. */
    method DetachGone(c: Connection)
      requires broker.Valid() && this in broker.table && c in broker.conns && c.closed
      modifies this`subscribers, this`timer, this`stopped, c`released
      modifies broker`pollers, broker`subscriberCount, broker`table, broker`conns
      ensures broker.Valid() && c !in subscribers && broker.State() == old(broker.State())
    {
      ClosedIsGone(c);
      Detach(c);
    }

    lemma ClosedIsGone(c: Connection)
      requires broker.Valid() && this in broker.table && c in broker.conns && c.closed
      ensures c !in subscribers
    {
      var r := broker.State();
      assert PollerOk(broker.config, r, this) && OpenOk(r, c);
    }
  }

  class Broker {
    const config: Config
    var pollers: map<string, TracePoller>
    var subscriberCount: int
    var fetchCount: nat
    /** Every poller ever opened and every connection ever accepted, as values. */
    ghost var table: map<TracePoller, PollerVal<Connection>>
    ghost var conns: map<Connection, ConnVal<TracePoller>>

    constructor (config: Config)
      ensures this.config == config && Valid() && pollers == map[] && conns == map[]
    {
      this.config, pollers, subscriberCount, fetchCount := config, map[], 0, 0;
      table, conns := map[], map[];
    }

    /** Everything the broker holds, as one value. */
    ghost function State(): Registry<TracePoller, Connection>
      reads this
    {
      Registry(pollers, table, conns, subscriberCount)
    }

    /** The values are those of the objects. */
    ghost predicate Wired()
      reads this, table.Keys, conns.Keys
    {
      && (forall p :: p in table ==> p.broker == this && p.Val() == table[p])
      && (forall c :: c in conns ==> c.broker == this && c.poller != null && c.Val() == conns[c])
    }

    /** What holds between any two steps of the event loop. */
    ghost predicate Valid()
      reads this, table.Keys, conns.Keys
    {
      Wired() && Consistent(config, State())
    }

    method OnDetached(ghost c: Connection)
      requires Wired() && c in conns
      modifies this`subscriberCount, this`conns, c`released
      ensures Wired() && State() == Uncounted(old(State()), c)
    {
      subscriberCount := subscriberCount - 1;
      c.released := c.released + 1;
      conns := conns[c := c.Val()];
    }

    method CountFetch()
      modifies this`fetchCount
      ensures fetchCount == old(fetchCount) + 1
    {
      fetchCount := fetchCount + 1;
    }

    /** Remove a poller from the registry, unless a newer one has taken its place. */
    method RemovePoller(traceId: string, poller: TracePoller)
      modifies this`pollers
      ensures pollers == if traceId in old(pollers) && old(pollers)[traceId] == poller
                         then old(pollers) - {traceId} else old(pollers)
    {
      if traceId in pollers && pollers[traceId] == poller {
        pollers := pollers - {traceId};
      }
    }

    /** Cheap pre-check of both caps. */
    predicate CanAcceptNow(traceId: string)
      requires Wired() && Indexed(State())
      reads this, table.Keys, conns.Keys
      ensures CanAcceptNow(traceId) == CanAccept(config, State(), traceId)
    {
      subscriberCount < config.maxSubscribers &&
      (if traceId in pollers then |pollers[traceId].subscribers| else 0) < config.maxSubscribersPerTrace
    }

    /** A connection that nothing has happened to yet. */
    predicate Pristine(c: Connection)
      reads c
    {
      c.broker == this && c.poller == null && !c.closed && !c.subscribed && !c.done
    }

    method Admit(poller: TracePoller, c: Connection, cursor: Cursor, now: int) returns (catchUp: bool)
      requires Wired() && poller.broker == this && c !in conns && Pristine(c) && c.released == 0
      modifies this`subscriberCount, this`table, this`conns, c`poller, c`subscribed, poller`subscribers, poller`timer
      ensures Wired() && c.poller == poller && catchUp == Behind(cursor, poller.head)
      ensures poller.Val() == old(poller.Val()).(subs := old(poller.subscribers) + {c},
                timer := if old(poller.timer) == None && !poller.polling && !poller.stopped then Some(now) else old(poller.timer))
      ensures State() == Registry(old(pollers), old(table)[poller := poller.Val()],
                                  old(conns)[c := ConnVal(poller, false, true, false, 0)], old(subscriberCount) + 1)
    {
      subscriberCount := subscriberCount + 1;
      catchUp := poller.Attach(c, cursor, now);
      c.poller, c.subscribed := poller, true;
      table := table[poller := poller.Val()];
      conns := conns[c := c.Val()];
    }

    /** Join the registered poller of the trace: it goes on as it was. */
    method JoinExisting(poller: TracePoller, traceId: string, cursor: Cursor, c: Connection, now: int) returns (catchUp: bool)
      requires Valid() && traceId in pollers && pollers[traceId] == poller && c !in conns && Pristine(c) && c.released == 0
      requires CanAccept(config, State(), traceId)
      modifies this, c`poller, c`subscribed, poller`subscribers, poller`timer
      ensures Valid() && pollers == old(pollers) && c.poller == poller
      ensures poller.subscribers == old(poller.subscribers) + {c}
      ensures State() == WithJoiner(old(State()), traceId, poller, c, now)
      ensures poller.View() == old(poller.View()) && catchUp == Behind(cursor, poller.head)
    {
      ghost var r := State();
      assert PollerOk(config, r, poller) && Registered(r, poller) && Ticks(r.table[poller]);
      catchUp := AdmitTo(poller, traceId, cursor, c, now);
      JoinKeepsConsistent(config, r, traceId, poller, c, now);
    }

    /** One more subscriber for a registered poller, which has its next tick coming. */
    method AdmitTo(poller: TracePoller, ghost traceId: string, cursor: Cursor, c: Connection, now: int)
      returns (catchUp: bool)
      requires Wired() && traceId in pollers && pollers[traceId] == poller && poller in table && Ticks(table[poller])
      requires !poller.stopped && c !in conns && Pristine(c) && c.released == 0
      modifies this`subscriberCount, this`table, this`conns, c`poller, c`subscribed, poller`subscribers, poller`timer
      ensures Wired() && c.poller == poller && State() == WithJoiner(old(State()), traceId, poller, c, now)
      ensures poller.subscribers == old(poller.subscribers) + {c}
      ensures poller.View() == old(poller.View()) && catchUp == Behind(cursor, poller.head)
    {
      catchUp := Admit(poller, c, cursor, now);
      assert pollers[traceId := poller] == pollers;
    }

    /** Open a poller for the trace at the joiner's own cursor, due at once. */
    method JoinNew(traceId: string, cursor: Cursor, c: Connection, now: int) returns (poller: TracePoller)
      requires Valid() && traceId !in pollers && c !in conns && Pristine(c) && c.released == 0
      requires CanAccept(config, State(), traceId)
      modifies this, c`poller, c`subscribed
      ensures Valid() && c.poller == poller && fresh(poller) && poller.subscribers == {c}
      ensures State() == WithJoiner(old(State()), traceId, poller, c, now)
      ensures poller.View() == PollerSpec.Opened(cursor, now).(timer := Some(now))
    {
      ghost var r := State();
      poller := OpenPoller(traceId, cursor, c, now);
      JoinKeepsConsistent(config, r, traceId, poller, c, now);
    }

    /** Register a new poller with its first subscriber. */
    method OpenPoller(traceId: string, cursor: Cursor, c: Connection, now: int) returns (poller: TracePoller)
      requires Wired() && traceId !in pollers && c !in conns && Pristine(c) && c.released == 0
      modifies this, c`poller, c`subscribed
      ensures Wired() && c.poller == poller && fresh(poller) && poller !in old(table) && poller.subscribers == {c}
      ensures State() == WithJoiner(old(State()), traceId, poller, c, now)
      ensures poller.View() == PollerSpec.Opened(cursor, now).(timer := Some(now))
    {
      poller := new TracePoller(this, traceId, cursor, now);
      pollers := pollers[traceId := poller];
      var catchUp := Admit(poller, c, cursor, now);
    }

    /** Subscribe a fresh connection: refused at capacity, otherwise attached to the
        registered poller of the trace or to a new one. A catch-up is needed only
        by a joiner strictly behind the head. */
    method Subscribe(traceId: string, cursor: Cursor, c: Connection, now: int) returns (ok: bool, catchUp: bool)
      requires Valid() && c !in conns && Pristine(c) && c.released == 0
      modifies this, c`poller, c`subscribed, if traceId in pollers then {pollers[traceId]} else {}
      ensures Valid() && ok == old(CanAccept(config, State(), traceId))
      ensures if ok then c.poller != null && State() == WithJoiner(old(State()), traceId, c.poller, c, now)
              else State() == old(State())
      ensures ok ==> c in conns && !c.closed
      ensures !ok ==> Pristine(c)
      ensures ok ==> if traceId in old(pollers) then c.poller == old(pollers[traceId]) else fresh(c.poller)
      ensures ok ==> catchUp == (traceId in old(pollers) && Behind(cursor, old(pollers[traceId].head)))
    {
      ok, catchUp := CanAcceptNow(traceId), false;
      if ok {
        if traceId in pollers {
          catchUp := JoinExisting(pollers[traceId], traceId, cursor, c, now);
        } else {
          var _ := JoinNew(traceId, cursor, c, now);
        }
      }
    }

    /** Open one event stream: subscribe, then greet, or say that it is over capacity and
        close. `told`: the consumer took the first frame, either way. */
    method OpenStream(traceId: string, cursor: Cursor, now: int, accepts: bool)
      returns (c: Connection, ok: bool, catchUp: bool, told: bool)
      requires Valid()
      modifies this, if traceId in pollers then {pollers[traceId]} else {}
      ensures Valid() && ok == old(CanAccept(config, State(), traceId)) && fresh(c) && told == accepts
      ensures ok ==> c in conns && c.heartbeat && c.closed == !told
      ensures !ok ==> State() == old(State()) && c !in conns && c.closed && !c.heartbeat && c.released == 0
      ensures !ok ==> c.poller == null && c.received == []
    {
      c := new Connection(this);
      ok, catchUp := Subscribe(traceId, cursor, c, now);
      if ok {
        told := accepts;
        c.Greet(accepts);
      } else {
        told := c.Refuse(accepts);
      }
    }
  }
}
