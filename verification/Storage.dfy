/** The collector's write path: handlers enqueue decoded batches on a bounded
    channel, and one writer task buffers them and hands them to inserts. */
module Storage {
  import opened LiveDeltas

  /** What the live protocol looks at in a stored span. */
  datatype SpanRow = SpanRow(trace: string, key: string, root: bool)

  /** The rows of one export request, spans and events apart. */
  datatype Batch<E> = Batch(spans: seq<SpanRow>, events: seq<E>)

  /** One insert into the spans table: its rows, the clock reading of the database
      that stamps them all, and whether they became visible. */
  datatype Insert = Insert(rows: seq<SpanRow>, stamp: int, landed: bool)

  datatype EnqueueResult = Enqueued | Full | Closed

  function SpansOf<E>(queue: seq<Batch<E>>): seq<SpanRow> {
    if queue == [] then [] else queue[0].spans + SpansOf(queue[1..])
  }

  function EventsOf<E>(queue: seq<Batch<E>>): seq<E> {
    if queue == [] then [] else queue[0].events + EventsOf(queue[1..])
  }

  function Joined<T>(inserts: seq<seq<T>>): seq<T> {
    if inserts == [] then [] else Joined(inserts[..|inserts| - 1]) + inserts[|inserts| - 1]
  }

  function Handed(inserts: seq<Insert>): seq<seq<SpanRow>> {
    seq(|inserts|, i requires 0 <= i < |inserts| => inserts[i].rows)
  }

  lemma QueueAppends<E>(queue: seq<Batch<E>>, b: Batch<E>)
    ensures SpansOf(queue + [b]) == SpansOf(queue) + b.spans
    ensures EventsOf(queue + [b]) == EventsOf(queue) + b.events
  {
    SpansAppend(queue, b);
    EventsAppend(queue, b);
  }

  lemma {:induction false} SpansAppend<E>(queue: seq<Batch<E>>, b: Batch<E>)
    ensures SpansOf(queue + [b]) == SpansOf(queue) + b.spans
  {
    if queue == [] {
      assert queue + [b] == [b] && [b][1..] == [];
    } else {
      SpansAppend(queue[1..], b);
      assert (queue + [b])[1..] == queue[1..] + [b];
    }
  }

  lemma {:induction false} EventsAppend<E>(queue: seq<Batch<E>>, b: Batch<E>)
    ensures EventsOf(queue + [b]) == EventsOf(queue) + b.events
  {
    if queue == [] {
      assert queue + [b] == [b] && [b][1..] == [];
    } else {
      EventsAppend(queue[1..], b);
      assert (queue + [b])[1..] == queue[1..] + [b];
    }
  }

  /** The stamps of one writer's inserts under a clock that does not run back. */
  ghost predicate InClockOrder(inserts: seq<Insert>, clock: int) {
    && (forall i, j :: 0 <= i < j < |inserts| ==> inserts[i].stamp <= inserts[j].stamp)
    && (forall i :: 0 <= i < |inserts| ==> inserts[i].stamp <= clock)
  }

  // ---------------------------------------------------------------------
  // What becomes visible
  // ---------------------------------------------------------------------

  function Stamped(rows: seq<SpanRow>, stamp: int, trace: string): seq<Row> {
    if rows == [] then []
    else
      var n := |rows| - 1;
      Stamped(rows[..n], stamp, trace) + (if rows[n].trace == trace then [Row(rows[n].key, stamp, rows[n].root)] else [])
  }

  /** The rows of a trace visible after a run of inserts, in the order they became
      visible: the rows of a failed insert never show. */
  function Visible(inserts: seq<Insert>, trace: string): seq<Row> {
    if inserts == [] then []
    else
      var n := |inserts| - 1;
      Visible(inserts[..n], trace) +
      (if inserts[n].landed then Stamped(inserts[n].rows, inserts[n].stamp, trace) else [])
  }

  lemma {:induction false} VisibleAppends(inserts: seq<Insert>, last: Insert, trace: string)
    ensures Visible(inserts + [last], trace) ==
            Visible(inserts, trace) + (if last.landed then Stamped(last.rows, last.stamp, trace) else [])
  {
    assert (inserts + [last])[..|inserts|] == inserts;
  }

  lemma JoinedAppends<T>(inserts: seq<seq<T>>, last: seq<T>)
    ensures Joined(inserts + [last]) == Joined(inserts) + last
  {
    assert (inserts + [last])[..|inserts|] == inserts;
  }

  lemma HandedAppends(inserts: seq<Insert>, last: Insert)
    ensures Joined(Handed(inserts + [last])) == Joined(Handed(inserts)) + last.rows
  {
    JoinedAppends(Handed(inserts), last.rows);
    assert Handed(inserts + [last]) == Handed(inserts) + [last.rows];
  }

  lemma {:induction false} StampedAt(rows: seq<SpanRow>, stamp: int, trace: string, k: nat)
    requires k < |Stamped(rows, stamp, trace)|
    ensures var r := Stamped(rows, stamp, trace)[k]; r.ms == stamp && SpanRow(trace, r.key, r.root) in rows
  {
    var n := |rows| - 1;
    if k < |Stamped(rows[..n], stamp, trace)| {
      StampedAt(rows[..n], stamp, trace, k);
    }
  }

  lemma {:induction false} VisibleIsStamped(inserts: seq<Insert>, trace: string, r: Row)
    requires r in Visible(inserts, trace)
    ensures exists i :: 0 <= i < |inserts| && inserts[i].landed && r.ms == inserts[i].stamp &&
                        SpanRow(trace, r.key, r.root) in inserts[i].rows
  {
    var n := |inserts| - 1;
    if r in Visible(inserts[..n], trace) {
      VisibleIsStamped(inserts[..n], trace, r);
      var i :| 0 <= i < n && inserts[..n][i].landed && r.ms == inserts[..n][i].stamp &&
               SpanRow(trace, r.key, r.root) in inserts[..n][i].rows;
      assert inserts[..n][i] == inserts[i];
    } else {
      var last := Stamped(inserts[n].rows, inserts[n].stamp, trace);
      var k :| 0 <= k < |last| && last[k] == r;
      StampedAt(inserts[n].rows, inserts[n].stamp, trace, k);
    }
  }

  lemma {:induction false} ClockOrderSortsTheLog(inserts: seq<Insert>, clock: int, trace: string)
    requires InClockOrder(inserts, clock)
    ensures SortedByMs(Visible(inserts, trace))
    ensures forall r :: r in Visible(inserts, trace) ==> r.ms <= clock
  {
    if inserts != [] {
      var n := |inserts| - 1;
      var front, last := Visible(inserts[..n], trace), inserts[n];
      ClockOrderSortsTheLog(inserts[..n], last.stamp, trace);
      forall k | 0 <= k < |Stamped(last.rows, last.stamp, trace)|
        ensures Stamped(last.rows, last.stamp, trace)[k].ms == last.stamp
      {
        StampedAt(last.rows, last.stamp, trace, k);
      }
      assert forall k :: 0 <= k < |front| ==> front[k] in front;
    }
  }

  /** The rows of `log` are rows of `rows` at the places `at`, in that order. */
  ghost predicate Picks(at: seq<nat>, log: seq<Row>, rows: seq<SpanRow>, trace: string) {
    && |at| == |log|
    && (forall i, j :: 0 <= i < j < |at| ==> at[i] < at[j])
    && (forall i :: 0 <= i < |at| ==> at[i] < |rows| && rows[at[i]] == SpanRow(trace, log[i].key, log[i].root))
  }

  ghost predicate InOrderOf(log: seq<Row>, rows: seq<SpanRow>, trace: string) {
    exists at :: Picks(at, log, rows, trace)
  }

  lemma InOrderExtends(log: seq<Row>, rows: seq<SpanRow>, more: seq<SpanRow>, trace: string)
    requires InOrderOf(log, rows, trace)
    ensures InOrderOf(log, rows + more, trace)
  {
    var at: seq<nat> :| Picks(at, log, rows, trace);
    assert Picks(at, log, rows + more, trace);
  }

  lemma {:induction false} InOrderAppends(log: seq<Row>, rows: seq<SpanRow>, more: seq<SpanRow>, stamp: int, trace: string)
    requires InOrderOf(log, rows, trace)
    ensures InOrderOf(log + Stamped(more, stamp, trace), rows + more, trace)
  {
    if more == [] {
      assert log + Stamped(more, stamp, trace) == log && rows + more == rows;
    } else {
      var n := |more| - 1;
      InOrderAppends(log, rows, more[..n], stamp, trace);
      var front := log + Stamped(more[..n], stamp, trace);
      assert rows + more == rows + more[..n] + [more[n]];
      if more[n].trace == trace {
        var at: seq<nat> :| Picks(at, front, rows + more[..n], trace);
        var last := Row(more[n].key, stamp, more[n].root);
        var place: nat := |rows| + n;
        assert log + Stamped(more, stamp, trace) == front + [last];
        assert Picks(at + [place], front + [last], rows + more, trace);
      } else {
        assert log + Stamped(more, stamp, trace) == front;
        InOrderExtends(front, rows + more[..n], [more[n]], trace);
      }
    }
  }

  lemma {:induction false} VisibleInOrder(inserts: seq<Insert>, trace: string)
    ensures InOrderOf(Visible(inserts, trace), Joined(Handed(inserts)), trace)
  {
    if inserts == [] {
      assert Picks([], [], Joined(Handed(inserts)), trace);
    } else {
      var n := |inserts| - 1;
      assert inserts == inserts[..n] + [inserts[n]];
      VisibleInOrder(inserts[..n], trace);
      HandedAppends(inserts[..n], inserts[n]);
      if inserts[n].landed {
        InOrderAppends(Visible(inserts[..n], trace), Joined(Handed(inserts[..n])), inserts[n].rows, inserts[n].stamp, trace);
      } else {
        assert Visible(inserts, trace) == Visible(inserts[..n], trace);
        InOrderExtends(Visible(inserts[..n], trace), Joined(Handed(inserts[..n])), inserts[n].rows, trace);
      }
    }
  }

  /** The rows of one trace, in order. */
  function OfTrace(rows: seq<SpanRow>, trace: string): seq<SpanRow> {
    if rows == [] then []
    else
      var n := |rows| - 1;
      OfTrace(rows[..n], trace) + (if rows[n].trace == trace then [rows[n]] else [])
  }

  /** Every row of the trace, each as often as it is there, and no other row. */
  lemma {:induction false} OfTraceIsExact(rows: seq<SpanRow>, trace: string, x: SpanRow)
    ensures multiset(OfTrace(rows, trace))[x] == if x.trace == trace then multiset(rows)[x] else 0
  {
    if rows != [] {
      var n := |rows| - 1;
      OfTraceIsExact(rows[..n], trace, x);
      assert rows == rows[..n] + [rows[n]];
    }
  }

  function Unstamped(log: seq<Row>, trace: string): seq<SpanRow> {
    seq(|log|, i requires 0 <= i < |log| => SpanRow(trace, log[i].key, log[i].root))
  }

  lemma {:induction false} OfTraceJoins(a: seq<SpanRow>, b: seq<SpanRow>, trace: string)
    ensures OfTrace(a + b, trace) == OfTrace(a, trace) + OfTrace(b, trace)
  {
    if b == [] {
      assert a + b == a;
    } else {
      var n := |b| - 1;
      OfTraceJoins(a, b[..n], trace);
      assert (a + b)[..|a| + n] == a + b[..n];
    }
  }

  lemma {:induction false} StampedIsOfTrace(rows: seq<SpanRow>, stamp: int, trace: string)
    ensures Unstamped(Stamped(rows, stamp, trace), trace) == OfTrace(rows, trace)
  {
    if rows != [] {
      StampedIsOfTrace(rows[..|rows| - 1], stamp, trace);
    }
  }

  lemma LandedIsVisible(inserts: seq<Insert>, last: Insert, trace: string)
    requires last.landed
    requires Unstamped(Visible(inserts, trace), trace) == OfTrace(Joined(Handed(inserts)), trace)
    ensures Unstamped(Visible(inserts + [last], trace), trace) == OfTrace(Joined(Handed(inserts + [last])), trace)
  {
    var front, more := Visible(inserts, trace), Stamped(last.rows, last.stamp, trace);
    VisibleAppends(inserts, last, trace);
    HandedAppends(inserts, last);
    OfTraceJoins(Joined(Handed(inserts)), last.rows, trace);
    StampedIsOfTrace(last.rows, last.stamp, trace);
    assert Unstamped(front + more, trace) == Unstamped(front, trace) + Unstamped(more, trace);
  }

  /** When every insert lands, every row handed over is visible, once for each time
      it was handed over. */
  lemma {:induction false} AllLandedIsVisible(inserts: seq<Insert>, trace: string)
    requires forall i :: 0 <= i < |inserts| ==> inserts[i].landed
    ensures Unstamped(Visible(inserts, trace), trace) == OfTrace(Joined(Handed(inserts)), trace)
  {
    if inserts == [] {
      assert Handed(inserts) == [];
    } else {
      var front, last := inserts[..|inserts| - 1], inserts[|inserts| - 1];
      assert front + [last] == inserts;
      AllLandedIsVisible(front, trace);
      LandedIsVisible(front, last, trace);
    }
  }

  // ---------------------------------------------------------------------
  // The queue and the writer task
  // ---------------------------------------------------------------------

  function AtLeastOne(n: nat): nat {
    if n == 0 then 1 else n
  }

  lemma AllLost<T>(accepted: seq<T>, handed: seq<T>, buffered: seq<T>, queued: seq<T>, lost: seq<T>)
    requires accepted == handed + buffered + queued + lost && lost == []
    ensures accepted == handed + [] + [] + (buffered + queued)
  {
  }

  lemma QueuedMore<T>(handed: seq<T>, buffered: seq<T>, queued: seq<T>, more: seq<T>)
    ensures handed + buffered + queued + [] + more == handed + buffered + (queued + more) + []
  {
  }

  lemma HandedOver<T>(handed: seq<T>, buffered: seq<T>)
    ensures handed + buffered == handed + buffered + []
  {
  }

  lemma Received<T>(handed: seq<T>, buffered: seq<T>, batch: seq<T>, queued: seq<T>)
    ensures handed + buffered + (batch + queued) == handed + (buffered + batch) + queued
  {
  }

  /** The channel, the writer's two buffers, and what it has handed over. The stamp
      and the outcome of an insert are the database's; the writer goes on alike
      whatever they are. */
  class Writer<E> {
    const capacity: nat
    const maxRows: nat
    var channel: seq<Batch<E>>
    var sendersGone: bool
    var running: bool
    var spans: seq<SpanRow>
    var events: seq<E>
    /** Every insert issued, failed ones included: a failed batch is dropped. */
    ghost var spanInserts: seq<Insert>
    ghost var eventInserts: seq<seq<E>>
    /** The database's clock when the last insert was stamped. */
    ghost var clock: int
    /** Every row accepted by `enqueue`, in acceptance order. */
    ghost var acceptedSpans: seq<SpanRow>
    ghost var acceptedEvents: seq<E>
    /** What a writer task that died took with it. */
    ghost var lostSpans: seq<SpanRow>
    ghost var lostEvents: seq<E>

    /** Nothing is lost, duplicated or reordered on the way to an insert, and the
        inserts are stamped in the order they are issued. */
    ghost predicate Conserved()
      reads this
    {
      && acceptedSpans == Joined(Handed(spanInserts)) + spans + SpansOf(channel) + lostSpans
      && acceptedEvents == Joined(eventInserts) + events + EventsOf(channel) + lostEvents
      && InClockOrder(spanInserts, clock)
    }

    /** At any moment, also while a flush awaits its insert: rows are conserved, the
        channel is within capacity, and only a dead writer has lost anything. */
    ghost predicate Open()
      reads this
    {
      && Conserved()
      && |channel| <= capacity
      && (running ==> lostSpans == [] && lostEvents == [])
      && (!running ==> channel == [])
    }

    /** Between two steps of the loop, moreover, both buffers are below the batch size,
        and a stopped writer holds nothing. */
    ghost predicate Valid()
      reads this
    {
      && Open()
      && |spans| < AtLeastOne(maxRows) && |events| < AtLeastOne(maxRows)
      && (!running ==> channel == [] && spans == [] && events == [])
    }

    /** The rows of a trace a reader of the database sees. */
    ghost function VisibleLog(trace: string): seq<Row>
      reads this
    {
      Visible(spanInserts, trace)
    }

    constructor (capacity: nat, maxRows: nat)
      ensures Valid() && running && !sendersGone
      ensures acceptedSpans == [] && acceptedEvents == [] && this.capacity == capacity && this.maxRows == maxRows
    {
      this.capacity, this.maxRows, channel, sendersGone, running := capacity, maxRows, [], false, true;
      spans, events, spanInserts, eventInserts, acceptedSpans, acceptedEvents := [], [], [], [], [], [];
      lostSpans, lostEvents := [], [];
      new;
      assert Handed(spanInserts) == [];
    }

    /** One task inserting in sequence under a clock that does not run back: at any
        moment, whichever inserts failed, the log of a trace is in non-decreasing
        milliseconds and holds accepted rows in the order of acceptance. This is the
        log the live protocol requires. */
    lemma WriterSortsTheLog(trace: string)
      requires Open()
      ensures SortedByMs(VisibleLog(trace))
      ensures InOrderOf(VisibleLog(trace), acceptedSpans, trace)
    {
      ClockOrderSortsTheLog(spanInserts, clock, trace);
      VisibleInOrder(spanInserts, trace);
      InOrderExtends(VisibleLog(trace), Joined(Handed(spanInserts)), spans + SpansOf(channel) + lostSpans, trace);
      assert acceptedSpans == Joined(Handed(spanInserts)) + (spans + SpansOf(channel) + lostSpans);
    }

    /** A writer that drained, all of its inserts landing, has made every accepted
        row visible in the order of acceptance, as often as it was accepted. */
    lemma DrainedIsVisible(trace: string)
      requires Valid() && !running && lostSpans == []
      requires forall i :: 0 <= i < |spanInserts| ==> spanInserts[i].landed
      ensures Unstamped(VisibleLog(trace), trace) == OfTrace(acceptedSpans, trace)
      ensures forall x: SpanRow :: x.trace == trace ==>
                multiset(Unstamped(VisibleLog(trace), trace))[x] == multiset(acceptedSpans)[x]
    {
      AllLandedIsVisible(spanInserts, trace);
      assert acceptedSpans == Joined(Handed(spanInserts));
      forall x: SpanRow | x.trace == trace
        ensures multiset(OfTrace(acceptedSpans, trace))[x] == multiset(acceptedSpans)[x]
      {
        OfTraceIsExact(acceptedSpans, trace, x);
      }
    }

    /** Enqueue without blocking: full or closed is the caller's to report. A
        refused batch is not kept. */
    method Enqueue(batch: Batch<E>) returns (r: EnqueueResult)
      requires Open() && !sendersGone
      modifies this`channel, this`acceptedSpans, this`acceptedEvents
      ensures Open() && (old(Valid()) ==> Valid())
      ensures r == if !running then Closed else if old(|channel|) == capacity then Full else Enqueued
      ensures channel == old(channel) + (if r.Enqueued? then [batch] else [])
      ensures acceptedSpans == old(acceptedSpans) + (if r.Enqueued? then batch.spans else [])
      ensures acceptedEvents == old(acceptedEvents) + (if r.Enqueued? then batch.events else [])
    {
      if !running {
        return Closed;
      }
      if |channel| >= capacity {
        return Full;
      }
      QueueAppends(channel, batch);
      QueuedMore(Joined(Handed(spanInserts)), spans, SpansOf(channel), batch.spans);
      QueuedMore(Joined(eventInserts), events, EventsOf(channel), batch.events);
      channel := channel + [batch];
      acceptedSpans, acceptedEvents := acceptedSpans + batch.spans, acceptedEvents + batch.events;
      return Enqueued;
    }

    /** Every sender is dropped (shutdown). */
    method DropSenders()
      requires Open()
      modifies this`sendersGone
      ensures Open() && sendersGone && (old(Valid()) ==> Valid())
    {
      sendersGone := true;
    }

    /** The writer task dies while handlers may still hold senders: what it buffered
        and what was queued is gone, and senders see a closed channel. */
    method Die()
      requires Open() && running
      modifies this`running, this`channel, this`spans, this`events, this`lostSpans, this`lostEvents
      ensures Valid() && !running
      ensures lostSpans == old(spans + SpansOf(channel)) && lostEvents == old(events + EventsOf(channel))
    {
      LoseRows();
      running := false;
    }

    method LoseRows()
      requires Conserved() && lostSpans == [] && lostEvents == []
      modifies this`channel, this`spans, this`events, this`lostSpans, this`lostEvents
      ensures Conserved() && channel == [] && spans == [] && events == []
      ensures lostSpans == old(spans + SpansOf(channel)) && lostEvents == old(events + EventsOf(channel))
    {
      AllLost(acceptedSpans, Joined(Handed(spanInserts)), spans, SpansOf(channel), lostSpans);
      AllLost(acceptedEvents, Joined(eventInserts), events, EventsOf(channel), lostEvents);
      lostSpans, lostEvents := spans + SpansOf(channel), events + EventsOf(channel);
      channel, spans, events := [], [], [];
    }

    method InsertSpans(ghost stamp: int, ghost landed: bool)
      requires Conserved() && clock <= stamp && spans != []
      modifies this`spans, this`spanInserts, this`clock
      ensures Conserved() && spans == [] && clock == stamp
      ensures spanInserts == old(spanInserts) + [Insert(old(spans), stamp, landed)]
    {
      ghost var last := Insert(spans, stamp, landed);
      HandedAppends(spanInserts, last);
      HandedOver(Joined(Handed(spanInserts)), spans);
      spanInserts, clock, spans := spanInserts + [last], stamp, [];
    }

    method InsertEvents()
      requires Conserved() && events != []
      modifies this`events, this`eventInserts
      ensures Conserved() && events == []
      ensures eventInserts == old(eventInserts) + [old(events)]
    {
      JoinedAppends(eventInserts, events);
      HandedOver(Joined(eventInserts), events);
      eventInserts, events := eventInserts + [events], [];
    }

    /** Hand both buffers over, each at most once, and clear them whatever the
        outcome of the insert. */
    method Flush(ghost stamp: int, ghost landed: bool)
      requires Conserved() && clock <= stamp
      modifies this`spans, this`events, this`spanInserts, this`eventInserts, this`clock
      ensures Conserved() && spans == [] && events == [] && old(clock) <= clock <= stamp
      ensures spanInserts ==
              old(spanInserts) + (if old(spans) == [] then [] else [Insert(old(spans), stamp, landed)])
      ensures eventInserts == old(eventInserts) + (if old(events) == [] then [] else [old(events)])
    {
      if spans != [] {
        InsertSpans(stamp, landed);
      }
      if events != [] {
        InsertEvents();
      }
    }

    method TakeBatch() returns (batch: Batch<E>)
      requires Conserved() && channel != []
      modifies this`channel, this`spans, this`events
      ensures Conserved() && batch == old(channel)[0] && channel == old(channel)[1..]
      ensures spans == old(spans) + batch.spans && events == old(events) + batch.events
    {
      batch := channel[0];
      Received(Joined(Handed(spanInserts)), spans, batch.spans, SpansOf(channel[1..]));
      Received(Joined(eventInserts), events, batch.events, EventsOf(channel[1..]));
      channel := channel[1..];
      spans := spans + batch.spans;
      events := events + batch.events;
    }

    method FlushWhenFull(ghost stamp: int, ghost landed: bool)
      requires Conserved() && clock <= stamp
      modifies this`spans, this`events, this`spanInserts, this`eventInserts, this`clock
      ensures Conserved() && |spans| < AtLeastOne(maxRows) && |events| < AtLeastOne(maxRows)
      ensures if old(|spans| >= maxRows || |events| >= maxRows)
              then spans == [] && events == []
              else spans == old(spans) && events == old(events)
    {
      if |spans| >= maxRows || |events| >= maxRows {
        Flush(stamp, landed);
      }
    }

    /** The loop receives a batch. */
    method Receive(ghost stamp: int, ghost landed: bool)
      requires Valid() && running && channel != [] && clock <= stamp
      modifies this`channel, this`spans, this`events, this`spanInserts, this`eventInserts, this`clock
      ensures Valid() && channel == old(channel)[1..]
      ensures var batch := old(channel)[0];
              if |old(spans) + batch.spans| >= maxRows || |old(events) + batch.events| >= maxRows
              then spans == [] && events == []
              else spans == old(spans) + batch.spans && events == old(events) + batch.events
    {
      var batch := TakeBatch();
      FlushWhenFull(stamp, landed);
    }

    /** The flush interval has passed. A trace's log grows by the buffered rows of
        that trace, stamped no earlier than anything in it, if the insert lands. */
    method Tick(ghost stamp: int, ghost landed: bool)
      requires Valid() && running && clock <= stamp
      modifies this`spans, this`events, this`spanInserts, this`eventInserts, this`clock
      ensures Valid() && spans == [] && events == []
      ensures forall trace :: VisibleLog(trace) ==
                              old(VisibleLog(trace)) + (if landed then Stamped(old(spans), stamp, trace) else [])
    {
      Flush(stamp, landed);
      forall trace
        ensures VisibleLog(trace) ==
                old(VisibleLog(trace)) + (if landed then Stamped(old(spans), stamp, trace) else [])
      {
        if old(spans) == [] {
          assert spanInserts == old(spanInserts);
        } else {
          VisibleAppends(old(spanInserts), Insert(old(spans), stamp, landed), trace);
        }
      }
    }

    /** The channel is closed and drained: flush and stop. Everything accepted has
        been handed over, in order. */
    method Drain(ghost stamp: int, ghost landed: bool)
      requires Valid() && running && sendersGone && channel == [] && clock <= stamp
      modifies this`running, this`spans, this`events, this`spanInserts, this`eventInserts, this`clock
      ensures Valid() && !running
      ensures Joined(Handed(spanInserts)) == acceptedSpans && Joined(eventInserts) == acceptedEvents
    {
      // The same flush as on a tick.
      Tick(stamp, landed);
      running := false;
    }

    /** A batch is received, with or without a tick before it. */
    method Turn()
      requires Valid() && running && channel != []
      modifies this`channel, this`spans, this`events, this`spanInserts, this`eventInserts, this`clock
      ensures Valid() && channel == old(channel)[1..]
    {
      var ticks: bool := *;
      if ticks {
        ghost var stamp: int, landed: bool :| clock <= stamp;
        Tick(stamp, landed);
      }
      ghost var stamp: int, landed: bool :| clock <= stamp;
      Receive(stamp, landed);
    }

    /** From any moment of shutdown, receiving what is queued and then draining
        leaves nothing behind, whichever ticks come in between. */
    method ShutDown()
      requires Valid() && running && sendersGone
      modifies this`running, this`channel, this`spans, this`events, this`spanInserts, this`eventInserts, this`clock
      ensures Valid() && !running && channel == []
      ensures Joined(Handed(spanInserts)) == old(acceptedSpans) && Joined(eventInserts) == old(acceptedEvents)
    {
      while channel != []
        invariant Valid() && running && sendersGone
        decreases |channel|
      {
        Turn();
      }
      ghost var stamp: int, landed: bool :| clock <= stamp;
      Drain(stamp, landed);
    }
  }
}
