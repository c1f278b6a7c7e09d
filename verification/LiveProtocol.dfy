/** One trace poller as a step system: rows land, ticks and catch-ups start and
    finish, subscribers come and go, in any order the event loop allows. */
module LiveProtocol {
  import opened Wrappers
  import opened LiveDeltas
  import opened DeltaChannel
  import opened PollerSpec

  /** `rows` landed when `at` rows had been broadcast, from a read that saw the first
      `read` rows of the log. */
  datatype CatchUpPage = NoPage | Page(at: nat, read: nat, rows: seq<Row>)

  /** What one subscriber holds of one channel: its cursor, how much had been
      broadcast and was visible when it attached, where the head stood then, its
      catch-up page, and every row delivered to it. */
  datatype Feed = Feed(cursor: int, joinedSent: nat, joinedLog: nat, joinedHead: int, page: CatchUpPage, got: seq<Row>)

  /** `waiting`: the catch-up fetch of this subscriber is in flight. */
  datatype Member = Member(spans: Feed, evals: Feed, waiting: bool)

  datatype State = State(
    start: Cursor, spanLog: seq<Row>, evalLog: seq<Row>, spanSent: seq<Row>, evalSent: seq<Row>,
    poller: Poller, members: map<nat, Member>, used: set<nat>, now: int,
    reading: (nat, nat), fetches: seq<(int, Cursor)>, catchUps: nat, joins: nat, ending: Option<Verdict>)

  datatype Event =
    | SpanLands(row: Row)
    | EvalLands(row: Row)
    | TickStarts(at: int)
    | TickReads(at: int, ns: nat, spans: seq<Row>, ne: nat, evals: seq<Row>, refused: set<nat>)
    | TickFails(at: int)
    | Joins(id: nat, cursor: Cursor)
    | CatchesUp(id: nat, ns: nat, spans: seq<Row>, ne: nat, evals: seq<Row>, accepted: bool)
    | CatchUpFails(id: nat)
    | Leaves(id: nat)

  function SpanHistory(s: State): History {
    History(s.spanLog, s.start.spanMs, s.poller.spans, s.spanSent)
  }

  function EvalHistory(s: State): History {
    History(s.evalLog, s.start.evalMs, s.poller.evals, s.evalSent)
  }

  /** The delta assembled from two pages read from `from`. */
  function DeltaOf(from: Cursor, spans: seq<Row>, evals: seq<Row>): Delta {
    Delta(spans, evals, Cursor(Advanced(spans, from.spanMs), Advanced(evals, from.evalMs)), HasRoot(spans))
  }

  function NewFeed(cursor: int, h: History): Feed {
    Feed(cursor, |h.sent|, |h.log|, h.ch.head, NoPage, [])
  }

  /** The first subscriber opens the poller at its own cursor. */
  function Open(id: nat, cursor: Cursor, now: int, spanLog: seq<Row>, evalLog: seq<Row>): State {
    var p := PollerSpec.Opened(cursor, now).(timer := Some(now));
    var m := Member(Feed(cursor.spanMs, 0, |spanLog|, cursor.spanMs, NoPage, []),
                    Feed(cursor.evalMs, 0, |evalLog|, cursor.evalMs, NoPage, []), false);
    State(cursor, spanLog, evalLog, [], [], p, map[id := m], {id}, now, (0, 0), [], 0, 1, None)
  }

  predicate Behind(cursor: Cursor, head: Cursor) {
    cursor.spanMs < head.spanMs || cursor.evalMs < head.evalMs
  }

  ghost predicate CatchUpPages(s: State, f: Feed, g: Feed, e: Event)
    requires e.CatchesUp?
  {
    && f.joinedLog <= e.ns <= |s.spanLog| && IsPage(s.spanLog[..e.ns], f.cursor, DELTA_SPAN_CAP, e.spans)
    && g.joinedLog <= e.ne <= |s.evalLog| && IsPage(s.evalLog[..e.ne], g.cursor, DELTA_EVAL_CAP, e.evals)
  }

  ghost predicate Enabled(s: State, e: Event) {
    match e
    case SpanLands(r) => forall i :: 0 <= i < |s.spanLog| ==> s.spanLog[i].ms <= r.ms
    case EvalLands(r) => forall i :: 0 <= i < |s.evalLog| ==> s.evalLog[i].ms <= r.ms
    case TickStarts(at) => s.poller.timer.Some? && s.poller.timer.value <= at && s.now <= at
    case TickReads(at, ns, spans, ne, evals, refused) =>
      && s.poller.polling && s.now <= at
      && s.reading.0 <= ns && ReadAt(SpanHistory(s), ns, DELTA_SPAN_CAP, spans)
      && s.reading.1 <= ne && ReadAt(EvalHistory(s), ne, DELTA_EVAL_CAP, evals)
      && refused <= s.members.Keys
      && (refused != {} ==> HasNews(TrimmedDelta(s.poller, DeltaOf(s.poller.Head(), spans, evals))))
    case TickFails(at) => s.poller.polling && s.now <= at
    case Joins(id, _) => !s.poller.stopped && id !in s.used
    case CatchesUp(id, _, _, _, _, _) =>
      id in s.used && (id in s.members ==>
        s.members[id].waiting && CatchUpPages(s, s.members[id].spans, s.members[id].evals, e))
    case CatchUpFails(id) => id in s.members && s.members[id].waiting
    case Leaves(id) => id in s.members
  }

  function Given(f: Feed, rows: seq<Row>): Feed {
    f.(got := f.got + rows)
  }

  function Delivered(members: map<nat, Member>, spans: seq<Row>, evals: seq<Row>, refused: set<nat>): map<nat, Member> {
    map id | id in members && id !in refused ::
      members[id].(spans := Given(members[id].spans, spans), evals := Given(members[id].evals, evals))
  }

  /** The subscriber is gone; the last one out stops the poller. */
  function Without(s: State, id: nat): State {
    var members := s.members - {id};
    s.(members := members, poller := if members == map[] then Stopped(s.poller) else s.poller)
  }

  /** The tick ends: with a verdict of the end, every subscriber is told. */
  function AfterTick(s: State, p: Poller, at: int, verdict: Option<Verdict>): State {
    s.(poller := p, now := at,
       members := if p.stopped then map[] else s.members,
       ending := if verdict.Some? && !verdict.value.Again? then verdict else s.ending)
  }

  function Next(cfg: Config, s: State, e: Event): State {
    match e
    case SpanLands(r) => s.(spanLog := s.spanLog + [r])
    case EvalLands(r) => s.(evalLog := s.evalLog + [r])
    case TickStarts(at) =>
      s.(poller := s.poller.(timer := None, polling := true), now := at,
         reading := (|s.spanLog|, |s.evalLog|), fetches := s.fetches + [(at, s.poller.Head())])
    case TickReads(at, _, spans, _, evals, refused) =>
      var d := DeltaOf(s.poller.Head(), spans, evals);
      var news := TrimmedDelta(s.poller, d);
      var t := s.(members := Delivered(s.members, news.spans, news.evals, refused),
                  spanSent := s.spanSent + news.spans, evalSent := s.evalSent + news.evals);
      var emptied := t.members == map[];
      AfterTick(t, AfterRead(cfg, s.poller, d, at, emptied), at,
                if s.poller.stopped || emptied then None else Some(Judged(cfg, Absorbed(s.poller, d, at), at)))
    case TickFails(at) =>
      AfterTick(s, AfterFailure(cfg, s.poller, at), at,
                if s.poller.stopped || s.poller.errors + 1 >= cfg.maxConsecutiveErrors then None
                else Some(Judged(cfg, s.poller, at)))
    case Joins(id, cursor) =>
      var behind := Behind(cursor, s.poller.Head());
      var m := Member(NewFeed(cursor.spanMs, SpanHistory(s)), NewFeed(cursor.evalMs, EvalHistory(s)), behind);
      s.(members := s.members[id := m], used := s.used + {id}, joins := s.joins + 1,
         catchUps := s.catchUps + if behind then 1 else 0)
    case CatchesUp(id, ns, spans, ne, evals, accepted) =>
      if id !in s.members then s
      else if (spans != [] || evals != []) && !accepted then Without(s, id)
      else
        var m := s.members[id];
        s.(members := s.members[id := Member(CaughtUp(m.spans, |s.spanSent|, ns, spans),
                                             CaughtUp(m.evals, |s.evalSent|, ne, evals), false)])
    case CatchUpFails(id) => Without(s, id)
    case Leaves(id) => Without(s, id)
  }

  function CaughtUp(f: Feed, at: nat, read: nat, rows: seq<Row>): Feed {
    Given(f, rows).(page := Page(at, read, rows))
  }

  ghost predicate Valid(cfg: Config, s: State, es: seq<Event>)
    decreases |es|
  {
    es == [] || (Enabled(s, es[0]) && Valid(cfg, Next(cfg, s, es[0]), es[1..]))
  }

  function Run(cfg: Config, s: State, es: seq<Event>): State
    decreases |es|
  {
    if es == [] then s else Run(cfg, Next(cfg, s, es[0]), es[1..])
  }
}
