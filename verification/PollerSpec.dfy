/** The state of one trace poller and what each of its steps makes of it. */
module PollerSpec {
  import opened Wrappers
  import opened LiveDeltas
  import opened DeltaChannel

  datatype Config = Config(fastPollMs: nat, slowPollMs: nat, settledEndMs: int, deadEndMs: int,
                           maxConsecutiveErrors: nat, maxSubscribers: nat, maxSubscribersPerTrace: nat)

  /** `timer` is the instant the pending timer is due, if one is set. */
  datatype Poller = Poller(spans: Channel, evals: Channel, rootSeen: bool, lastDataAt: int, errors: nat,
                           timer: Option<int>, polling: bool, stopped: bool)
  {
    function Head(): Cursor { Cursor(spans.head, evals.head) }
  }

  datatype Verdict = Complete | Idle | Again(delay: nat)

  function Opened(cursor: Cursor, now: int): Poller {
    Poller(Channel(cursor.spanMs, {}), Channel(cursor.evalMs, {}), false, now, 0, None, false, false)
  }

  function Stopped(p: Poller): Poller {
    p.(stopped := true, timer := None)
  }

  function TrimmedDelta(p: Poller, d: Delta): Delta {
    d.(spans := Fresh(p.spans, d.spans), evals := Fresh(p.evals, d.evals))
  }

  predicate HasNews(d: Delta) {
    d.spans != [] || d.evals != []
  }

  /** A fetch succeeded: heads and boundaries move, and only rows that were not
      replays restart the quiet clock. */
  function Absorbed(p: Poller, d: Delta, now: int): Poller {
    p.(spans := TrimmedTo(p.spans, d.spans, d.cursor.spanMs),
       evals := TrimmedTo(p.evals, d.evals, d.cursor.evalMs),
       rootSeen := p.rootSeen || d.rootSeen,
       errors := 0,
       lastDataAt := if HasNews(TrimmedDelta(p, d)) then now else p.lastDataAt)
  }

  function Bound(cfg: Config, p: Poller): int {
    if p.rootSeen then cfg.settledEndMs else cfg.deadEndMs
  }

  function Judged(cfg: Config, p: Poller, now: int): Verdict {
    if now - p.lastDataAt >= Bound(cfg, p) then (if p.rootSeen then Complete else Idle)
    else Again(if p.rootSeen then cfg.slowPollMs else cfg.fastPollMs)
  }

  /** The end of a tick: stop for good, or set the next timer. */
  function Settled(cfg: Config, p: Poller, now: int): Poller {
    var q := p.(polling := false);
    if q.stopped then q
    else match Judged(cfg, p, now)
      case Again(delay) => q.(timer := Some(now + delay))
      case _ => Stopped(q)
  }

  /** `emptied`: the broadcast lost the last subscriber, which stops the poller. */
  function AfterRead(cfg: Config, p: Poller, d: Delta, now: int, emptied: bool): Poller {
    var q := Absorbed(p, d, now);
    Settled(cfg, if emptied then Stopped(q) else q, now)
  }

  function AfterFailure(cfg: Config, p: Poller, now: int): Poller {
    var q := p.(errors := p.errors + 1);
    if q.errors >= cfg.maxConsecutiveErrors then Stopped(q.(polling := false))
    else Settled(cfg, q, now)
  }
}
