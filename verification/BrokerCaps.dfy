/** Admission, in terms of the connections that are open. */
module BrokerCaps {
  import opened PollerSpec
  import opened BrokerSpec
  import opened MapTotals

  ghost predicate IsOpen<P, C>(r: Registry<P, C>, c: C) {
    c in r.conns && !r.conns[c].closed && r.conns[c].home in r.table
  }

  ghost function OpenConns<P, C>(r: Registry<P, C>): set<C> {
    set c | c in r.conns && IsOpen(r, c)
  }

  /** Those on trace `t`. */
  ghost function OpenOn<P, C>(r: Registry<P, C>, t: string): set<C> {
    set c | c in r.conns && IsOpen(r, c) && r.table[r.conns[c].home].trace == t
  }

  /** Those on some trace of `ts`. */
  ghost function OpenIn<P, C>(r: Registry<P, C>, ts: set<string>): set<C> {
    set c | c in r.conns && IsOpen(r, c) && r.table[r.conns[c].home].trace in ts
  }

  ghost function OpenSizes<P, C>(r: Registry<P, C>, ts: set<string>): map<string, nat> {
    map t | t in ts :: |OpenOn(r, t)|
  }

  lemma OpenSplits<P, C>(r: Registry<P, C>, ts: set<string>, t: string)
    requires t in ts
    ensures |OpenIn(r, ts)| == |OpenIn(r, ts - {t})| + |OpenOn(r, t)|
  {
    assert OpenIn(r, ts) == OpenIn(r, ts - {t}) + OpenOn(r, t) && OpenIn(r, ts - {t}) !! OpenOn(r, t);
  }

  lemma {:induction false} OpenAddsUp<P, C>(r: Registry<P, C>, ts: set<string>)
    ensures |OpenIn(r, ts)| == Total(OpenSizes(r, ts))
    decreases |ts|
  {
    if ts == {} {
      assert OpenIn(r, ts) == {};
      assert OpenSizes(r, ts) == map[];
    } else {
      var t :| t in ts;
      var rest := ts - {t};
      OpenAddsUp(r, rest);
      OpenSplits(r, ts, t);
      TotalWithout(OpenSizes(r, ts), t);
      assert OpenSizes(r, ts) - {t} == OpenSizes(r, rest);
    }
  }

  /** A connection is open exactly while it is attached, and then its poller is the
      registered one of its trace. */
  lemma OpenIsAttached<P, C>(cfg: Config, r: Registry<P, C>, c: C)
    requires Consistent(cfg, r) && IsOpen(r, c)
    ensures Registered(r, r.conns[c].home) && c in r.table[r.conns[c].home].subs
  {
    assert OpenOk(r, c);
    assert PollerOk(cfg, r, r.conns[c].home);
  }

  lemma OpenOnTrace<P, C>(cfg: Config, r: Registry<P, C>, t: string)
    requires Consistent(cfg, r)
    ensures OpenOn(r, t) == if t in r.pollers then r.table[r.pollers[t]].subs else {}
  {
    forall c | c in OpenOn(r, t) ensures t in r.pollers && c in r.table[r.pollers[t]].subs {
      OpenIsAttached(cfg, r, c);
    }
    if t in r.pollers {
      forall c | c in r.table[r.pollers[t]].subs ensures c in OpenOn(r, t) {
        assert PollerOk(cfg, r, r.pollers[t]);
        assert OpenOk(r, c);
      }
    }
  }

  lemma CountIsOpen<P, C>(cfg: Config, r: Registry<P, C>)
    requires Consistent(cfg, r)
    ensures r.count == |OpenConns(r)|
  {
    OpenAddsUp(r, r.pollers.Keys);
    forall c | c in OpenConns(r) ensures c in OpenIn(r, r.pollers.Keys) {
      OpenIsAttached(cfg, r, c);
    }
    assert OpenIn(r, r.pollers.Keys) == OpenConns(r);
    forall t | t in r.pollers ensures |OpenOn(r, t)| == |r.table[r.pollers[t]].subs| {
      OpenOnTrace(cfg, r, t);
    }
    assert OpenSizes(r, r.pollers.Keys) == Sizes(r);
  }

  /** A connection is accepted exactly when fewer than `maxSubscribers` are open, and
      fewer than `maxSubscribersPerTrace` on its trace. */
  lemma AcceptedIff<P, C>(cfg: Config, r: Registry<P, C>, t: string)
    requires Consistent(cfg, r)
    ensures CanAccept(cfg, r, t) <==>
            |OpenConns(r)| < cfg.maxSubscribers && |OpenOn(r, t)| < cfg.maxSubscribersPerTrace
  {
    CountIsOpen(cfg, r);
    OpenOnTrace(cfg, r, t);
  }
}
