/** The broker's registry as one value: which poller serves which trace, who is
    attached to which poller, and how many subscribers are counted. Pollers and
    connections are named by their identities `P` and `C`. */
module BrokerSpec {
  import opened Wrappers
  import opened LiveDeltas
  import opened PollerSpec
  import opened MapTotals

  datatype PollerVal<C> = PollerVal(trace: string, subs: set<C>, timer: Option<int>, polling: bool, stopped: bool)

  function Halted<C>(v: PollerVal<C>): PollerVal<C> {
    v.(stopped := true, timer := None)
  }

  /** Stopped without a timer, or exactly one of a timer and a fetch in flight. */
  predicate Ticks<C>(v: PollerVal<C>) {
    if v.stopped then v.timer == None else v.timer.Some? != v.polling
  }

  /** `released` counts how often the broker was told that the connection left. */
  datatype ConnVal<P> = ConnVal(home: P, closed: bool, subscribed: bool, done: bool, released: nat)

  datatype Registry<P, C> = Registry(pollers: map<string, P>, table: map<P, PollerVal<C>>,
                                     conns: map<C, ConnVal<P>>, count: int)

  ghost function Sizes<P, C>(r: Registry<P, C>): map<string, nat>
    requires Indexed(r)
  {
    map t | t in r.pollers :: |r.table[r.pollers[t]].subs|
  }

  ghost predicate Indexed<P, C>(r: Registry<P, C>) {
    forall t :: t in r.pollers ==> r.pollers[t] in r.table && r.table[r.pollers[t]].trace == t
  }

  ghost predicate Registered<P, C>(r: Registry<P, C>, p: P) {
    p in r.table && r.table[p].trace in r.pollers && r.pollers[r.table[p].trace] == p
  }

  /** A registered poller is running and has subscribers, within the cap of its
      trace; a poller out of the registry is stopped and has none. */
  ghost predicate PollerOk<P, C>(cfg: Config, r: Registry<P, C>, p: P)
    requires p in r.table
  {
    var v := r.table[p];
    && |v.subs| <= cfg.maxSubscribersPerTrace
    && (if Registered(r, p) then !v.stopped && v.subs != {} else v.stopped && v.subs == {})
    && (v.stopped ==> v.timer == None)
    && (forall c :: c in v.subs ==> c in r.conns && r.conns[c].home == p)
  }

  /** A connection is attached to its poller or has been released, once. */
  ghost predicate ConnOk<P, C>(r: Registry<P, C>, c: C)
    requires c in r.conns
  {
    var v := r.conns[c];
    v.home in r.table && v.released == (if c in r.table[v.home].subs then 0 else 1)
  }

  ghost predicate Linked<P, C>(cfg: Config, r: Registry<P, C>) {
    && Indexed(r)
    && (forall p {:trigger PollerOk(cfg, r, p)} :: p in r.table ==> PollerOk(cfg, r, p))
    && (forall c {:trigger ConnOk(r, c)} :: c in r.conns ==> ConnOk(r, c))
    && r.count == Total(Sizes(r)) <= cfg.maxSubscribers
  }

  /** Attached connections are open and can still be released; the others closed. */
  ghost predicate Openness<P, C>(r: Registry<P, C>) {
    forall c {:trigger OpenOk(r, c)} :: c in r.conns ==> OpenOk(r, c)
  }

  ghost predicate OpenOk<P, C>(r: Registry<P, C>, c: C)
    requires c in r.conns
  {
    var v := r.conns[c];
    v.home in r.table &&
    if c in r.table[v.home].subs then !v.closed && v.subscribed && !v.done else v.closed
  }

  /** Every poller but `p` ticks properly: one of a timer and a fetch in flight. */
  ghost predicate TickingBut<P, C>(r: Registry<P, C>, p: set<P>) {
    forall q {:trigger Ticks(r.table[q])} :: q in r.table && q !in p ==> Ticks(r.table[q])
  }

  // ---------------------------------------------------------------------
  // Detach
  // ---------------------------------------------------------------------

  ghost function Removed<P, C>(r: Registry<P, C>, p: P, c: C): Registry<P, C>
    requires p in r.table
  {
    WithPoller(r, p, r.table[p].(subs := r.table[p].subs - {c}))
  }

  ghost function Uncounted<P, C>(r: Registry<P, C>, c: C): Registry<P, C>
    requires c in r.conns
  {
    WithConn(r, c, r.conns[c].(released := r.conns[c].released + 1)).(count := r.count - 1)
  }

  ghost function StoppedIn<P, C>(r: Registry<P, C>, p: P): Registry<P, C>
    requires p in r.table
  {
    WithPoller(r, p, Halted(r.table[p])).(
      pollers := if Registered(r, p) then r.pollers - {r.table[p].trace} else r.pollers)
  }

  /** `c` leaves `p`; a subscriber that is already gone changes nothing, the last
      one out stops the poller. */
  ghost function Detached<P, C>(r: Registry<P, C>, p: P, c: C): Registry<P, C>
    requires p in r.table && c in r.conns
  {
    if c !in r.table[p].subs then r
    else
      var r' := Uncounted(Removed(r, p, c), c);
      if r'.table[p].subs == {} then StoppedIn(r', p) else r'
  }

  /** A poller left with some of its subscribers, stopped when none is left. */
  function Thinner<C>(v: PollerVal<C>, rest: set<C>): PollerVal<C> {
    if rest == {} then Halted(v.(subs := rest)) else v.(subs := rest)
  }

  /** All that a release changes. */
  lemma DetachInOne<P, C>(r: Registry<P, C>, p: P, c: C)
    requires p in r.table && c in r.table[p].subs && c in r.conns
    ensures var rest := r.table[p].subs - {c};
            Detached(r, p, c) ==
              Registry(if rest == {} && Registered(r, p) then r.pollers - {r.table[p].trace} else r.pollers,
                       r.table[p := Thinner(r.table[p], rest)],
                       r.conns[c := r.conns[c].(released := r.conns[c].released + 1)],
                       r.count - 1)
  {
    var v1 := r.table[p].(subs := r.table[p].subs - {c});
    assert r.table[p := v1][p := Halted(v1)] == r.table[p := Halted(v1)];
  }

  lemma DetachKeepsIndex<P, C>(r: Registry<P, C>, p: P, c: C)
    requires Indexed(r) && p in r.table && c in r.conns
    ensures Indexed(Detached(r, p, c))
  {
    if c in r.table[p].subs {
      DetachInOne(r, p, c);
    }
    var r' := Detached(r, p, c);
    forall t | t in r'.pollers ensures r'.pollers[t] in r'.table && r'.table[r'.pollers[t]].trace == t {
      assert r.pollers[t] in r.table && r.table[r.pollers[t]].trace == t;
    }
  }

  lemma DetachSizes<P, C>(r: Registry<P, C>, p: P, c: C)
    requires Indexed(r) && Registered(r, p) && c in r.table[p].subs && c in r.conns
    ensures Indexed(Detached(r, p, c))
    ensures var rest := r.table[p].subs - {c};
            Sizes(Detached(r, p, c)) ==
              if rest == {} then Sizes(r) - {r.table[p].trace} else Sizes(r)[r.table[p].trace := |rest|]
  {
    DetachInOne(r, p, c);
    DetachKeepsIndex(r, p, c);
    forall t | t in r.pollers && t != r.table[p].trace ensures r.pollers[t] != p {
      assert r.table[r.pollers[t]].trace == t;
    }
  }

  lemma DetachKeepsCount<P, C>(cfg: Config, r: Registry<P, C>, p: P, c: C)
    requires Linked(cfg, r) && p in r.table && c in r.table[p].subs && c in r.conns
    ensures var r' := Detached(r, p, c);
            Indexed(r') && r'.count == Total(Sizes(r')) && r'.count == r.count - 1
  {
    DetachInOne(r, p, c);
    var t, subs := r.table[p].trace, r.table[p].subs;
    assert PollerOk(cfg, r, p);
    DetachSizes(r, p, c);
    assert |subs - {c}| == |subs| - 1;
    if subs - {c} == {} {
      TotalWithout(Sizes(r), t);
    } else {
      TotalChanged(Sizes(r), t, |subs - {c}|);
    }
  }

  lemma DetachKeepsPoller<P, C>(cfg: Config, r: Registry<P, C>, p: P, c: C, q: P)
    requires Linked(cfg, r) && p in r.table && c in r.conns && q in r.table
    ensures PollerOk(cfg, Detached(r, p, c), q)
  {
    if c in r.table[p].subs {
      DetachInOne(r, p, c);
    }
    assert PollerOk(cfg, r, q) && PollerOk(cfg, r, p);
    assert r.table[p].subs - {c} <= r.table[p].subs;
  }

  lemma DetachKeepsConn<P, C>(cfg: Config, r: Registry<P, C>, p: P, c: C, d: C)
    requires Linked(cfg, r) && p in r.table && c in r.conns && d in r.conns
    ensures ConnOk(Detached(r, p, c), d)
  {
    if c in r.table[p].subs {
      DetachInOne(r, p, c);
    }
    assert PollerOk(cfg, r, p) && ConnOk(r, d);
  }

  /** Releasing a subscriber keeps the registry consistent. */
  lemma DetachKeepsLinked<P, C>(cfg: Config, r: Registry<P, C>, p: P, c: C)
    requires Linked(cfg, r) && p in r.table && c in r.conns
    ensures Linked(cfg, Detached(r, p, c))
    ensures c !in Detached(r, p, c).table[p].subs
  {
    var r' := Detached(r, p, c);
    if c in r.table[p].subs {
      DetachInOne(r, p, c);
      DetachKeepsCount(cfg, r, p, c);
      forall q | q in r'.table ensures PollerOk(cfg, r', q) {
        DetachKeepsPoller(cfg, r, p, c, q);
      }
      forall d | d in r'.conns ensures ConnOk(r', d) {
        DetachKeepsConn(cfg, r, p, c, d);
      }
    }
  }

  /** A stale poller never touches its replacement: whatever it is asked to release,
      the registry and the count stay as they are. */
  lemma StalePollerIsHarmless<P, C>(cfg: Config, r: Registry<P, C>, p: P, c: C)
    requires Linked(cfg, r) && p in r.table && c in r.conns && !Registered(r, p)
    ensures Detached(r, p, c) == r
  {
    assert PollerOk(cfg, r, p);
  }

  // ---------------------------------------------------------------------
  // Teardown
  // ---------------------------------------------------------------------

  ghost function WithConn<P, C>(r: Registry<P, C>, c: C, v: ConnVal<P>): Registry<P, C> {
    r.(conns := r.conns[c := v])
  }

  /** The route closes a connection, which releases it through its closure. */
  ghost function TornDown<P, C>(r: Registry<P, C>, c: C): Registry<P, C>
    requires c in r.conns && r.conns[c].home in r.table
  {
    var v := r.conns[c];
    if v.closed then r else Unsubscribed(WithConn(r, c, v.(closed := true)), c)
  }

  /** The closure handed out by `subscribe`, once set: it releases at most once. */
  ghost function Unsubscribed<P, C>(r: Registry<P, C>, c: C): Registry<P, C>
    requires c in r.conns && r.conns[c].home in r.table
  {
    var v := r.conns[c];
    if !v.subscribed || v.done then r
    else Detached(WithConn(r, c, v.(done := true)), v.home, c)
  }

  lemma FlagsKeepLinked<P, C>(cfg: Config, r: Registry<P, C>, c: C, v: ConnVal<P>)
    requires Linked(cfg, r) && c in r.conns && v.home == r.conns[c].home && v.released == r.conns[c].released
    ensures Linked(cfg, WithConn(r, c, v))
  {
    var r' := WithConn(r, c, v);
    forall q | q in r'.table ensures PollerOk(cfg, r', q) {
      assert PollerOk(cfg, r, q);
    }
    forall d | d in r'.conns ensures ConnOk(r', d) {
      assert ConnOk(r, d);
    }
    assert Sizes(r') == Sizes(r);
  }

  /** What tearing a connection down leaves: it is closed and released, everyone
      else is as before, and only its own poller may have stopped. */
  ghost predicate OnlyLeft<P, C>(r: Registry<P, C>, r': Registry<P, C>, c: C)
    requires c in r.conns && r.conns[c].home in r.table
  {
    var p := r.conns[c].home;
    && r'.table.Keys == r.table.Keys && r'.conns.Keys == r.conns.Keys
    && (forall d :: d in r.conns && d != c ==> r'.conns[d] == r.conns[d])
    && r'.conns[c].closed && r'.conns[c].home == p
    && (forall q :: q in r.table && q != p ==> r'.table[q] == r.table[q])
    && r'.table[p] == Thinner(r.table[p], r.table[p].subs - {c})
  }

  lemma DetachOnlyLeaves<P, C>(r: Registry<P, C>, r0: Registry<P, C>, p: P, c: C, v: ConnVal<P>)
    requires p in r0.table && c in r0.conns && r0.conns[c].home == p && v.home == p && v.closed
    requires r == WithConn(r0, c, v) && (r.table[p].subs == {} ==> Halted(r.table[p]) == r.table[p])
    ensures OnlyLeft(r0, Detached(r, p, c), c)
  {
    if c in r.table[p].subs {
      DetachInOne(r, p, c);
    }
    if c !in r.table[p].subs {
      assert r.table[p].subs - {c} == r.table[p].subs;
    }
  }

  lemma TearDownIsDetach<P, C>(r: Registry<P, C>, c: C)
    requires c in r.conns && r.conns[c].home in r.table && OpenOk(r, c) && !r.conns[c].closed
    ensures TornDown(r, c) ==
              Detached(WithConn(r, c, r.conns[c].(closed := true, done := true)), r.conns[c].home, c)
  {
    var v := r.conns[c];
    var r1 := WithConn(r, c, v.(closed := true));
    assert WithConn(r1, c, r1.conns[c].(done := true)) == WithConn(r, c, v.(closed := true, done := true));
  }

  lemma TearDownReleases<P, C>(cfg: Config, r: Registry<P, C>, c: C)
    requires Linked(cfg, r) && Openness(r) && c in r.conns
    ensures r.conns[c].home in r.table
    ensures Linked(cfg, TornDown(r, c)) && OnlyLeft(r, TornDown(r, c), c)
  {
    assert OpenOk(r, c);
    var v := r.conns[c];
    StoppedHasNoTimer(cfg, r, v.home);
    if v.closed {
      assert r.table[v.home].subs - {c} == r.table[v.home].subs;
    } else {
      var v' := v.(closed := true, done := true);
      TearDownIsDetach(r, c);
      FlagsKeepLinked(cfg, r, c, v');
      DetachKeepsLinked(cfg, WithConn(r, c, v'), v.home, c);
      DetachOnlyLeaves(WithConn(r, c, v'), r, v.home, c, v');
    }
  }

  lemma StoppedHasNoTimer<P, C>(cfg: Config, r: Registry<P, C>, p: P)
    requires Linked(cfg, r) && p in r.table
    ensures r.table[p].subs == {} ==> Halted(r.table[p]) == r.table[p]
  {
    assert PollerOk(cfg, r, p);
  }

  lemma LeavingKeepsOpenness<P, C>(cfg: Config, r: Registry<P, C>, r': Registry<P, C>, c: C)
    requires Linked(cfg, r) && Openness(r) && c in r.conns && r.conns[c].home in r.table && OnlyLeft(r, r', c)
    ensures Openness(r')
  {
    forall d | d in r'.conns ensures OpenOk(r', d) {
      assert OpenOk(r, d);
    }
  }

  // ---------------------------------------------------------------------
  // Broadcasts and ends
  // ---------------------------------------------------------------------

  /** Poller `p` has lost some of its subscribers, stopping if it lost the last;
      nothing else about any poller has changed. */
  ghost predicate Thinned<P, C>(r: Registry<P, C>, r': Registry<P, C>, p: P)
    requires p in r.table
  {
    && r'.table.Keys == r.table.Keys && r'.conns.Keys == r.conns.Keys
    && (forall q :: q in r.table && q != p ==> r'.table[q] == r.table[q])
    && r'.table[p].subs <= r.table[p].subs
    && r'.table[p] == Thinner(r.table[p], r'.table[p].subs)
  }

  lemma ThinnedByNothing<P, C>(cfg: Config, r: Registry<P, C>, p: P)
    requires Linked(cfg, r) && p in r.table
    ensures Thinned(r, r, p)
  {
    StoppedHasNoTimer(cfg, r, p);
  }

  lemma ThinnedTwice<P, C>(r: Registry<P, C>, r1: Registry<P, C>, r2: Registry<P, C>, p: P)
    requires p in r.table && Thinned(r, r1, p) && Thinned(r1, r2, p)
    ensures Thinned(r, r2, p)
  {
  }

  /** A subscriber that drops out of a broadcast does it by its own teardown. */
  lemma DroppingOut<P, C>(cfg: Config, r: Registry<P, C>, p: P, c: C)
    requires Linked(cfg, r) && Openness(r) && p in r.table && c in r.table[p].subs
    ensures c in r.conns && r.conns[c].home == p && !r.conns[c].closed
    ensures var r' := TornDown(r, c);
            && Linked(cfg, r') && Openness(r') && Thinned(r, r', p)
            && r'.table[p].subs == r.table[p].subs - {c} && Detached(r', p, c) == r'
  {
    assert PollerOk(cfg, r, p);
    assert OpenOk(r, c);
    TearDownReleases(cfg, r, c);
    LeavingKeepsOpenness(cfg, r, TornDown(r, c), c);
  }

  // ---------------------------------------------------------------------
  // Subscribe
  // ---------------------------------------------------------------------

  /** The cheap pre-check of the caps. */
  ghost predicate CanAccept<P, C>(cfg: Config, r: Registry<P, C>, t: string)
    requires Indexed(r)
  {
    r.count < cfg.maxSubscribers &&
    (if t in r.pollers then |r.table[r.pollers[t]].subs| else 0) < cfg.maxSubscribersPerTrace
  }

  /** A fresh connection `c` joins the poller of trace `t`, which is `p`: the
      registered one, or a new one opened at the joiner's cursor and due at once. */
  ghost function WithJoiner<P, C>(r: Registry<P, C>, t: string, p: P, c: C, now: int): Registry<P, C>
  {
    var v := if t in r.pollers && p in r.table then r.table[p] else PollerVal(t, {}, Some(now), false, false);
    Registry(r.pollers[t := p], r.table[p := v.(subs := v.subs + {c})],
             r.conns[c := ConnVal(p, false, true, false, 0)], r.count + 1)
  }

  lemma JoinLeavesOthers<P, C>(r: Registry<P, C>, t: string, p: P, c: C, now: int, s: string)
    requires Indexed(r) && s in r.pollers && s != t
    requires if t in r.pollers then r.pollers[t] == p else p !in r.table
    ensures var r' := WithJoiner(r, t, p, c, now);
            r.pollers[s] != p && s in r'.pollers && r'.pollers[s] == r.pollers[s]
            && r'.table[r.pollers[s]] == r.table[r.pollers[s]]
  {
    assert r.pollers[s] in r.table && r.table[r.pollers[s]].trace == s;
    if t in r.pollers {
      assert r.pollers[t] in r.table && r.table[r.pollers[t]].trace == t;
    }
  }

  lemma JoinSizes<P, C>(r: Registry<P, C>, t: string, p: P, c: C, now: int)
    requires Indexed(r)
    requires if t in r.pollers then r.pollers[t] == p else p !in r.table
    ensures Indexed(WithJoiner(r, t, p, c, now))
    ensures Sizes(WithJoiner(r, t, p, c, now)) == Sizes(r)[t := |WithJoiner(r, t, p, c, now).table[p].subs|]
  {
    var r' := WithJoiner(r, t, p, c, now);
    assert r'.table[p].trace == t by {
      assert t in r.pollers ==> r.table[r.pollers[t]].trace == t;
    }
    forall s | s in r'.pollers
      ensures r'.pollers[s] in r'.table && r'.table[r'.pollers[s]].trace == s
      ensures s != t ==> s in r.pollers && |r'.table[r'.pollers[s]].subs| == |r.table[r.pollers[s]].subs|
    {
      if s != t {
        JoinLeavesOthers(r, t, p, c, now, s);
      }
    }
  }

  lemma JoinKeepsCount<P, C>(cfg: Config, r: Registry<P, C>, t: string, p: P, c: C, now: int)
    requires Linked(cfg, r) && CanAccept(cfg, r, t) && c !in r.conns
    requires if t in r.pollers then r.pollers[t] == p else p !in r.table
    ensures var r' := WithJoiner(r, t, p, c, now);
            Indexed(r') && r'.count == Total(Sizes(r')) <= cfg.maxSubscribers
  {
    JoinSizes(r, t, p, c, now);
    if t in r.pollers {
      var subs := r.table[p].subs;
      assert PollerOk(cfg, r, p);
      assert c !in subs;
      assert |subs + {c}| == |subs| + 1;
      TotalChanged(Sizes(r), t, |subs + {c}|);
    } else {
      assert {} + {c} == {c};
      TotalOf(Sizes(r), t, 1);
    }
  }

  lemma JoinKeepsPoller<P, C>(cfg: Config, r: Registry<P, C>, t: string, p: P, c: C, now: int, q: P)
    requires Linked(cfg, r) && CanAccept(cfg, r, t) && c !in r.conns
    requires if t in r.pollers then r.pollers[t] == p else p !in r.table
    requires q in r.table || q == p
    ensures PollerOk(cfg, WithJoiner(r, t, p, c, now), q)
  {
    if q in r.table {
      assert PollerOk(cfg, r, q);
    }
  }

  /** Accepting a connection keeps the registry consistent and within both caps. */
  lemma JoinKeepsLinked<P, C>(cfg: Config, r: Registry<P, C>, t: string, p: P, c: C, now: int)
    requires Linked(cfg, r) && CanAccept(cfg, r, t) && c !in r.conns
    requires if t in r.pollers then r.pollers[t] == p else p !in r.table
    ensures Linked(cfg, WithJoiner(r, t, p, c, now))
  {
    var r' := WithJoiner(r, t, p, c, now);
    JoinKeepsCount(cfg, r, t, p, c, now);
    forall q | q in r'.table ensures PollerOk(cfg, r', q) {
      JoinKeepsPoller(cfg, r, t, p, c, now, q);
    }
    forall d | d in r'.conns ensures ConnOk(r', d) {
      if d in r.conns {
        assert ConnOk(r, d);
      }
    }
  }

  lemma JoinKeepsOpenness<P, C>(cfg: Config, r: Registry<P, C>, t: string, p: P, c: C, now: int)
    requires Linked(cfg, r) && Openness(r) && c !in r.conns
    requires if t in r.pollers then r.pollers[t] == p else p !in r.table
    ensures Openness(WithJoiner(r, t, p, c, now))
  {
    var r' := WithJoiner(r, t, p, c, now);
    forall d | d in r'.conns ensures OpenOk(r', d) {
      if d in r.conns {
        assert OpenOk(r, d);
      }
    }
  }

  // ---------------------------------------------------------------------
  // A poller's own steps
  // ---------------------------------------------------------------------

  ghost function WithPoller<P, C>(r: Registry<P, C>, p: P, v: PollerVal<C>): Registry<P, C> {
    r.(table := r.table[p := v])
  }

  /** A step of a poller's own that keeps its trace and subscribers and neither
      stops nor revives it. */
  predicate OwnStep<C>(v: PollerVal<C>, v': PollerVal<C>) {
    v'.trace == v.trace && v'.subs == v.subs && v'.stopped == v.stopped && (v'.stopped ==> v'.timer == None)
  }

  lemma OwnStepKeepsPoller<P, C>(cfg: Config, r: Registry<P, C>, p: P, v: PollerVal<C>, q: P)
    requires p in r.table && q in r.table && PollerOk(cfg, r, q) && OwnStep(r.table[p], v)
    ensures PollerOk(cfg, WithPoller(r, p, v), q)
  {
  }

  lemma OwnStepKeepsSizes<P, C>(r: Registry<P, C>, p: P, v: PollerVal<C>)
    requires p in r.table && Indexed(r) && OwnStep(r.table[p], v)
    ensures Indexed(WithPoller(r, p, v)) && Sizes(WithPoller(r, p, v)) == Sizes(r)
  {
  }

  lemma OwnStepKeepsLinked<P, C>(cfg: Config, r: Registry<P, C>, p: P, v: PollerVal<C>)
    requires Linked(cfg, r) && p in r.table && OwnStep(r.table[p], v)
    ensures Linked(cfg, WithPoller(r, p, v))
  {
    var r' := WithPoller(r, p, v);
    OwnStepKeepsSizes(r, p, v);
    forall q | q in r'.table ensures PollerOk(cfg, r', q) {
      OwnStepKeepsPoller(cfg, r, p, v, q);
    }
    forall d | d in r'.conns ensures ConnOk(r', d) {
      assert ConnOk(r, d);
    }
  }

  lemma OwnStepKeepsOpenness<P, C>(r: Registry<P, C>, p: P, v: PollerVal<C>)
    requires Openness(r) && p in r.table && OwnStep(r.table[p], v)
    ensures Openness(WithPoller(r, p, v))
  {
    forall d | d in r.conns ensures OpenOk(WithPoller(r, p, v), d) {
      assert OpenOk(r, d);
    }
  }

  // ---------------------------------------------------------------------
  // What consistency means
  // ---------------------------------------------------------------------

  /** Between any two steps of the event loop. */
  ghost predicate Consistent<P, C>(cfg: Config, r: Registry<P, C>) {
    Linked(cfg, r) && Openness(r) && TickingBut(r, {})
  }

  /** A connection leaving keeps everything consistent. */
  lemma LeavingKeepsConsistent<P, C>(cfg: Config, r: Registry<P, C>, r': Registry<P, C>, c: C)
    requires Consistent(cfg, r) && c in r.conns && r.conns[c].home in r.table
    requires Linked(cfg, r') && OnlyLeft(r, r', c)
    ensures Consistent(cfg, r')
  {
    LeavingKeepsOpenness(cfg, r, r', c);
    forall q | q in r'.table ensures Ticks(r'.table[q]) {
      assert Ticks(r.table[q]);
    }
  }

  lemma TearDownKeepsConsistent<P, C>(cfg: Config, r: Registry<P, C>, c: C)
    requires Consistent(cfg, r) && c in r.conns
    ensures r.conns[c].home in r.table
    ensures Consistent(cfg, TornDown(r, c)) && TornDown(r, c).conns[c].released == 1
  {
    TearDownReleases(cfg, r, c);
    LeavingKeepsConsistent(cfg, r, TornDown(r, c), c);
    assert ConnOk(TornDown(r, c), c);
  }

  /** Cancelling is a teardown; of a closed connection, at most one more flag. */
  lemma CancelKeepsConsistent<P, C>(cfg: Config, r: Registry<P, C>, c: C)
    requires Consistent(cfg, r) && c in r.conns
    ensures r.conns[c].home in r.table
    ensures Consistent(cfg, Unsubscribed(WithConn(r, c, r.conns[c].(closed := true)), c))
    ensures Unsubscribed(WithConn(r, c, r.conns[c].(closed := true)), c).table.Keys == r.table.Keys
  {
    var v := r.conns[c];
    assert OpenOk(r, c);
    if !v.closed {
      TearDownKeepsConsistent(cfg, r, c);
      TearDownReleases(cfg, r, c);
    } else {
      var v' := if v.subscribed then v.(done := true) else v;
      var r' := WithConn(r, c, v');
      assert WithConn(r, c, v.(closed := true)) == r;
      FlagsKeepLinked(cfg, r, c, v');
      forall d | d in r'.conns ensures OpenOk(r', d) {
        assert OpenOk(r, d);
      }
      forall q | q in r'.table ensures Ticks(r'.table[q]) {
        assert Ticks(r.table[q]);
      }
    }
  }

  lemma JoinKeepsConsistent<P, C>(cfg: Config, r: Registry<P, C>, t: string, p: P, c: C, now: int)
    requires Consistent(cfg, r) && CanAccept(cfg, r, t) && c !in r.conns
    requires if t in r.pollers then r.pollers[t] == p else p !in r.table
    ensures Consistent(cfg, WithJoiner(r, t, p, c, now))
  {
    var r' := WithJoiner(r, t, p, c, now);
    JoinKeepsLinked(cfg, r, t, p, c, now);
    JoinKeepsOpenness(cfg, r, t, p, c, now);
    forall q | q in r'.table ensures Ticks(r'.table[q]) {
      if q in r.table {
        assert Ticks(r.table[q]);
      }
    }
  }

  /** A tick of `p` leaves everyone else's polling alone. */
  lemma TickKeepsConsistent<P, C>(cfg: Config, r: Registry<P, C>, p: P)
    requires Linked(cfg, r) && Openness(r) && TickingBut(r, {p}) && p in r.table && Ticks(r.table[p])
    ensures Consistent(cfg, r)
  {
    forall q | q in r.table ensures Ticks(r.table[q]) {
      if q != p {
        assert q !in {p};
      }
    }
  }

  lemma OthersTick<P, C>(r: Registry<P, C>, r': Registry<P, C>, p: P)
    requires TickingBut(r, {p}) && p in r.table && r'.table.Keys == r.table.Keys
    requires forall q :: q in r.table && q != p ==> r'.table[q] == r.table[q]
    ensures TickingBut(r', {p})
  {
    forall q | q in r'.table && q !in {p} ensures Ticks(r'.table[q]) {
      assert Ticks(r.table[q]);
    }
  }

  lemma AllTick<P, C>(r: Registry<P, C>, p: P)
    requires TickingBut(r, {}) && p in r.table
    ensures TickingBut(r, {p}) && Ticks(r.table[p])
  {
    forall q | q in r.table && q !in {p} ensures Ticks(r.table[q]) {
      assert q !in {};
    }
  }

  /** The bounds the broker promises: the count is the sum of the poller sizes and
      respects both caps; a registered poller is running, has subscribers, and has
      exactly one of a pending timer and a fetch in flight; an accepted connection
      is open and unreleased while attached, and closed and released once after. */
  lemma ConsistentMeans<P, C>(cfg: Config, r: Registry<P, C>)
    requires Consistent(cfg, r)
    ensures r.count == Total(Sizes(r)) <= cfg.maxSubscribers
    ensures forall t :: t in r.pollers ==>
              var v := r.table[r.pollers[t]];
              && 0 < |v.subs| <= cfg.maxSubscribersPerTrace
              && !v.stopped && v.timer.Some? != v.polling
    ensures forall c :: c in r.conns ==>
              var v := r.conns[c];
              && v.home in r.table
              && (v.closed <==> c !in r.table[v.home].subs)
              && v.released == (if v.closed then 1 else 0)
    ensures forall p :: p in r.table && !Registered(r, p) ==>
              r.table[p].subs == {} && r.table[p].stopped && r.table[p].timer == None
  {
    forall t | t in r.pollers
      ensures var v := r.table[r.pollers[t]];
              && 0 < |v.subs| <= cfg.maxSubscribersPerTrace
              && !v.stopped && v.timer.Some? != v.polling
    {
      assert PollerOk(cfg, r, r.pollers[t]);
      assert Registered(r, r.pollers[t]) && Ticks(r.table[r.pollers[t]]);
    }
    forall c | c in r.conns
      ensures var v := r.conns[c];
              && v.home in r.table
              && (v.closed <==> c !in r.table[v.home].subs)
              && v.released == (if v.closed then 1 else 0)
    {
      assert ConnOk(r, c) && OpenOk(r, c);
    }
    forall p | p in r.table && !Registered(r, p)
      ensures r.table[p].subs == {} && r.table[p].stopped && r.table[p].timer == None
    {
      assert PollerOk(cfg, r, p);
    }
  }
}
