/** The token-bucket limiter: lazy refill, least-recently-seen eviction, and the
    retry hint. Tokens are exact reals and time is whole milliseconds. */
module RateLimit {
  import opened Wrappers

  datatype Options = Options(capacity: real, refillPerSecond: real, maxKeys: nat)

  datatype Bucket = Bucket(tokens: real, updatedMs: int)

  /** `seconds` is absent when no wait would be long enough (no refill). */
  datatype Decision = Allowed | Denied(seconds: Option<int>)

  /** The tracked buckets, and their keys from least to most recently seen. */
  datatype Table = Table(buckets: map<string, Bucket>, order: seq<string>)

  datatype Call = Call(key: string, now: int, want: real)

  const Empty := Table(map[], [])

  function MinReal(a: real, b: real): real {
    if a <= b then a else b
  }

  function Refill(o: Options, ms: int): real {
    (if ms < 0 then 0 else ms) as real / 1000.0 * o.refillPerSecond
  }

  function Ceil(x: real): int {
    -((-x).Floor)
  }

  function Refreshed(o: Options, b: Bucket, now: int): Bucket {
    Bucket(MinReal(o.capacity, b.tokens + Refill(o, now - b.updatedMs)), now)
  }

  /** One request against one bucket. */
  function Take(o: Options, b: Bucket, want: real): (Bucket, Decision) {
    if b.tokens >= want then (b.(tokens := b.tokens - want), Allowed)
    else if o.refillPerSecond == 0.0 then (b, Denied(None))
    else
      var wait := Ceil((want - b.tokens) / o.refillPerSecond);
      (b, Denied(Some(if wait < 1 then 1 else wait)))
  }

  function Without(keys: seq<string>, key: string): seq<string> {
    if keys == [] then []
    else if keys[0] == key then Without(keys[1..], key)
    else [keys[0]] + Without(keys[1..], key)
  }

  /** Make room for a new key: at the limit, the least recently seen key goes. */
  function Evicted(o: Options, t: Table): Table {
    if |t.buckets| >= o.maxKeys && t.order != []
    then Table(t.buckets - {t.order[0]}, t.order[1..])
    else t
  }

  /** The table with the key taken out of the order, and the bucket it draws from. */
  function Looked(o: Options, t: Table, key: string, now: int): (Table, Bucket) {
    if key in t.buckets
    then (Table(t.buckets, Without(t.order, key)), Refreshed(o, t.buckets[key], now))
    else (Evicted(o, t), Bucket(o.capacity, now))
  }

  function Step(o: Options, t: Table, c: Call): (Table, Decision) {
    var (rest, b) := Looked(o, t, c.key, c.now);
    var (b', d) := Take(o, b, c.want);
    (Table(rest.buckets[c.key := b'], rest.order + [c.key]), d)
  }

  class TokenBucketLimiter {
    const options: Options
    var buckets: map<string, Bucket>
    var order: seq<string>

    constructor (options: Options)
      ensures this.options == options && State() == Empty
    {
      this.options, buckets, order := options, map[], [];
    }

    function State(): Table
      reads this
    {
      Table(buckets, order)
    }

    method TryAcquire(key: string, now: int, want: real) returns (d: Decision)
      modifies this
      ensures (State(), d) == Step(options, old(State()), Call(key, now, want))
    {
      var bucket := Look(key, now);
      order := order + [key];
      d := Spend(key, bucket, want);
    }

    /** The bucket refilled for the time since its last use, or a full one, evicting the
        least recently seen key when the table is full. */
    method Look(key: string, now: int) returns (bucket: Bucket)
      modifies this
      ensures (State(), bucket) == Looked(options, old(State()), key, now)
    {
      if key in buckets {
        bucket := buckets[key];
        var elapsed := (if now - bucket.updatedMs < 0 then 0 else now - bucket.updatedMs) as real / 1000.0;
        bucket := Bucket(MinReal(options.capacity, bucket.tokens + elapsed * options.refillPerSecond), now);
        order := Remove(order, key);
      } else {
        bucket := Bucket(options.capacity, now);
        if |buckets| >= options.maxKeys && order != [] {
          buckets := buckets - {order[0]};
          order := order[1..];
        }
      }
    }

    /** Take the tokens from the refreshed bucket, or say how long to wait. */
    method Spend(key: string, bucket: Bucket, want: real) returns (d: Decision)
      modifies this`buckets
      ensures buckets == old(buckets)[key := Take(options, bucket, want).0] && d == Take(options, bucket, want).1
    {
      if bucket.tokens >= want {
        buckets := buckets[key := bucket.(tokens := bucket.tokens - want)];
        return Allowed;
      }
      buckets := buckets[key := bucket];
      if options.refillPerSecond == 0.0 {
        return Denied(None);
      }
      var wait := Ceil((want - bucket.tokens) / options.refillPerSecond);
      return Denied(Some(if wait < 1 then 1 else wait));
    }

    static method Remove(keys: seq<string>, key: string) returns (rest: seq<string>)
      ensures rest == Without(keys, key)
    {
      rest := [];
      for i := 0 to |keys|
        invariant rest + Without(keys[i..], key) == Without(keys, key)
      {
        if keys[i] != key {
          rest := rest + [keys[i]];
        }
      }
    }
  }

  // ---------------------------------------------------------------------
  // The table
  // ---------------------------------------------------------------------

  ghost predicate Ordered(t: Table) {
    && (forall k :: k in t.order <==> k in t.buckets)
    && (forall i, j :: 0 <= i < j < |t.order| ==> t.order[i] != t.order[j])
  }

  lemma {:induction false} WithoutMembers(keys: seq<string>, key: string)
    ensures forall k :: k in Without(keys, key) <==> k in keys && k != key
    ensures |Without(keys, key)| <= |keys|
  {
    if keys != [] {
      WithoutMembers(keys[1..], key);
    }
  }

  ghost predicate Distinct(keys: seq<string>) {
    forall i, j :: 0 <= i < j < |keys| ==> keys[i] != keys[j]
  }

  lemma {:induction false} WithoutDistinct(keys: seq<string>, key: string)
    requires Distinct(keys)
    ensures Distinct(Without(keys, key))
  {
    if keys != [] {
      WithoutDistinct(keys[1..], key);
      WithoutMembers(keys[1..], key);
      var rest := Without(keys[1..], key);
      forall j | 0 <= j < |rest| ensures rest[j] != keys[0] {
        assert rest[j] in rest;
      }
    }
  }

  lemma StepKeepsOrdered(o: Options, t: Table, c: Call)
    requires Ordered(t)
    ensures Ordered(Step(o, t, c).0)
  {
    var t' := Step(o, t, c).0;
    if c.key in t.buckets {
      WithoutMembers(t.order, c.key);
      WithoutDistinct(t.order, c.key);
    }
  }

  /** Bounded memory: past the first key the table never outgrows `maxKeys`. */
  lemma StepKeepsSize(o: Options, t: Table, c: Call)
    requires Ordered(t) && |t.buckets| <= (if o.maxKeys == 0 then 1 else o.maxKeys)
    ensures |Step(o, t, c).0.buckets| <= (if o.maxKeys == 0 then 1 else o.maxKeys)
  {
    var t' := Step(o, t, c).0;
    if c.key in t.buckets {
      assert t'.buckets.Keys == t.buckets.Keys;
    } else {
      EvictionMakesRoom(o, t);
      OneMoreKey(Evicted(o, t).buckets, c.key, t'.buckets[c.key]);
    }
  }

  lemma OneMoreKey(buckets: map<string, Bucket>, key: string, b: Bucket)
    ensures |buckets[key := b]| <= |buckets| + 1
  {
    assert buckets[key := b].Keys == buckets.Keys + {key};
    assert |buckets[key := b]| == |buckets[key := b].Keys| && |buckets| == |buckets.Keys|;
  }

  lemma EvictionMakesRoom(o: Options, t: Table)
    requires Ordered(t) && |t.buckets| <= (if o.maxKeys == 0 then 1 else o.maxKeys)
    ensures |Evicted(o, t).buckets| < (if o.maxKeys == 0 then 1 else o.maxKeys)
  {
    if t.order == [] {
      assert forall k :: k in t.buckets ==> k in t.order;
      assert t.buckets == map[];
    } else if |t.buckets| >= o.maxKeys {
      assert t.order[0] in t.order;
      assert Evicted(o, t).buckets.Keys == t.buckets.Keys - {t.order[0]};
    }
  }

  function Run(o: Options, t: Table, cs: seq<Call>): Table
    decreases |cs|
  {
    if cs == [] then t else Run(o, Step(o, t, cs[0]).0, cs[1..])
  }

  // ---------------------------------------------------------------------
  // Eviction is least recently seen
  // ---------------------------------------------------------------------

  /** When `key` was last seen: the index of its last call, or -1. */
  function LastSeen(cs: seq<Call>, key: string): int {
    if cs == [] then -1
    else if cs[|cs| - 1].key == key then |cs| - 1
    else LastSeen(cs[..|cs| - 1], key)
  }

  ghost predicate OrderedBySight(t: Table, cs: seq<Call>) {
    && Ordered(t)
    && (forall i :: 0 <= i < |t.order| ==> 0 <= LastSeen(cs, t.order[i]) < |cs|)
    && (forall i, j :: 0 <= i < j < |t.order| ==> LastSeen(cs, t.order[i]) < LastSeen(cs, t.order[j]))
  }

  lemma SightAfter(cs: seq<Call>, c: Call, key: string)
    ensures LastSeen(cs + [c], key) == if c.key == key then |cs| else LastSeen(cs, key)
  {
    assert (cs + [c])[..|cs|] == cs;
  }

  lemma {:induction false} WithoutKeepsSight(keys: seq<string>, key: string, cs: seq<Call>)
    requires forall i, j :: 0 <= i < j < |keys| ==> LastSeen(cs, keys[i]) < LastSeen(cs, keys[j])
    ensures var rest := Without(keys, key);
            forall i, j :: 0 <= i < j < |rest| ==> LastSeen(cs, rest[i]) < LastSeen(cs, rest[j])
  {
    if keys != [] {
      WithoutKeepsSight(keys[1..], key, cs);
      WithoutMembers(keys[1..], key);
      var rest := Without(keys[1..], key);
      forall j | 0 <= j < |rest| ensures LastSeen(cs, keys[0]) < LastSeen(cs, rest[j]) {
        assert rest[j] in keys[1..];
        var k :| 0 <= k < |keys[1..]| && keys[1..][k] == rest[j];
        assert keys[k + 1] == rest[j];
      }
    }
  }

  /** The keys that stay, in the order they were in. */
  lemma RestBySight(o: Options, t: Table, c: Call, cs: seq<Call>) returns (rest: seq<string>)
    requires OrderedBySight(t, cs)
    ensures Step(o, t, c).0.order == rest + [c.key]
    ensures forall i :: 0 <= i < |rest| ==> rest[i] != c.key && rest[i] in t.order
    ensures forall i, j :: 0 <= i < j < |rest| ==> LastSeen(cs, rest[i]) < LastSeen(cs, rest[j])
  {
    if c.key in t.buckets {
      rest := Without(t.order, c.key);
      WithoutMembers(t.order, c.key);
      WithoutKeepsSight(t.order, c.key, cs);
      forall i | 0 <= i < |rest| ensures rest[i] != c.key && rest[i] in t.order {
        assert rest[i] in rest;
      }
    } else {
      rest := Evicted(o, t).order;
    }
  }

  lemma StepKeepsSight(o: Options, t: Table, c: Call, cs: seq<Call>)
    requires OrderedBySight(t, cs)
    ensures OrderedBySight(Step(o, t, c).0, cs + [c])
  {
    StepKeepsOrdered(o, t, c);
    var rest := RestBySight(o, t, c, cs);
    var order := Step(o, t, c).0.order;
    SightAfter(cs, c, c.key);
    forall i | 0 <= i < |rest|
      ensures LastSeen(cs + [c], order[i]) == LastSeen(cs, rest[i]) && 0 <= LastSeen(cs, rest[i]) < |cs|
    {
      SightAfter(cs, c, rest[i]);
      var k :| 0 <= k < |t.order| && t.order[k] == rest[i];
    }
  }

  lemma {:induction false} RunKeepsSight(o: Options, cs: seq<Call>)
    ensures OrderedBySight(Run(o, Empty, cs), cs)
  {
    if cs != [] {
      var front, c := cs[..|cs| - 1], cs[|cs| - 1];
      RunKeepsSight(o, front);
      StepKeepsSight(o, Run(o, Empty, front), c, front);
      RunAppends(o, Empty, front, c);
      assert cs == front + [c];
    }
  }

  lemma {:induction false} RunAppends(o: Options, t: Table, cs: seq<Call>, c: Call)
    ensures Run(o, t, cs + [c]) == Step(o, Run(o, t, cs), c).0
    decreases |cs|
  {
    if cs == [] {
      assert ([] + [c])[1..] == [];
    } else {
      assert (cs + [c])[1..] == cs[1..] + [c];
      RunAppends(o, Step(o, t, cs[0]).0, cs[1..], c);
    }
  }

  /** After any calls, a call drops a tracked key exactly when its own key is new
      and the table is full, and then exactly the least recently seen one. */
  lemma EvictsLeastRecentlySeen(o: Options, cs: seq<Call>, c: Call, k: string)
    requires k in Run(o, Empty, cs).buckets
    ensures var t := Run(o, Empty, cs);
            k !in Step(o, t, c).0.buckets <==>
              (c.key !in t.buckets && |t.buckets| >= o.maxKeys &&
               forall j :: j in t.buckets && j != k ==> LastSeen(cs, k) < LastSeen(cs, j))
  {
    var t := Run(o, Empty, cs);
    RunKeepsSight(o, cs);
    assert k in t.order;
    var i :| 0 <= i < |t.order| && t.order[i] == k;
    if i == 0 {
      forall j | j in t.buckets && j != k ensures LastSeen(cs, k) < LastSeen(cs, j) {
        assert j in t.order;
        var m :| 0 <= m < |t.order| && t.order[m] == j;
      }
    } else {
      assert t.order[0] in t.order;
      assert t.order[0] in t.buckets && LastSeen(cs, t.order[0]) < LastSeen(cs, k);
    }
  }

  // ---------------------------------------------------------------------
  // Agreement with an unbounded limiter
  // ---------------------------------------------------------------------

  function Lookup(t: Table, key: string): Option<Bucket> {
    if key in t.buckets then Some(t.buckets[key]) else None
  }

  /** A limiter with one bucket and no eviction. */
  function Solo(o: Options, b: Option<Bucket>, c: Call): (Bucket, Decision) {
    Take(o, if b.Some? then Refreshed(o, b.value, c.now) else Bucket(o.capacity, c.now), c.want)
  }

  function SoloDecisions(o: Options, b: Option<Bucket>, key: string, cs: seq<Call>): seq<Decision>
    decreases |cs|
  {
    if cs == [] then []
    else if cs[0].key != key then SoloDecisions(o, b, key, cs[1..])
    else
      var (b', d) := Solo(o, b, cs[0]);
      [d] + SoloDecisions(o, Some(b'), key, cs[1..])
  }

  /** What the limiter answered the calls of one key. */
  function Decisions(o: Options, t: Table, key: string, cs: seq<Call>): seq<Decision>
    decreases |cs|
  {
    if cs == [] then []
    else
      var (t', d) := Step(o, t, cs[0]);
      (if cs[0].key == key then [d] else []) + Decisions(o, t', key, cs[1..])
  }

  ghost predicate NeverEvicted(o: Options, t: Table, key: string, cs: seq<Call>)
    decreases |cs|
  {
    cs == [] ||
    ((key in t.buckets ==> key in Step(o, t, cs[0]).0.buckets) && NeverEvicted(o, Step(o, t, cs[0]).0, key, cs[1..]))
  }

  /** Until a key is evicted, the limiter answers it as if it were alone. */
  lemma {:induction false} AgreesUntilEvicted(o: Options, t: Table, key: string, cs: seq<Call>)
    requires NeverEvicted(o, t, key, cs)
    ensures Decisions(o, t, key, cs) == SoloDecisions(o, Lookup(t, key), key, cs)
    decreases |cs|
  {
    if cs != [] {
      var t' := Step(o, t, cs[0]).0;
      AgreesUntilEvicted(o, t', key, cs[1..]);
    }
  }

  // ---------------------------------------------------------------------
  // How much is granted
  // ---------------------------------------------------------------------

  /** The tokens granted to one key. */
  function Granted(o: Options, t: Table, key: string, cs: seq<Call>): real
    decreases |cs|
  {
    if cs == [] then 0.0
    else
      var (t', d) := Step(o, t, cs[0]);
      (if cs[0].key == key && d.Allowed? then cs[0].want else 0.0) + Granted(o, t', key, cs[1..])
  }

  ghost predicate ClockRises(cs: seq<Call>, from: int, to: int) {
    from <= to &&
    if cs == [] then true else from <= cs[0].now && ClockRises(cs[1..], cs[0].now, to)
  }

  ghost predicate WantsPositive(cs: seq<Call>) {
    forall i :: 0 <= i < |cs| ==> cs[i].want >= 0.0
  }

  lemma RefillAdds(o: Options, a: int, b: int)
    requires a >= 0 && b >= 0
    ensures Refill(o, a + b) == Refill(o, a) + Refill(o, b)
  {
    assert (a + b) as real == a as real + b as real;
  }

  lemma RefillPositive(o: Options, a: int)
    requires o.refillPerSecond >= 0.0
    ensures Refill(o, a) >= 0.0
  {
  }

  /** The rate is tokens a second, and time is in milliseconds. */
  lemma RefillIsPerSecond(o: Options, ms: int)
    ensures 1000.0 * Refill(o, ms) == (if ms < 0 then 0.0 else o.refillPerSecond * ms as real)
  {
  }

  // The most that calls at given instants can be granted, under any clock.

  /** The instants of the calls of one key. */
  function Instants(cs: seq<Call>, key: string): seq<int> {
    if cs == [] then []
    else (if cs[0].key == key then [cs[0].now] else []) + Instants(cs[1..], key)
  }

  lemma InstantsSplit(cs: seq<Call>, key: string)
    requires cs != []
    ensures Instants(cs, key) == if cs[0].key == key then [cs[0].now] + Instants(cs[1..], key) else Instants(cs[1..], key)
  {
    assert [] + Instants(cs[1..], key) == Instants(cs[1..], key);
  }

  /** What refills from call to call of one key, no more than the capacity each time. A
      clock that runs back sets the bucket back too, so what has refilled once refills
      again. */
  function Rises(o: Options, last: int, ns: seq<int>): real
    decreases |ns|
  {
    if ns == [] then 0.0 else MinReal(o.capacity, Refill(o, ns[0] - last)) + Rises(o, ns[0], ns[1..])
  }

  /** What the first of the calls finds, and what refills between them. */
  function Most(o: Options, b: Option<Bucket>, ns: seq<int>): real {
    if ns == [] then 0.0
    else Found(o, b, ns[0]) + Rises(o, ns[0], ns[1..])
  }

  ghost predicate InCredit(o: Options, b: Option<Bucket>) {
    o.refillPerSecond >= 0.0 && o.capacity >= 0.0 && (b.Some? ==> b.value.tokens >= 0.0)
  }

  /** A tracked key has at most its tokens and what refills from call to call. */
  lemma MostFromBucket(o: Options, b: Bucket, ns: seq<int>)
    requires InCredit(o, Some(b))
    ensures Most(o, Some(b), ns) <= b.tokens + Rises(o, b.updatedMs, ns)
  {
    if ns != [] {
      RefillPositive(o, ns[0] - b.updatedMs);
    }
  }

  lemma OthersLeaveBucket(o: Options, t: Table, c: Call, key: string)
    requires c.key != key && (key in t.buckets ==> key in Step(o, t, c).0.buckets)
    ensures Lookup(Step(o, t, c).0, key) == Lookup(t, key)
  {
  }

  /** What a call of the key finds: its tokens, refilled, or a full bucket. */
  function Found(o: Options, b: Option<Bucket>, now: int): real {
    if b.Some? then Refreshed(o, b.value, now).tokens else o.capacity
  }

  /** What one call of a key is granted, and what it leaves. */
  lemma OwnCall(o: Options, t: Table, c: Call)
    requires InCredit(o, Lookup(t, c.key)) && c.want >= 0.0
    ensures Found(o, Lookup(t, c.key), c.now) >= 0.0
    ensures var (t', d) := Step(o, t, c);
            var found := Found(o, Lookup(t, c.key), c.now);
            Lookup(t', c.key) == Some(Bucket(if c.want <= found then found - c.want else found, c.now))
            && (d.Allowed? <==> c.want <= found)
  {
    if c.key in t.buckets {
      RefillPositive(o, c.now - t.buckets[c.key].updatedMs);
    }
  }

  lemma MostSplits(o: Options, b: Option<Bucket>, n: int, ns: seq<int>)
    ensures Most(o, b, [n] + ns) == Found(o, b, n) + Rises(o, n, ns)
  {
    assert ([n] + ns)[1..] == ns;
  }

  /** Under any clock, and whatever calls of other keys come in between, a key that stays
      tracked is granted at most this. */
  lemma {:induction false} GrantedAtMost(o: Options, t: Table, key: string, cs: seq<Call>)
    requires InCredit(o, Lookup(t, key)) && NeverEvicted(o, t, key, cs) && WantsPositive(cs)
    ensures Granted(o, t, key, cs) <= Most(o, Lookup(t, key), Instants(cs, key))
    decreases |cs|
  {
    if cs != [] {
      var c, t' := cs[0], Step(o, t, cs[0]).0;
      assert WantsPositive(cs[1..]);
      InstantsSplit(cs, key);
      if c.key == key {
        OwnCallAtMost(o, t, c, Instants(cs[1..], key));
      } else {
        OthersLeaveBucket(o, t, c, key);
      }
      GrantedAtMost(o, t', key, cs[1..]);
    }
  }

  /** What one call is granted, and the most after it, is no more than the most. */
  lemma OwnCallAtMost(o: Options, t: Table, c: Call, ns: seq<int>)
    requires InCredit(o, Lookup(t, c.key)) && c.want >= 0.0
    ensures var (t', d) := Step(o, t, c);
            && InCredit(o, Lookup(t', c.key))
            && (if d.Allowed? then c.want else 0.0) + Most(o, Lookup(t', c.key), ns) <= Most(o, Lookup(t, c.key), [c.now] + ns)
  {
    OwnCall(o, t, c);
    MostFromBucket(o, Lookup(Step(o, t, c).0, c.key).value, ns);
    MostSplits(o, Lookup(t, c.key), c.now, ns);
  }

  /** A tracked key is granted at most its tokens and what refills from call to call. */
  lemma GrantedFromBucket(o: Options, t: Table, key: string, cs: seq<Call>)
    requires key in t.buckets && InCredit(o, Lookup(t, key)) && NeverEvicted(o, t, key, cs) && WantsPositive(cs)
    ensures Granted(o, t, key, cs) <= t.buckets[key].tokens + Rises(o, t.buckets[key].updatedMs, Instants(cs, key))
  {
    GrantedAtMost(o, t, key, cs);
    MostFromBucket(o, t.buckets[key], Instants(cs, key));
  }

  /** The same calls, asking for other amounts. */
  ghost predicate SameCalls(cs: seq<Call>, ds: seq<Call>) {
    |cs| == |ds| && forall i :: 0 <= i < |cs| ==> cs[i].key == ds[i].key && cs[i].now == ds[i].now
  }

  /** Which keys are tracked does not depend on the amounts asked for. */
  lemma {:induction false} SameKeysTracked(o: Options, t: Table, u: Table, key: string, cs: seq<Call>, ds: seq<Call>)
    requires SameCalls(cs, ds) && t.order == u.order && t.buckets.Keys == u.buckets.Keys
    ensures NeverEvicted(o, t, key, cs) <==> NeverEvicted(o, u, key, ds)
    decreases |cs|
  {
    if cs != [] {
      SameKeysNext(o, t, u, cs[0], ds[0]);
      SameKeysTracked(o, Step(o, t, cs[0]).0, Step(o, u, ds[0]).0, key, cs[1..], ds[1..]);
    }
  }

  lemma SameKeysNext(o: Options, t: Table, u: Table, c: Call, d: Call)
    requires c.key == d.key && c.now == d.now && t.order == u.order && t.buckets.Keys == u.buckets.Keys
    ensures Step(o, t, c).0.order == Step(o, u, d).0.order
    ensures Step(o, t, c).0.buckets.Keys == Step(o, u, d).0.buckets.Keys
  {
    assert |t.buckets| == |t.buckets.Keys| && |u.buckets| == |u.buckets.Keys|;
  }

  lemma {:induction false} SameInstants(cs: seq<Call>, ds: seq<Call>, key: string)
    requires SameCalls(cs, ds)
    ensures Instants(cs, key) == Instants(ds, key)
    decreases |cs|
  {
    if cs != [] {
      SameInstants(cs[1..], ds[1..], key);
    }
  }

  /** Asking for all it finds empties the bucket, and goes on like the call itself. */
  lemma AskedForAll(o: Options, t: Table, c: Call, cs: seq<Call>) returns (all: Call)
    requires InCredit(o, Lookup(t, c.key)) && NeverEvicted(o, Step(o, t, c).0, c.key, cs)
    ensures all.key == c.key && all.now == c.now && all.want == Found(o, Lookup(t, c.key), c.now) >= 0.0
    ensures Step(o, t, all).1 == Allowed && Lookup(Step(o, t, all).0, c.key) == Some(Bucket(0.0, c.now))
    ensures NeverEvicted(o, Step(o, t, all).0, c.key, cs)
  {
    if c.key in t.buckets {
      RefillPositive(o, c.now - t.buckets[c.key].updatedMs);
    }
    all := c.(want := Found(o, Lookup(t, c.key), c.now));
    OwnCall(o, t, all);
    SameKeysNext(o, t, t, c, all);
    SameKeysTracked(o, Step(o, t, c).0, Step(o, t, all).0, c.key, cs, cs);
  }

  lemma SameCallsJoin(c: Call, d: Call, cs: seq<Call>, ds: seq<Call>)
    requires c.key == d.key && c.now == d.now && d.want >= 0.0 && SameCalls(cs, ds) && WantsPositive(ds)
    ensures SameCalls([c] + cs, [d] + ds) && WantsPositive([d] + ds)
  {
  }

  lemma GrantedSplits(o: Options, t: Table, key: string, c: Call, cs: seq<Call>)
    ensures Granted(o, t, key, [c] + cs) ==
            (if c.key == key && Step(o, t, c).1.Allowed? then c.want else 0.0) + Granted(o, Step(o, t, c).0, key, cs)
  {
    assert ([c] + cs)[1..] == cs;
  }

  /** Asking for everything at every call, a key is granted all of it. */
  lemma {:induction false} AllIsGranted(o: Options, t: Table, key: string, cs: seq<Call>) returns (ds: seq<Call>)
    requires InCredit(o, Lookup(t, key)) && NeverEvicted(o, t, key, cs) && WantsPositive(cs)
    ensures SameCalls(cs, ds) && WantsPositive(ds)
    ensures Granted(o, t, key, ds) == Most(o, Lookup(t, key), Instants(cs, key))
    decreases |cs|
  {
    if cs == [] {
      ds := [];
    } else {
      var c := cs[0];
      assert WantsPositive(cs[1..]) && cs == [c] + cs[1..];
      InstantsSplit(cs, key);
      if c.key == key {
        c := AskedForAll(o, t, c, cs[1..]);
        AllOfOne(o, t, c, Instants(cs[1..], key));
      } else {
        OthersLeaveBucket(o, t, c, key);
      }
      var rest := AllIsGranted(o, Step(o, t, c).0, key, cs[1..]);
      ds := [c] + rest;
      SameCallsJoin(cs[0], c, cs[1..], rest);
      GrantedSplits(o, t, key, c, rest);
    }
  }

  lemma AllOfOne(o: Options, t: Table, c: Call, ns: seq<int>)
    requires c.want == Found(o, Lookup(t, c.key), c.now) && Lookup(Step(o, t, c).0, c.key) == Some(Bucket(0.0, c.now))
    ensures c.want + Most(o, Lookup(Step(o, t, c).0, c.key), ns) == Most(o, Lookup(t, c.key), [c.now] + ns)
  {
    MostSplits(o, Lookup(t, c.key), c.now, ns);
    EmptiedRises(o, Bucket(0.0, c.now), ns);
  }

  lemma EmptiedRises(o: Options, b: Bucket, ns: seq<int>)
    requires b.tokens == 0.0
    ensures Most(o, Some(b), ns) == Rises(o, b.updatedMs, ns)
  {
  }

  /** A bound holds of calls at these instants, whatever they ask for, if and only if the
      most they can be granted is within it. */
  lemma BoundHoldsIff(o: Options, t: Table, key: string, cs: seq<Call>, bound: real)
    requires InCredit(o, Lookup(t, key)) && NeverEvicted(o, t, key, cs) && WantsPositive(cs)
    ensures (forall ds :: SameCalls(cs, ds) && WantsPositive(ds) ==> Granted(o, t, key, ds) <= bound) <==>
            Most(o, Lookup(t, key), Instants(cs, key)) <= bound
  {
    var all := AllIsGranted(o, t, key, cs);
    forall ds | SameCalls(cs, ds) && WantsPositive(ds)
      ensures Granted(o, t, key, ds) <= Most(o, Lookup(t, key), Instants(cs, key))
    {
      SameKeysTracked(o, t, t, key, cs, ds);
      SameInstants(cs, ds, key);
      GrantedAtMost(o, t, key, ds);
    }
  }

  /** The bound of a new key, capacity and refill over an interval, holds if and only if
      what refills from call to call is no more than what refills over the interval. */
  lemma NewKeyBoundIff(o: Options, t: Table, key: string, cs: seq<Call>, n: int, ns: seq<int>, from: int, to: int)
    requires o.refillPerSecond >= 0.0 && o.capacity >= 0.0 && key !in t.buckets
    requires NeverEvicted(o, t, key, cs) && WantsPositive(cs) && Instants(cs, key) == [n] + ns
    ensures (forall ds :: SameCalls(cs, ds) && WantsPositive(ds) ==>
               Granted(o, t, key, ds) <= o.capacity + Refill(o, to - from)) <==>
            Rises(o, n, ns) <= Refill(o, to - from)
  {
    BoundHoldsIff(o, t, key, cs, o.capacity + Refill(o, to - from));
    assert ([n] + ns)[1..] == ns;
  }

  /** A key that calls alone is never evicted, so for it the condition is exact. */
  lemma LoneKeyBoundIff(o: Options, key: string, cs: seq<Call>, from: int, to: int)
    requires o.refillPerSecond >= 0.0 && o.capacity >= 0.0 && WantsPositive(cs)
    requires cs != [] && forall i :: 0 <= i < |cs| ==> cs[i].key == key
    ensures (forall ds :: SameCalls(cs, ds) && WantsPositive(ds) ==>
               Granted(o, Empty, key, ds) <= o.capacity + Refill(o, to - from)) <==>
            Rises(o, cs[0].now, Instants(cs[1..], key)) <= Refill(o, to - from)
  {
    LoneKeyStays(o, Empty, key, cs);
    InstantsSplit(cs, key);
    NewKeyBoundIff(o, Empty, key, cs, cs[0].now, Instants(cs[1..], key), from, to);
  }

  lemma {:induction false} LoneKeyStays(o: Options, t: Table, key: string, cs: seq<Call>)
    requires forall i :: 0 <= i < |cs| ==> cs[i].key == key
    ensures t == Empty || key in t.buckets ==> NeverEvicted(o, t, key, cs)
    decreases |cs|
  {
    if cs != [] {
      LoneKeyStays(o, Step(o, t, cs[0]).0, key, cs[1..]);
    }
  }

  // Under a clock that does not run back.

  ghost predicate InstantsRise(ns: seq<int>, from: int, to: int) {
    from <= to && if ns == [] then true else from <= ns[0] && InstantsRise(ns[1..], ns[0], to)
  }

  lemma RiseFrom(ns: seq<int>, earlier: int, from: int, to: int)
    requires earlier <= from && InstantsRise(ns, from, to)
    ensures InstantsRise(ns, earlier, to)
  {
  }

  lemma {:induction false} RisingCalls(cs: seq<Call>, key: string, from: int, to: int)
    requires ClockRises(cs, from, to)
    ensures InstantsRise(Instants(cs, key), from, to)
    decreases |cs|
  {
    if cs != [] {
      RisingCalls(cs[1..], key, cs[0].now, to);
      InstantsSplit(cs, key);
      if cs[0].key == key {
        assert Instants(cs, key)[1..] == Instants(cs[1..], key);
      } else {
        RiseFrom(Instants(cs, key), from, cs[0].now, to);
      }
    }
  }

  /** Nothing refills twice: from call to call no more than over the whole interval. */
  lemma {:induction false} RisesOnce(o: Options, ns: seq<int>, last: int, to: int)
    requires o.refillPerSecond >= 0.0 && InstantsRise(ns, last, to)
    ensures Rises(o, last, ns) <= Refill(o, to - last)
    decreases |ns|
  {
    RefillPositive(o, to - last);
    if ns != [] {
      RisesLater(ns, last, to);
      RisesOnce(o, ns[1..], ns[0], to);
      RefillAdds(o, ns[0] - last, to - ns[0]);
    }
  }

  lemma RisesLater(ns: seq<int>, from: int, to: int)
    requires InstantsRise(ns, from, to)
    ensures ns != [] ==> ns[0] <= to
  {
    if ns != [] {
      assert InstantsRise(ns[1..], ns[0], to);
    }
  }

  /** With a clock that never runs back, a key that stays tracked is granted over
      any interval at most the capacity plus what refills in it. */
  lemma GrantsAreBounded(o: Options, t: Table, key: string, cs: seq<Call>, from: int, to: int)
    requires o.refillPerSecond >= 0.0 && o.capacity >= 0.0
    requires NeverEvicted(o, t, key, cs) && WantsPositive(cs) && ClockRises(cs, from, to)
    requires key in t.buckets ==> 0.0 <= t.buckets[key].tokens <= o.capacity
    ensures Granted(o, t, key, cs) <= o.capacity + Refill(o, to - from)
    ensures 1000.0 * (Granted(o, t, key, cs) - o.capacity) <= o.refillPerSecond * (to - from) as real
  {
    GrantedAtMost(o, t, key, cs);
    RisingCalls(cs, key, from, to);
    MostWhileRising(o, Lookup(t, key), Instants(cs, key), from, to);
    InRateTerms(o, Granted(o, t, key, cs), from, to);
  }

  lemma InRateTerms(o: Options, granted: real, from: int, to: int)
    requires from <= to && granted <= o.capacity + Refill(o, to - from)
    ensures 1000.0 * (granted - o.capacity) <= o.refillPerSecond * (to - from) as real
  {
    RefillIsPerSecond(o, to - from);
  }

  lemma MostWhileRising(o: Options, b: Option<Bucket>, ns: seq<int>, from: int, to: int)
    requires InCredit(o, b) && InstantsRise(ns, from, to)
    ensures Most(o, b, ns) <= o.capacity + Refill(o, to - from)
  {
    RefillPositive(o, to - from);
    if ns != [] {
      RisesLater(ns, from, to);
      assert InstantsRise(ns[1..], ns[0], to);
      RisesOnce(o, ns[1..], ns[0], to);
      RefillLonger(o, from, ns[0], to);
    }
  }

  lemma RefillLonger(o: Options, from: int, mid: int, to: int)
    requires o.refillPerSecond >= 0.0 && from <= mid <= to
    ensures Refill(o, to - mid) <= Refill(o, to - from)
  {
    RefillAdds(o, mid - from, to - mid);
    RefillPositive(o, mid - from);
  }

  /** Such a clock does grant more: with capacity 1 and one token a second, the calls at
      1000, 0 and 1000 ms refill a second twice, and are granted twice within no time. */
  lemma ClockRunningBackGrantsMore()
    ensures var o := Options(1.0, 1.0, 10);
            Decisions(o, Empty, "ip", [Call("ip", 1000, 1.0), Call("ip", 0, 1.0), Call("ip", 1000, 1.0)])
              == [Allowed, Denied(Some(1)), Allowed]
  {
    var o := Options(1.0, 1.0, 10);
    var cs := [Call("ip", 1000, 1.0), Call("ip", 0, 1.0), Call("ip", 1000, 1.0)];
    var t1 := Step(o, Empty, cs[0]).0;
    var t2 := Step(o, t1, cs[1]).0;
    assert t1.buckets["ip"] == Bucket(0.0, 1000);
    assert Step(o, t1, cs[1]).1 == Denied(Some(1));
    assert t2.buckets["ip"] == Bucket(0.0, 0);
    assert Step(o, t2, cs[2]).1 == Allowed;
    assert Decisions(o, t2, "ip", cs[2..]) == [Allowed];
    assert cs[1..][1..] == cs[2..];
    assert Decisions(o, t1, "ip", cs[1..]) == [Denied(Some(1)), Allowed];
  }

  // ---------------------------------------------------------------------
  // The retry hint
  // ---------------------------------------------------------------------

  lemma AllowedIff(o: Options, t: Table, c: Call)
    ensures Step(o, t, c).1.Allowed? <==> c.want <= Found(o, Lookup(t, c.key), c.now)
    ensures c.key in Step(o, t, c).0.buckets && Step(o, t, c).0.buckets[c.key].updatedMs == c.now
  {
  }

  lemma RefreshedFits(o: Options, b: Bucket, want: real, later: int)
    requires b.updatedMs <= later
    ensures want <= Refreshed(o, b, later).tokens <==>
            want <= o.capacity && 1000.0 * (want - b.tokens) <= o.refillPerSecond * (later - b.updatedMs) as real
  {
    RefillIsPerSecond(o, later - b.updatedMs);
  }

  /** What a denied request lacked. */
  function Lacking(o: Options, t: Table, c: Call): real
    requires c.key in Step(o, t, c).0.buckets
  {
    c.want - Step(o, t, c).0.buckets[c.key].tokens
  }

  /** A denied request that is repeated with nothing in between is granted exactly when it
      fits the capacity and what it lacked has refilled in the meantime. */
  lemma RepeatedIsAllowedIff(o: Options, t: Table, c: Call, later: int)
    requires later >= c.now && Step(o, t, c).1.Denied?
    ensures c.key in Step(o, t, c).0.buckets
    ensures Step(o, Step(o, t, c).0, c.(now := later)).1.Allowed? <==>
              c.want <= o.capacity &&
              1000.0 * Lacking(o, t, c) <= o.refillPerSecond * (later - c.now) as real
  {
    AllowedIff(o, t, c);
    AllowedIff(o, Step(o, t, c).0, c.(now := later));
    RefreshedFits(o, Step(o, t, c).0.buckets[c.key], c.want, later);
  }

  /** The least whole number of seconds that brings `d` tokens at `r` a second. */
  lemma CeilIsLeast(d: real, r: real, s: int)
    requires r > 0.0 && s == Ceil(d / r)
    ensures d <= r * s as real && r * (s - 1) as real < d
  {
    var x := d / r;
    assert d == r * x && (s - 1) as real < x <= s as real;
    Scaled(r, x, s as real);
    ScaledLess(r, (s - 1) as real, x);
  }

  lemma Scaled(r: real, a: real, b: real)
    requires r > 0.0 && a <= b
    ensures r * a <= r * b
  {
  }

  lemma ScaledLess(r: real, a: real, b: real)
    requires r > 0.0 && a < b
    ensures r * a < r * b
  {
  }

  /** Without any refill there is no wait that would help, and no hint. */
  lemma NoRefillNoHint(o: Options, t: Table, c: Call)
    requires o.refillPerSecond == 0.0
    ensures Step(o, t, c).1.Denied? ==> Step(o, t, c).1.seconds == None
  {
  }

  lemma TakeDenied(o: Options, b: Bucket, want: real)
    requires o.refillPerSecond > 0.0 && Take(o, b, want).1.Denied?
    ensures var s := Ceil((want - b.tokens) / o.refillPerSecond);
            Take(o, b, want) == (b, Denied(Some(if s < 1 then 1 else s)))
  {
  }

  lemma HintIsCeil(o: Options, t: Table, c: Call)
    requires o.refillPerSecond > 0.0 && Step(o, t, c).1.Denied?
    ensures c.key in Step(o, t, c).0.buckets
    ensures var s := Ceil(Lacking(o, t, c) / o.refillPerSecond);
            Step(o, t, c).1.seconds == Some(if s < 1 then 1 else s)
  {
    TakeDenied(o, Looked(o, t, c.key, c.now).1, c.want);
  }

  /** The hint is the smallest whole number of seconds that covers what is lacking, and
      at least one. */
  lemma HintCovers(o: Options, t: Table, c: Call)
    requires o.refillPerSecond > 0.0 && Step(o, t, c).1.Denied?
    ensures Step(o, t, c).1.seconds.Some? && Step(o, t, c).1.seconds.value >= 1
    ensures c.key in Step(o, t, c).0.buckets
    ensures var s := Step(o, t, c).1.seconds.value;
            && Lacking(o, t, c) <= o.refillPerSecond * s as real
            && (s >= 2 ==> o.refillPerSecond * (s - 1) as real < Lacking(o, t, c))
  {
    HintIsCeil(o, t, c);
    var ceil, s := Ceil(Lacking(o, t, c) / o.refillPerSecond), Step(o, t, c).1.seconds.value;
    CeilIsLeast(Lacking(o, t, c), o.refillPerSecond, ceil);
    Scaled(o.refillPerSecond, ceil as real, s as real);
  }

  /** The hint is least: a request hinted two seconds or more is still denied when it is
      repeated a second before the hint, or earlier. */
  lemma HintIsLeast(o: Options, t: Table, c: Call, later: int)
    requires o.refillPerSecond > 0.0 && Step(o, t, c).1.Denied? && Step(o, t, c).1.seconds.Some?
    requires Step(o, t, c).1.seconds.value >= 2
    requires c.now <= later <= c.now + 1000 * (Step(o, t, c).1.seconds.value - 1)
    ensures Step(o, Step(o, t, c).0, c.(now := later)).1.Denied?
  {
    var s := Step(o, t, c).1.seconds.value;
    HintCovers(o, t, c);
    TooLittle(o.refillPerSecond, Lacking(o, t, c), s - 1, later - c.now);
    TooEarly(o, t, c, later);
  }

  lemma TooEarly(o: Options, t: Table, c: Call, later: int)
    requires later >= c.now && Step(o, t, c).1.Denied? && c.key in Step(o, t, c).0.buckets
    requires o.refillPerSecond * (later - c.now) as real < 1000.0 * Lacking(o, t, c)
    ensures Step(o, Step(o, t, c).0, c.(now := later)).1.Denied?
  {
    RepeatedIsAllowedIff(o, t, c, later);
  }

  lemma TooLittle(r: real, lacking: real, s: int, ms: int)
    requires r > 0.0 && r * s as real < lacking && ms <= 1000 * s
    ensures r * ms as real < 1000.0 * lacking
  {
    Seconds(r, ms, s);
  }

  lemma Enough(r: real, lacking: real, s: int, ms: int)
    requires r > 0.0 && lacking <= r * s as real && ms >= 1000 * s
    ensures 1000.0 * lacking <= r * ms as real
  {
    Seconds(r, ms, s);
  }

  /** At `r` tokens a second, milliseconds against whole seconds. */
  lemma Seconds(r: real, ms: int, s: int)
    requires r > 0.0
    ensures ms <= 1000 * s ==> r * ms as real <= 1000.0 * (r * s as real)
    ensures ms >= 1000 * s ==> r * ms as real >= 1000.0 * (r * s as real)
  {
    Thousand(r, s as real);
    assert (1000 * s) as real == 1000.0 * s as real;
    if ms <= 1000 * s {
      Scaled(r, ms as real, 1000.0 * s as real);
    }
    if ms >= 1000 * s {
      Scaled(r, 1000.0 * s as real, ms as real);
    }
  }

  lemma Thousand(r: real, x: real)
    ensures r * (1000.0 * x) == 1000.0 * (r * x)
  {
  }

  /** The hint is honest: when tokens refill, a denied request that fits the
      capacity gets a hint of at least a second, and succeeds when it is repeated
      after that many seconds without other requests. */
  lemma WaitingSucceeds(o: Options, t: Table, c: Call, later: int)
    requires o.refillPerSecond > 0.0 && c.want <= o.capacity
    requires Step(o, t, c).1.Denied?
    ensures Step(o, t, c).1.seconds.Some? && Step(o, t, c).1.seconds.value >= 1
    ensures later >= c.now + 1000 * Step(o, t, c).1.seconds.value ==>
              Step(o, Step(o, t, c).0, c.(now := later)).1 == Allowed
  {
    HintCovers(o, t, c);
    var s := Step(o, t, c).1.seconds.value;
    if later >= c.now + 1000 * s {
      RepeatedIsAllowedIff(o, t, c, later);
      Enough(o.refillPerSecond, Lacking(o, t, c), s, later - c.now);
    }
  }
}
