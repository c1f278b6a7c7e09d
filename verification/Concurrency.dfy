/** The bounded-concurrency runner: workers that loop over one shared index. Each
    worker is suspended only while its task runs, so an execution is any sequence
    of worker steps. */
module Concurrency {
  import opened Wrappers

  /** A worker is about to take an index, is running one, or has found none left. */
  datatype Worker = Ready | Busy(index: nat) | Finished

  /** `started` lists the indices handed to the task, in order. */
  datatype Pool<R> = Pool(next: nat, workers: seq<Worker>, results: seq<Option<R>>, started: seq<nat>)

  function BoundOf(limit: int, n: nat): nat
    ensures 1 <= BoundOf(limit, n)
    ensures BoundOf(limit, n) <= (if limit < 1 then 1 else limit)
  {
    var least := if limit < (if n == 0 then 1 else n) then limit else if n == 0 then 1 else n;
    if least < 1 then 1 else least
  }

  function Start<R>(limit: int, n: nat): Pool<R> {
    Pool(0, seq(BoundOf(limit, n), _ => Ready), seq(n, _ => None), [])
  }

  /** Worker `w` takes its next index, or completes the one it runs. */
  function Step<R>(p: Pool<R>, w: nat, task: nat -> R): Pool<R>
    requires w < |p.workers| && p.workers[w] != Finished
    requires p.workers[w].Busy? ==> p.workers[w].index < |p.results|
  {
    match p.workers[w]
    case Ready =>
      if p.next >= |p.results| then p.(next := p.next + 1, workers := p.workers[w := Finished])
      else p.(next := p.next + 1, workers := p.workers[w := Busy(p.next)], started := p.started + [p.next])
    case Busy(i) => p.(workers := p.workers[w := Ready], results := p.results[i := Some(task(i))])
  }

  /** Indices are started once each and in order; a started index is either in
      exactly one worker's hands or has its own result; a worker stops only when
      none is left. */
  ghost predicate Sound<R>(p: Pool<R>, task: nat -> R) {
    && |p.started| == (if p.next < |p.results| then p.next else |p.results|)
    && (forall k :: 0 <= k < |p.started| ==> p.started[k] == k)
    && (forall w :: 0 <= w < |p.workers| && p.workers[w].Busy? ==> p.workers[w].index < |p.started|)
    && (forall v, w :: 0 <= v < w < |p.workers| && p.workers[v].Busy? && p.workers[w].Busy? ==>
          p.workers[v].index != p.workers[w].index)
    && (forall i :: 0 <= i < |p.results| ==> HasResult(p, task, i))
    && (forall w :: 0 <= w < |p.workers| && p.workers[w].Finished? ==> p.next > |p.results|)
  }

  ghost predicate HasResult<R>(p: Pool<R>, task: nat -> R, i: nat)
    requires i < |p.results|
  {
    p.results[i] == if i < |p.started| && !Running(p, i) then Some(task(i)) else None
  }

  ghost predicate Running<R>(p: Pool<R>, i: nat) {
    exists w :: 0 <= w < |p.workers| && p.workers[w] == Busy(i)
  }

  lemma StartIsSound<R>(limit: int, n: nat, task: nat -> R)
    ensures Sound(Start<R>(limit, n), task)
  {
  }

  lemma StepRuns<R>(p: Pool<R>, w: nat, task: nat -> R, i: nat)
    requires Sound(p, task) && w < |p.workers| && p.workers[w] != Finished && i < |p.results|
    ensures Running(Step(p, w, task), i) <==>
              (Running(p, i) && p.workers[w] != Busy(i)) || (p.workers[w].Ready? && i == p.next)
  {
    var q := Step(p, w, task);
    if Running(p, i) && p.workers[w] != Busy(i) {
      var v :| 0 <= v < |p.workers| && p.workers[v] == Busy(i);
      assert q.workers[v] == Busy(i);
    }
    if p.workers[w].Ready? && i == p.next {
      assert q.workers[w] == Busy(i);
    }
    if Running(q, i) {
      var v :| 0 <= v < |q.workers| && q.workers[v] == Busy(i);
      assert v != w ==> p.workers[v] == Busy(i);
    }
  }

  lemma StepKeepsResults<R>(p: Pool<R>, w: nat, task: nat -> R, i: nat)
    requires Sound(p, task) && w < |p.workers| && p.workers[w] != Finished && i < |p.results|
    ensures HasResult(Step(p, w, task), task, i)
  {
    StepRuns(p, w, task, i);
    assert HasResult(p, task, i);
  }

  lemma StepKeepsSound<R>(p: Pool<R>, w: nat, task: nat -> R)
    requires Sound(p, task) && w < |p.workers| && p.workers[w] != Finished
    ensures Sound(Step(p, w, task), task)
  {
    var q := Step(p, w, task);
    forall i | 0 <= i < |q.results| ensures HasResult(q, task, i) {
      StepKeepsResults(p, w, task, i);
    }
  }

  // ---------------------------------------------------------------------
  // Bounded, and terminating
  // ---------------------------------------------------------------------

  function InFlight(workers: seq<Worker>): nat {
    if workers == [] then 0 else (if workers[0].Busy? then 1 else 0) + InFlight(workers[1..])
  }

  lemma {:induction false} InFlightFits(workers: seq<Worker>)
    ensures InFlight(workers) <= |workers|
  {
    if workers != [] {
      InFlightFits(workers[1..]);
    }
  }

  function Weight(w: Worker): nat {
    match w
    case Finished => 0
    case Ready => 1
    case Busy(_) => 2
  }

  function Weights(workers: seq<Worker>): nat {
    if workers == [] then 0 else Weight(workers[0]) + Weights(workers[1..])
  }

  /** Work left: what no schedule can increase. */
  function Left<R>(p: Pool<R>): nat
    requires |p.started| <= |p.results|
  {
    3 * (|p.results| - |p.started|) + Weights(p.workers)
  }

  lemma {:induction false} WeightsAfter(workers: seq<Worker>, w: nat, v: Worker)
    requires w < |workers|
    ensures Weights(workers[w := v]) == Weights(workers) - Weight(workers[w]) + Weight(v)
  {
    if w == 0 {
      assert workers[w := v][1..] == workers[1..];
    } else {
      WeightsAfter(workers[1..], w - 1, v);
      assert workers[w := v][1..] == workers[1..][w - 1 := v];
    }
  }

  /** Every step of every worker uses up some of the work. */
  lemma StepUsesWork<R>(p: Pool<R>, w: nat, task: nat -> R)
    requires Sound(p, task) && w < |p.workers| && p.workers[w] != Finished
    ensures Sound(Step(p, w, task), task) && Left(Step(p, w, task)) < Left(p)
  {
    StepKeepsSound(p, w, task);
    WeightsAfter(p.workers, w, Step(p, w, task).workers[w]);
  }

  ghost predicate AllFinished<R>(p: Pool<R>) {
    forall w :: 0 <= w < |p.workers| ==> p.workers[w].Finished?
  }

  /** A schedule: which worker moves, step by step. */
  ghost predicate Schedule<R>(p: Pool<R>, task: nat -> R, ws: seq<nat>)
    requires Sound(p, task)
    decreases |ws|
  {
    ws == [] ||
    (ws[0] < |p.workers| && p.workers[ws[0]] != Finished &&
     (StepKeepsSound(p, ws[0], task); Schedule(Step(p, ws[0], task), task, ws[1..])))
  }

  ghost function Run<R>(p: Pool<R>, task: nat -> R, ws: seq<nat>): (q: Pool<R>)
    requires Sound(p, task) && Schedule(p, task, ws)
    ensures Sound(q, task) && |q.workers| == |p.workers| && |q.results| == |p.results|
    decreases |ws|
  {
    if ws == [] then p
    else
      StepKeepsSound(p, ws[0], task);
      Run(Step(p, ws[0], task), task, ws[1..])
  }

  lemma {:induction false} SchedulesEnd<R>(p: Pool<R>, task: nat -> R, ws: seq<nat>)
    requires Sound(p, task) && Schedule(p, task, ws)
    ensures |ws| + Left(Run(p, task, ws)) <= Left(p)
    decreases |ws|
  {
    if ws != [] {
      StepUsesWork(p, ws[0], task);
      SchedulesEnd(Step(p, ws[0], task), task, ws[1..]);
    }
  }

  /** When all workers have finished, every index was started exactly once, in
      order, and every result is at its own index. */
  lemma FinishedIsComplete<R>(p: Pool<R>, task: nat -> R)
    requires Sound(p, task) && AllFinished(p) && p.workers != []
    ensures p.started == seq(|p.results|, i => i)
    ensures p.results == seq(|p.results|, i requires 0 <= i => Some(task(i)))
  {
    assert p.workers[0].Finished?;
    forall i | 0 <= i < |p.results| ensures p.results[i] == Some(task(i)) {
      assert HasResult(p, task, i);
      assert !Running(p, i);
    }
  }

  /** An interleaving of the workers of a fresh pool. */
  ghost predicate Interleaving<R>(limit: int, n: nat, task: nat -> R, ws: seq<nat>) {
    StartIsSound<R>(limit, n, task);
    Schedule(Start<R>(limit, n), task, ws)
  }

  ghost function Reached<R>(limit: int, n: nat, task: nat -> R, ws: seq<nat>): Pool<R>
    requires Interleaving(limit, n, task, ws)
  {
    StartIsSound<R>(limit, n, task);
    Run(Start<R>(limit, n), task, ws)
  }

  lemma {:induction false} ScheduleAppends<R>(p: Pool<R>, task: nat -> R, ws: seq<nat>, w: nat)
    requires Sound(p, task) && Schedule(p, task, ws)
    requires w < |Run(p, task, ws).workers| && Run(p, task, ws).workers[w] != Finished
    ensures Schedule(p, task, ws + [w]) && Run(p, task, ws + [w]) == Step(Run(p, task, ws), w, task)
    decreases |ws|
  {
    if ws == [] {
      assert ([] + [w])[1..] == [] && ([] + [w])[0] == w;
      StepKeepsSound(p, w, task);
    } else {
      assert (ws + [w])[1..] == ws[1..] + [w] && (ws + [w])[0] == ws[0];
      StepKeepsSound(p, ws[0], task);
      ScheduleAppends(Step(p, ws[0], task), task, ws[1..], w);
    }
  }

  lemma {:induction false} OneMoreInFlight(workers: seq<Worker>, w: nat, i: nat)
    requires w < |workers| && workers[w] == Ready
    ensures InFlight(workers[w := Busy(i)]) == InFlight(workers) + 1
  {
    if w == 0 {
      assert workers[w := Busy(i)][1..] == workers[1..];
    } else {
      OneMoreInFlight(workers[1..], w - 1, i);
      assert workers[w := Busy(i)][1..] == workers[1..][w - 1 := Busy(i)];
    }
  }

  /** The pool once the first `k` workers have taken an index each. */
  ghost predicate Launched<R>(p: Pool<R>, k: nat) {
    && p.next == k && k <= |p.workers| && InFlight(p.workers) == k
    && forall w :: k <= w < |p.workers| ==> p.workers[w] == Ready
  }

  /** The bound is used: with this schedule, of every worker's first step, as many tasks
      are in flight as the limit and the items allow. */
  lemma {:induction false} Saturates<R>(limit: int, n: nat, task: nat -> R, k: nat) returns (ws: seq<nat>)
    requires k <= n && k <= (if limit < 1 then 1 else limit)
    ensures Interleaving(limit, n, task, ws) && |Reached(limit, n, task, ws).results| == n
    ensures |Reached(limit, n, task, ws).workers| == BoundOf(limit, n)
    ensures Launched(Reached(limit, n, task, ws), k)
  {
    StartIsSound<R>(limit, n, task);
    var start := Start<R>(limit, n);
    if k == 0 {
      ws := [];
      NoneInFlight(start.workers);
    } else {
      var before := Saturates(limit, n, task, k - 1);
      var p := Reached(limit, n, task, before);
      OneMoreInFlight(p.workers, k - 1, p.next);
      ScheduleAppends(start, task, before, k - 1);
      ws := before + [k - 1];
    }
  }

  lemma {:induction false} NoneInFlight(workers: seq<Worker>)
    requires forall w :: 0 <= w < |workers| ==> workers[w] == Ready
    ensures InFlight(workers) == 0
  {
    if workers != [] {
      NoneInFlight(workers[1..]);
    }
  }

  /** For every interleaving of the workers: never more than max(1, limit) tasks in
      flight, no index twice, at most as many steps as there is work, and when no
      worker can move, the complete result. */
  lemma EveryInterleaving<R>(limit: int, n: nat, task: nat -> R, ws: seq<nat>)
    requires Interleaving(limit, n, task, ws)
    ensures var p := Reached(limit, n, task, ws);
            && InFlight(p.workers) <= (if limit < 1 then 1 else limit)
            && (forall i, j :: 0 <= i < j < |p.started| ==> p.started[i] != p.started[j])
            && |ws| <= Left(Start<R>(limit, n))
            && (AllFinished(p) ==>
                  p.started == seq(n, i => i) && p.results == seq(n, i requires 0 <= i => Some(task(i))))
  {
    StartIsSound<R>(limit, n, task);
    var p := Reached(limit, n, task, ws);
    InFlightFits(p.workers);
    SchedulesEnd(Start<R>(limit, n), task, ws);
    if AllFinished(p) {
      FinishedIsComplete(p, task);
    }
  }

  /** Run `worker` over the items under some interleaving, preserving order; the
      ghost result is the order in which the items were handed to it. */
  method MapWithConcurrency<T, R>(items: seq<T>, limit: int, worker: T -> R)
    returns (results: seq<R>, ghost started: seq<nat>)
    ensures |results| == |items|
    ensures forall i :: 0 <= i < |items| ==> results[i] == worker(items[i])
    ensures started == seq(|items|, i => i)
  {
    if |items| == 0 {
      return [], [];
    }
    var slots := new Option<R>[|items|](_ => None);
    var next := 0;
    var workers := seq(BoundOf(limit, |items|), _ => Ready);
    ghost var task := (i: nat) => if i < |items| then worker(items[i]) else worker(items[0]);
    ghost var p := Start<R>(limit, |items|);
    StartIsSound(limit, |items|, task);
    assert slots[..] == p.results;
    while exists w :: 0 <= w < |workers| && workers[w] != Finished
      invariant p.next == next && p.workers == workers && p.results == slots[..]
      invariant Sound(p, task) && |workers| == BoundOf(limit, |items|)
      decreases Left(p)
    {
      var w :| 0 <= w < |workers| && workers[w] != Finished;
      StepUsesWork(p, w, task);
      p := Step(p, w, task);
      if workers[w].Ready? {
        var index := next;
        next := next + 1;
        workers := workers[w := if index >= |items| then Finished else Busy(index)];
      } else {
        var index := workers[w].index;
        slots[index] := Some(worker(items[index]));
        workers := workers[w := Ready];
      }
    }
    FinishedIsComplete(p, task);
    started := p.started;
    results := [];
    for i := 0 to |items|
      invariant |results| == i && forall k :: 0 <= k < i ==> results[k] == worker(items[k])
    {
      assert p.results[i] == Some(task(i));
      results := results + [slots[i].value];
    }
  }
}
