# TraceBloom, verified

A Dafny model of the parts of TraceBloom in which a mistake would be hard to see: the live view of a running trace, the span tree the viewer draws, the evaluation runner, the rate limiter of the public endpoints, the span lifecycle of the AI SDK integration, and the collector's writer.

`dafny verify dfyconfig.toml` checks everything.

## The live view

A poller reads the rows of one trace with an inclusive, capped watermark in milliseconds, trims what it has already sent, broadcasts to its subscribers, catches late joiners up, and ends itself.

* `LiveDeltas` is the delta read: what a page promises, that the span query keeps that promise, and what repeated polling reads.
* `DeltaChannel` is one watermark with its boundary set, over a log that grows at its end. Its soundness invariant is the heart of no gaps and no duplicates.
* `PollerSpec` is the poller's own state and what one tick makes of it.
* `LiveProtocol` is the step system: rows land, ticks start, read or fail, subscribers join, are caught up, refuse, leave, in any order. A read may see the log as it was at any moment between the start and the end of its fetch. `LiveDelivery` proves what subscribers receive in every run, `LiveEnding` when and how a stream ends, in the configured bounds themselves, and that the loop does not depend on its audience.
* `BrokerSpec` is the registry of pollers and connections as a value, `BrokerCaps` its admission in terms of the connections that are open. `LiveBroker` is the code as classes: connections whose `end`, `close` and `send` re-enter the broker through `unsubscribe`, pollers, and the broker, each method proved against the registry and poller specifications. `LiveSimulation` ties the two: whatever callback the event loop runs, the objects move as the step system's events say, so what is proved of every run holds of what the connections have received (`ConnectionsMissNothing`), whatever the other pollers of the broker do in between.

Three hypotheses are explicit. Rows become visible in non-decreasing milliseconds; `WriterSortsTheLog` proves it of the log that the collector's single writer leaves, given a database clock that does not run back, and `LateLandingLeavesGapIff` shows exactly when an arrival out of order leaves a gap. Exactness both ways takes one row per key; with retried rows the same is proved by key. A subscriber is promised every row from its own cursor up to the head, boundary rows included, when it opened the poller or joined strictly behind the head, and its catch-up read found no more than one page.

Where the code does not give more, the exact condition is proved: a joiner exactly at the head holds what is broadcast after it joined and nothing else (`AtHeadOnlyLaterBroadcasts`); a catch-up is one page, and it makes up the backlog of the joiner if and only if that fits (`CatchUpsHoldIff`, with a run at the real caps in `CappedCatchUpLeavesGap`); and a millisecond with as many spans as the cap stops the cursor (`StalledIff`), where the comment on the cap says that a capped poll simply resumes.

## The span tree

* `SpanLinks` says which link of a parent cycle is cut, and what cutting leaves; `CycleCut` is one walk of the cutting loop.
* `SpanForest` is the ordered forest as a value, with its pre-order, visible rows and roll-ups; `SpanShape` is the forest that links and ordered child lists describe, and `RowOrder` the rows on screen without the pre-order.
* `TraceRows` is what the tree of a payload is: rows, placeholders, resolved parents, sibling order, own values.
* `TraceTree` is the code: node objects whose fields the phases fill in one after the other, with explicit stacks and in-place child lists, and the loop that flattens the visible rows.
* `TraceTreeLaws` holds what a viewer relies on: independence of arrival order, totals that add up, collapsing, and live placeholders; `TraceTotals` says the totals, categories, order and orphans in the rows' own fields.

A comment of the code promises more than it does: the span cut from a cycle is said to be the earliest by input order; `EarliestIsCutIff` says exactly when that is so, `CutNeedNotBeEarliest` gives an input for which it is not, and the model follows the code. The order of the rows does not matter if and only if there is no cycle (`SameTreeIffAcyclic`). The totals of a live build match those without placeholders, except that an evaluation result that already names a span still open is counted in live mode and ignored otherwise: `LiveTotalsMatchIff` gives the exact condition.

## The rest

* `EvalWindow` and `EvalRunner`: the scan window, the watermark, sampling, the idempotency check, the content cache and the rows of a run, with a fault at any point. `RowsTell` says what each stored row carries and where it comes from. No span in a window is lost (`VisibleSpanIsNotLost`), but for those that age out while the first runs of a definition fail (`FirstFailuresKeepIff`). The watermark is not monotonic: `WatermarkAdvancesIff` says when it moves forward, and `AdvancesOrStalls` that otherwise no later run ever gets past it. A span scanned before its content has landed is skipped; `LateContentIff` says exactly when it is lost. A span that the collector stored twice can be scored twice in one run; `OneRowEachIff` says when. `Concurrency` is the worker pool under every interleaving.
* `RateLimit`: the token bucket with least-recently-seen eviction, over exact numbers. Tokens come at the given rate a second, a denied caller is hinted the least whole number of seconds (`HintIsLeast`), and the bound on what a key is granted needs a clock that does not run back, or exactly as much of it as `NewKeyBoundIff` says.
* `AiTelemetry`: the event handlers over the map of open operations, the invariant they keep, and under which span each span hangs (`HangsUnderItsStep`).
* `Storage`: the bounded queue, the batching writer with its stamped inserts, and the log they leave.
* `TextOrder`, `MapTotals`, `RoomCounts` and `Wrappers` are small helpers: string order, sums over maps, counting, optional values.

## Model

| member | source | states |
|---|---|---|
| LiveDeltas.SpanQueryIsPage | apps/dashboard/lib/live-deltas.ts:53-58 | the span query (inclusive bound, arrival order, one row a span id, cap) answers every log, duplicates included, with a page: every row at or after the bound is in it by its key, or the page is full and ends no later |
| LiveDeltas.ReadSpans | apps/dashboard/lib/live-deltas.ts:135-165 | the span watermark is the newest millisecond read and never moves back; the root flag says whether a root was read |
| LiveDeltas.ReadEvals | apps/dashboard/lib/live-deltas.ts:167-170 | the evaluation watermark, likewise |
| LiveDeltas.FetchTraceDeltas | apps/dashboard/lib/live-deltas.ts:116-178 | from two pages read at the cursor, the delta that the protocol relies on: both pages, the advanced cursor, the root flag |
| LiveDeltas.AdvancedIsNewest | apps/dashboard/lib/live-deltas.ts:135-138 | the advanced watermark bounds every row of the page, and is the old one or that of a row of the page |
| LiveDeltas.NothingBelowIsSkipped | apps/dashboard/lib/live-deltas.ts:19-23 | resuming at the returned cursor skips nothing: a row the page does not stand for is at or above that cursor |
| LiveDeltas.FullPageAdvances | apps/dashboard/lib/live-deltas.ts:19-23 | a full page strictly advances the cursor when the cursor's millisecond holds fewer spans than the cap, retries included |
| LiveDeltas.StalledIff | apps/dashboard/lib/live-deltas.ts:19-23 | with a later span waiting, the cursor stands still exactly when its own millisecond holds at least as many spans as the cap, retries included: the comment's "simply resumes" needs the other case |
| LiveDeltas.FullMillisecondIsRead | apps/dashboard/lib/live-deltas.ts:53-58 | a page that ends above its bound stands for the whole millisecond of the bound and more |
| LiveDeltas.PageCoversIff | apps/dashboard/lib/live-deltas.ts:53-58 | a page stands for every row below a given millisecond exactly when these rows are of no more spans than the cap |
| LiveDeltas.NextPollIsCloser | apps/dashboard/lib/live-deltas.ts:19-24 | polling on from the returned cursor gets strictly closer to the end of a fixed log |
| LiveDeltas.PagesCoverTheLog | apps/dashboard/lib/live-deltas.ts:19-24 | with fewer spans than the cap in every millisecond, repeated polling ends and its pages together stand for every row at or after the start, retries included |
| LiveDeltas.PagesAreFromTheLog | apps/dashboard/lib/live-deltas.ts:19-24 | and hold nothing else |
| LiveDeltas.PagesHoldTheLog | apps/dashboard/lib/live-deltas.ts:19-24 | with one row a span they hold exactly the rows at or after the start |
| DeltaChannel.OpenedIsSound | apps/dashboard/lib/live-broker.ts:99-109 | a fresh channel (empty boundary set) is sound |
| DeltaChannel.LandedIsSound | apps/dashboard/lib/live-deltas.ts:11-12 | a row that becomes visible at or above the newest visible millisecond keeps a channel sound |
| DeltaChannel.LateLandingLeavesGapIff | apps/dashboard/lib/live-deltas.ts:11-12 | an arrival out of order leaves a gap exactly when it falls between the start of the channel and its head: the visibility-order hypothesis is needed |
| DeltaChannel.PolledSendsOnce | apps/dashboard/lib/live-broker.ts:210-240 | trimming against the boundary set lets no row be broadcast twice |
| DeltaChannel.PolledSendsFromLog | apps/dashboard/lib/live-broker.ts:155-170 | everything broadcast is a visible row between the start and the new head |
| DeltaChannel.PolledBoundary | apps/dashboard/lib/live-broker.ts:223-237 | after a poll the boundary set holds exactly the keys already broadcast at the new head |
| DeltaChannel.PolledNoGap | apps/dashboard/lib/live-broker.ts:155-170 | after a poll every visible row from the start to strictly below the new head has been broadcast |
| DeltaChannel.PolledIsSound | apps/dashboard/lib/live-broker.ts:155-240 | one poll, capped or not, and reading the log as it was at any earlier moment of the poll, keeps the channel sound |
| DeltaChannel.SentExactly | apps/dashboard/lib/live-broker.ts:155-240 | a sound channel has broadcast exactly the rows from its start to strictly below its head and those of its boundary set at the head |
| DeltaChannel.ReplayIsSilent | apps/dashboard/lib/live-broker.ts:93-100 | a page of boundary replays changes nothing and sends nothing |
| LiveDelivery.OpenIsSound | apps/dashboard/lib/live-broker.ts:308-320 | the state in which a first subscriber has opened a poller satisfies the protocol invariant |
| LiveDelivery.StepKeepsInv | apps/dashboard/lib/live-broker.ts:115-268 | every step of the protocol (row lands, tick starts, reads or fails, join, catch-up lands or fails, leave) keeps the invariant that ties head, boundary set, log and what each subscriber holds |
| LiveDelivery.RunKeepsInv | apps/dashboard/lib/live-broker.ts:115-268 | and so does every run, under every interleaving |
| LiveDelivery.BroadcastIsExact | apps/dashboard/lib/live-broker.ts:155-240 | in every run the poller has broadcast, once each, only visible rows from its cursor to its head, with every row below the head and every key of the boundary set, retries included; with one row a key, exactly these rows: no gaps, no duplicates |
| LiveDelivery.BroadcastArrived | apps/dashboard/lib/live-broker.ts:115-126 | a subscriber holds every broadcast row above its cursor, and at it when it opened the poller or was caught up |
| LiveDelivery.OwedArrived | apps/dashboard/lib/live-broker.ts:115-126 | a row past a subscriber's cursor that the poller has passed, or that was visible when the subscriber attached and its catch-up read went back for, has reached it by its key |
| LiveDelivery.HoldsTheLog | apps/dashboard/lib/live-broker.ts:117-119 | union of catch-up and broadcasts, both ways: with one row a key, what a subscriber holds of the rows it is owed is exactly the log |
| LiveDelivery.SubscribersMissNothing | apps/dashboard/lib/live-broker.ts:115-126 | in every run, under every interleaving of the tick in flight, catch-ups and new rows, no attached subscriber whose catch-up is not in flight misses a row from its own cursor up to the head, boundary rows at the head included, if its catch-up read found no more than one page |
| LiveDelivery.AtHeadOnlyLaterBroadcasts | apps/dashboard/lib/live-broker.ts:120-122 | a joiner whose cursor equals the head gets no catch-up: in every run, in both channels, it holds exactly what was broadcast after it joined |
| LiveDelivery.CatchUpsHoldIff | apps/dashboard/lib/live-broker.ts:242-251 | a catch-up is one capped page: in every run a caught-up joiner holds every row its read found between its cursor and the head at which it joined if and only if these rows are of no more spans than the cap, and of no more evaluation results than theirs |
| LiveDelivery.CappedCatchUpLeavesGap | apps/dashboard/lib/live-broker.ts:242-251 | with 2001 spans behind the head the last of them reaches the joiner in no continuation of the run |
| LiveEnding.ClockMovesOnNewsOnly | apps/dashboard/lib/live-broker.ts:167-170 | a tick restarts the quiet clock exactly when it broadcasts something |
| LiveEnding.TickDecides | apps/dashboard/lib/live-broker.ts:188-202 | any tick that leaves somebody to serve, whatever it read: the stream ends if and only if the last news lie back by `settledEndMs` once a root has been seen, as complete, or by `deadEndMs` before, as idle; else the next tick is due at the slow or the fast pace |
| LiveEnding.ClockRunsFromOpening | apps/dashboard/lib/live-broker.ts:99-110 | the last news are the last tick that broadcast, or the opening of the poller, whose first tick is due at once |
| LiveEnding.ErrorsAreFailuresInARow | apps/dashboard/lib/live-broker.ts:160-180 | the error count of every run is that of its failed ticks in a row |
| LiveEnding.TooManyFailuresClose | apps/dashboard/lib/live-broker.ts:172-187 | a failed tick closes everyone, without a notice, exactly when it completes `maxConsecutiveErrors` in a row |
| LiveEnding.QuietTick | apps/dashboard/lib/live-broker.ts:188-202 | a tick with nothing unread sends nothing, leaves the clock, and ends the stream exactly when the bound for a broadcast root, or for none, has passed, with the right reason |
| LiveEnding.QuietRun | apps/dashboard/lib/live-broker.ts:155-203 | a run of such ticks changes nothing and ends nobody before the bound |
| LiveEnding.EndsExactlyAtTheBound | apps/dashboard/lib/live-broker.ts:155-240 | once nothing is unread and fetches succeed, the poller ends every subscriber at the first tick `settledEndMs` or more after its last fresh row, as complete, if a root was broadcast, and `deadEndMs` or more after it, as idle, if not, and never before |
| LiveEnding.RootSeenIsRootSent | apps/dashboard/lib/live-broker.ts:166 | in every run the poller has seen a root exactly when a row it broadcast is one |
| LiveEnding.StepKeepsTicking | apps/dashboard/lib/live-broker.ts:123-153 | a poller that has not stopped has exactly one of a pending timer and a fetch in flight, after every step |
| LiveEnding.StepKeepsPeopled | apps/dashboard/lib/live-broker.ts:128-136 | a running poller has subscribers and a stopped one has none, after every step |
| LiveEnding.RunFollowsLoop | apps/dashboard/lib/live-broker.ts:155-203 | the loop of a run that never empties is the loop alone, without its subscribers |
| LiveEnding.SameFetchesWhateverTheAudience | apps/dashboard/lib/live-broker.ts:155-203 | two runs with the same clock and fetch results issue the same loop fetches, times and cursors, whatever their subscribers, as long as neither empties |
| LiveEnding.CatchUpsAreBounded | apps/dashboard/lib/live-broker.ts:115-122 | catch-ups add at most one fetch per subscribe |
| BrokerSpec.DetachKeepsLinked | apps/dashboard/lib/live-broker.ts:128-146 | releasing a subscriber keeps the registry consistent: counts, caps, who is registered, who has stopped |
| BrokerSpec.StalePollerIsHarmless | apps/dashboard/lib/live-broker.ts:341-345 | a poller that is no longer registered changes neither the registry nor the count when asked to release anyone |
| BrokerSpec.TearDownReleases | apps/dashboard/app/api/traces/[traceId]/live/route.ts:81-98 | a teardown closes the connection and releases it exactly once, and everyone else is as before |
| BrokerSpec.TearDownKeepsConsistent | apps/dashboard/app/api/traces/[traceId]/live/route.ts:81-98 | and keeps the whole registry consistent |
| BrokerSpec.CancelKeepsConsistent | apps/dashboard/app/api/traces/[traceId]/live/route.ts:158-165 | cancelling the stream keeps the registry consistent, whatever was closed before |
| BrokerSpec.JoinKeepsLinked | apps/dashboard/lib/live-broker.ts:308-320 | accepting a connection keeps the registry consistent and within both caps |
| BrokerSpec.JoinKeepsConsistent | apps/dashboard/lib/live-broker.ts:308-333 | and keeps every poller ticking |
| BrokerSpec.ConsistentMeans | apps/dashboard/lib/live-broker.ts:301-345 | what consistency gives: the count is the sum of the poller sizes and within both caps, every registered poller has subscribers, runs, and has exactly one of a timer and a fetch in flight, each connection is attached or was released once |
| BrokerCaps.AcceptedIff | apps/dashboard/lib/live-broker.ts:301-311 | a connection is accepted exactly when fewer than `maxSubscribers` connections are open, and fewer than `maxSubscribersPerTrace` on its trace |
| LiveBroker.Connection.Unsubscribe | apps/dashboard/lib/live-broker.ts:325-331 | the closure releases at most once |
| LiveBroker.Connection.Teardown | apps/dashboard/app/api/traces/[traceId]/live/route.ts:81-98 | re-entrant teardown: closed and released once, the heartbeat stopped |
| LiveBroker.Connection.Write | apps/dashboard/app/api/traces/[traceId]/live/route.ts:101-112 | a frame is accepted, or the connection is torn down |
| LiveBroker.Connection.Send | apps/dashboard/app/api/traces/[traceId]/live/route.ts:115-131 | a delta is delivered, or the connection dropped: closed, refused, or strained for the fourth delivery in a row |
| LiveBroker.Connection.End | apps/dashboard/app/api/traces/[traceId]/live/route.ts:132-135 | the terminal notice with its reason, taken or not, and then the teardown |
| LiveBroker.Connection.Greet | apps/dashboard/app/api/traces/[traceId]/live/route.ts:150-156 | the first frame, and a heartbeat that is set even when that frame failed |
| LiveBroker.Connection.Abort | apps/dashboard/app/api/traces/[traceId]/live/route.ts:156 | a client abort tears the connection down |
| LiveBroker.Connection.Cancel | apps/dashboard/app/api/traces/[traceId]/live/route.ts:158-165 | a cancel releases the connection if nothing else has |
| LiveBroker.TracePoller.Detach | apps/dashboard/lib/live-broker.ts:128-136 | one subscriber is released, and the last one out stops the poller and removes it from the registry |
| LiveBroker.TracePoller.Stop | apps/dashboard/lib/live-broker.ts:139-146 | the poller is stopped, without a timer, and no longer registered |
| LiveBroker.TracePoller.TimerFires | apps/dashboard/lib/live-broker.ts:148-161 | a timer that fires issues one fetch from the head |
| LiveBroker.TracePoller.TrimBoundaryReplays | apps/dashboard/lib/live-broker.ts:210-240 | the loops compute the trimmed delta and the next boundary sets of the channel specification |
| LiveBroker.TracePoller.Absorb | apps/dashboard/lib/live-broker.ts:161-170 | heads, boundary sets, root flag, error count and quiet clock after a successful fetch |
| LiveBroker.TracePoller.Broadcast | apps/dashboard/lib/live-broker.ts:262-268 | every subscriber is given the delta or has left; nobody else is touched, and the registry stays consistent under re-entrant release |
| LiveBroker.TracePoller.DismissAll | apps/dashboard/lib/live-broker.ts:270-282 | everyone is dismissed, told the given reason or closed without a notice, released once, and the poller is stopped and out of the registry |
| LiveBroker.TracePoller.Settle | apps/dashboard/lib/live-broker.ts:188-202 | the end of a tick: everyone told that it is over, or the next timer set at the right cadence |
| LiveBroker.TracePoller.TickFetched | apps/dashboard/lib/live-broker.ts:155-203 | a tick whose fetch succeeded moves the poller as the step specification says and keeps the broker valid |
| LiveBroker.TracePoller.TickFailed | apps/dashboard/lib/live-broker.ts:171-203 | a tick whose fetch failed: too many in a row close everyone without a notice, otherwise the poller goes on |
| LiveBroker.TracePoller.Attach | apps/dashboard/lib/live-broker.ts:115-126 | attach first; a catch-up exactly when strictly behind the head; a timer at once when nothing else would poll |
| LiveBroker.TracePoller.CatchUpFetched | apps/dashboard/lib/live-broker.ts:242-251 | a caught-up subscriber gets its page or leaves; one that left in the meantime gets nothing |
| LiveBroker.TracePoller.CatchUpFailed | apps/dashboard/lib/live-broker.ts:252-259 | a failed catch-up closes and releases its subscriber, once |
| LiveBroker.Broker.RemovePoller | apps/dashboard/lib/live-broker.ts:341-345 | a poller is removed unless a newer one has taken its place |
| LiveBroker.Broker.Subscribe | apps/dashboard/lib/live-broker.ts:308-333 | refused exactly when a cap is reached, with nothing changed; otherwise joined to the registered poller or a new one, with a catch-up exactly when behind |
| LiveBroker.Connection.Refuse | apps/dashboard/app/api/traces/[traceId]/live/route.ts:141-145 | a refused connection is told that the broker is over capacity, if it still takes frames, and closed with nothing to release |
| LiveBroker.Broker.OpenStream | apps/dashboard/app/api/traces/[traceId]/live/route.ts:114-156 | a whole connection: told and closed with the broker unchanged exactly when a cap is reached, otherwise registered and greeted |
| LiveSimulation.OpenFirst | apps/dashboard/lib/live-broker.ts:308-333 | opening a poller shows the opening state of the step system |
| LiveSimulation.Join | apps/dashboard/lib/live-broker.ts:115-126 | joining a poller follows the event of a join, and asks for a catch-up exactly when the event does |
| LiveSimulation.StartTick | apps/dashboard/lib/live-broker.ts:148-158 | the timer's callback follows the event that starts a tick |
| LiveSimulation.FinishTick | apps/dashboard/lib/live-broker.ts:155-203 | a tick whose reads return follows the event in which those refuse the news whom the re-entrant broadcast lost: head, boundaries, clock, timer, end, and what every remaining connection received |
| LiveSimulation.FailTick | apps/dashboard/lib/live-broker.ts:172-203 | a tick whose read fails follows the event of a failed tick |
| LiveSimulation.CatchUp | apps/dashboard/lib/live-broker.ts:242-251 | a catch-up whose read returns follows the event of a catch-up, taken or refused |
| LiveSimulation.LateCatchUp | apps/dashboard/lib/live-broker.ts:242-251 | one that returns after its subscriber left changes nothing |
| LiveSimulation.FailCatchUp | apps/dashboard/lib/live-broker.ts:252-259 | a catch-up whose read fails follows the event in which its subscriber is closed |
| LiveSimulation.LateFailCatchUp | apps/dashboard/lib/live-broker.ts:252-259 | one that fails after its subscriber left changes nothing |
| LiveSimulation.Leave | apps/dashboard/app/api/traces/[traceId]/live/route.ts:155-156 | an aborted connection follows the event of a leave, the last one out stopping the poller |
| LiveSimulation.TimerElsewhere | apps/dashboard/lib/live-broker.ts:148-158 | no callback of another poller changes what a poller follows: neither its timer |
| LiveSimulation.FetchElsewhere | apps/dashboard/lib/live-broker.ts:155-203 | nor its tick, broadcast and re-entrant releases included |
| LiveSimulation.FailElsewhere | apps/dashboard/lib/live-broker.ts:172-203 | nor a tick that fails, even if it closes everyone |
| LiveSimulation.CatchUpElsewhere | apps/dashboard/lib/live-broker.ts:242-251 | nor a catch-up of one of its connections, present or gone |
| LiveSimulation.FailCatchUpElsewhere | apps/dashboard/lib/live-broker.ts:252-259 | nor one that fails |
| LiveSimulation.AbortElsewhere | apps/dashboard/app/api/traces/[traceId]/live/route.ts:155-156 | nor an abort |
| LiveSimulation.CancelElsewhere | apps/dashboard/app/api/traces/[traceId]/live/route.ts:158-165 | nor a cancelled stream |
| LiveSimulation.SubscribeElsewhere | apps/dashboard/lib/live-broker.ts:308-333 | nor a subscription to another trace, refused or not |
| LiveSimulation.ConnectionsMissNothing | apps/dashboard/lib/live-broker.ts:115-126 | what the connections themselves have received, in every run their poller has followed: every row they are owed |
| SpanLinks.EachCycleLosesOneLink | apps/dashboard/lib/trace-tree.ts:237-258 | each cycle of resolved parent links loses exactly one link |
| SpanLinks.OffCycleKeepsParent | apps/dashboard/lib/trace-tree.ts:237-258 | no span off a cycle loses its resolved parent |
| SpanLinks.CutLinksAreRooted | apps/dashboard/lib/trace-tree.ts:237-258 | after cutting the links are acyclic: every span reaches a root |
| SpanLinks.AcyclicIsUncut | apps/dashboard/lib/trace-tree.ts:237-258 | without cycles nothing is cut, whatever the row order |
| SpanLinks.CutIffEntered | apps/dashboard/lib/trace-tree.ts:237-258 | a member of a cycle is cut exactly when the first row that leads to the cycle enters it there |
| SpanLinks.EarliestIsCutIff | apps/dashboard/lib/trace-tree.ts:174-177 | the earliest member of a cycle is cut if and only if no earlier row leads to the cycle from outside, or the first that does enters it at this member |
| SpanLinks.CutNeedNotBeEarliest | apps/dashboard/lib/trace-tree.ts:174-177 | an input for which the other member is cut: the comment promises the earliest |
| SpanLinks.CycleDependsOnOrder | apps/dashboard/lib/trace-tree.ts:237-258 | two members of any cycle, each put first in turn, leave different links |
| CycleCut.WalkUp | apps/dashboard/lib/trace-tree.ts:241-254 | one walk: distinct spans not yet safe, up to a root, a safe span, or its own path |
| CycleCut.WalkedOneMore | apps/dashboard/lib/trace-tree.ts:241-258 | after a walk exactly the spans it leads to are safe too, and exactly the span it revisited is cut |
| CycleCut.AllWalked | apps/dashboard/lib/trace-tree.ts:237-258 | after one walk from each row exactly the links to cut are gone |
| SpanForest.RollIsSum | apps/dashboard/lib/trace-tree.ts:306-327 | each roll-up is the sum of own values over the subtree |
| SpanForest.SumOfPermutation | apps/dashboard/lib/trace-tree.ts:306-327 | sums do not depend on the order of the spans |
| SpanForest.CollapseHides | apps/dashboard/lib/trace-tree.ts:348-367 | collapsing one shown span, with nothing collapsed inside it, hides exactly the rest of its subtree |
| SpanShape.ForestHoldsEverySpanOnce | apps/dashboard/lib/trace-tree.ts:260-291 | every span appears in the ordered forest exactly once, and nothing else does |
| SpanShape.SubtreeIsBelow | apps/dashboard/lib/trace-tree.ts:260-291 | the subtree at a span holds exactly the spans whose ancestor chain meets it |
| SpanShape.DepthOfChild | apps/dashboard/lib/trace-tree.ts:275-291 | depth is the distance to the root: one more than the parent's, and none at a root |
| SpanShape.VisibleIsFilteredPreOrder | apps/dashboard/lib/trace-tree.ts:343-367 | the visible rows are the full pre-order without the spans that have a collapsed proper ancestor |
| RowOrder.ShownIff | apps/dashboard/lib/trace-tree.ts:343-367 | a span is on screen exactly when none of its proper ancestors is collapsed, and then once |
| RowOrder.ShownInOrder | apps/dashboard/lib/trace-tree.ts:343-367 | on screen a span comes after its ancestors, and everything at or below it before everything at or below a later sibling, or later root |
| TraceRows.IndexedKeepsFirst | apps/dashboard/lib/trace-tree.ts:189-194 | a repeated span id keeps its first row |
| TraceRows.IndexedIsGiven | apps/dashboard/lib/trace-tree.ts:189-194 | every row kept is the first of its id in the payload |
| TraceRows.StartsAreEarliest | apps/dashboard/lib/trace-tree.ts:196-211 | the missing parents are listed once each, with the earliest start among their children |
| TraceRows.WithPendingAdds | apps/dashboard/lib/trace-tree.ts:212-217 | in live mode the rows are the given ones and one zero-valued root placeholder for each missing parent |
| TraceRows.SortSorts | apps/dashboard/lib/trace-tree.ts:162-167 | siblings are put in order of start, then id, none lost or added |
| TraceRows.ShapeIsShape | apps/dashboard/lib/trace-tree.ts:219-273 | resolving, cutting and ordering give every row either one place among its parent's children or one among the roots |
| TraceTree.IndexSpans | apps/dashboard/lib/trace-tree.ts:189-194 | one blank node for each id, carrying its first row |
| TraceTree.CollectMissing | apps/dashboard/lib/trace-tree.ts:196-211 | the loop computes the missing parents and their starts |
| TraceTree.AddPending | apps/dashboard/lib/trace-tree.ts:212-217 | one pending node for each missing parent, after the given ones |
| TraceTree.ResolveParents | apps/dashboard/lib/trace-tree.ts:219-235 | each node's parent; a node naming itself or a missing parent is an orphan, and no other |
| TraceTree.CutCycles | apps/dashboard/lib/trace-tree.ts:237-258 | the links with every cycle cut; the nodes cut are orphans too |
| TraceTree.LinkChildren | apps/dashboard/lib/trace-tree.ts:260-269 | every node is pushed once, under its parent or among the roots, in row order |
| TraceTree.SortChildren | apps/dashboard/lib/trace-tree.ts:271-273 | every child list is put in order in place |
| TraceTree.SetDepths | apps/dashboard/lib/trace-tree.ts:275-291 | the explicit-stack walk visits the forest in pre-order and gives every node its depth |
| TraceTree.AttachEvals | apps/dashboard/lib/trace-tree.ts:293-304 | each node carries the results that name it, in order, and counts them and the failures; a result for an unknown span is ignored |
| TraceTree.RollUp | apps/dashboard/lib/trace-tree.ts:306-327 | one reverse pass turns own values into the recursive roll-ups |
| TraceTree.CountNodes | apps/dashboard/lib/trace-tree.ts:329-341 | the counts of nodes, orphans and placeholders |
| TraceTree.BuildSpanTree | apps/dashboard/lib/trace-tree.ts:184-341 | the built tree is that of its rows: spans, links, child and root order, depths, flags, results, exact roll-ups and counts |
| TraceTree.FlattenVisible | apps/dashboard/lib/trace-tree.ts:348-367 | the explicit-stack walk computes the visible rows of the forest |
| TraceTreeLaws.RowsDecideTheTree | apps/dashboard/lib/trace-tree.ts:162-167 | without parent cycles the rows alone decide links, order, roots and orphans: their order does not matter |
| TraceTreeLaws.SameTreeInEveryOrder | apps/dashboard/lib/trace-tree.ts:184-341 | for distinct ids and no parent cycles every permutation of the input gives the same rows, placeholders, shape, orphans and own values, live or not |
| TraceTreeLaws.BuiltAlike | apps/dashboard/lib/trace-tree.ts:184-341 | and two trees built from permutations agree node by node: children, depth, flags, roll-up, results, and the counts |
| TraceTreeLaws.SameTreeIffAcyclic | apps/dashboard/lib/trace-tree.ts:184-341 | for distinct ids, live or not, all permutations give one tree if and only if the parent links have no cycle |
| TraceTreeLaws.CycleOrderMatters | apps/dashboard/lib/trace-tree.ts:237-258 | any cycle makes two orders of the same rows give different trees |
| TraceTreeLaws.CyclesDependOnOrder | apps/dashboard/lib/trace-tree.ts:237-258 | the smallest such input: of two spans that name each other the first row becomes the orphan |
| TraceTreeLaws.PendingClosesNoCycle | apps/dashboard/lib/trace-tree.ts:196-217 | placeholders close no cycle |
| TraceTreeLaws.RootsTotalEverything | apps/dashboard/lib/trace-tree.ts:306-327 | the roots' roll-ups together are the sum of all own values, count every span once, and count exactly the results that name a span of the tree |
| TraceTotals.RootsTotalTheRows | apps/dashboard/lib/trace-tree.ts:104-127 | field by field, in the rows' own fields: input, output and total tokens, cost and duration summed, rows with status ERROR and rows at their second attempt or later counted, results and failed results counted |
| TraceTotals.BelowAre | apps/dashboard/lib/trace-tree.ts:306-327 | the spans at and below a span are those whose chain of parents leads to it, each once |
| TraceTotals.BuiltTotals | apps/dashboard/lib/trace-tree.ts:104-127 | and so is the roll-up of every node of a built tree, over the rows at and below its span |
| TraceTotals.BuiltSays | apps/dashboard/lib/trace-tree.ts:85-110 | a node says whether its span failed or was retried, and its category: tool before agent before model call, by operation, tool name or model |
| TraceTotals.DisplayOrder | apps/dashboard/lib/trace-tree.ts:162-167 | siblings and roots come by start, and those of one start by id, character by character |
| TraceTotals.OrphanIff | apps/dashboard/lib/trace-tree.ts:219-258 | an orphan names itself or a row that is not there, or was cut from a cycle |
| TraceTotals.PlaceholderIsGeneric | apps/dashboard/lib/trace-tree.ts:130-160 | a placeholder has no category and no status of its own |
| TraceTreeLaws.CollapseHidesWhatIsPrinted | apps/dashboard/app/traces/[traceId]/TraceViewer.tsx:237-239 | collapsing a span with nothing collapsed above or inside it hides exactly the number of rows that the viewer prints, its roll-up's span count less one |
| TraceTreeLaws.PlaceholdersAreTheMissing | apps/dashboard/lib/trace-tree.ts:201-211 | a placeholder exists for an id exactly when some row names it and no row has it |
| TraceTreeLaws.PlaceholderHoldsItsChildren | apps/dashboard/lib/trace-tree.ts:130-160 | a placeholder is a root and no orphan, has a child, and starts where its first child starts |
| TraceTreeLaws.LiveOrphans | apps/dashboard/lib/trace-tree.ts:219-235 | in live mode only self-references and cycle cuts are orphans |
| TraceTreeLaws.LiveTotals | apps/dashboard/lib/trace-tree.ts:130-160 | against the build without placeholders the totals gain one span per placeholder and the results that name one, and nothing else |
| TraceTreeLaws.LiveTotalsMatchIff | apps/dashboard/lib/trace-tree.ts:293-304 | the totals other than the span count agree exactly when no evaluation result names a span still open |
| TraceTreeLaws.ArrivalKeepsChildren | apps/dashboard/lib/trace-tree.ts:50-56 | when the real parent arrives anywhere in the payload and closes no cycle, it has the placeholder's children in the same order |
| EvalWindow.ScanIff | apps/eval-runner/src/clickhouse.ts:102-116 | a scan that is not full returns every copy of exactly the stored rows with an operation, of another service than the judge's, selected by service, model and operation, that start after the window opens and no later than now |
| EvalWindow.MaxStartIsMax | apps/eval-runner/src/runner.ts:172-177 | the watermark of a scan is its newest start, to the millisecond and not before the epoch |
| EvalWindow.WatermarkNotPastSkipped | apps/eval-runner/src/runner.ts:172-177 | a batch-limited scan sets the watermark no later than the start of any span it left out |
| EvalWindow.SkippedStaysInWindow | apps/eval-runner/src/runner.ts:151-156 | hence with a positive overlap such a span is still in the window of the next run |
| EvalWindow.NotKeptStaysInWindow | apps/eval-runner/src/runner.ts:151-188 | so is a span that a run scanned and then failed to keep |
| EvalWindow.VisibleSpanIsNotLost | apps/eval-runner/src/runner.ts:151-188 | a visible matching span that is in the window of one run is scanned by a run that does not fail, or is in the window of the run that comes next |
| EvalWindow.FirstFailuresKeepIff | apps/eval-runner/src/runner.ts:154-156 | without a stored watermark, after first runs that all failed, a span that was in a window is in that of a later run if and only if it starts within the lookback of that run |
| EvalWindow.SurvivesFirstFailures | apps/eval-runner/src/runner.ts:151-188 | from the first run that does not fail it is safe again |
| EvalWindow.WatermarkAdvancesIff | apps/eval-runner/src/runner.ts:282-289 | with matching spans waiting above the watermark, a successful run moves it forward exactly when fewer stored rows of the window, copies counted, match and start at or below it than the batch limit |
| EvalWindow.LateRowScanned | apps/eval-runner/src/runner.ts:151-166 | an advancing scan has read every such row, copies included, and one more |
| EvalWindow.StallIsForever | apps/eval-runner/src/runner.ts:151-177 | for every configuration and batch limit: once as many stored rows as the limit match at or below the watermark, no later run, failing or not, whatever else arrives, reads a span above it, and the watermark never exceeds it |
| EvalWindow.AdvancesOrStalls | apps/eval-runner/src/runner.ts:151-177 | a run with matching spans waiting above the watermark advances it, or no later run ever scans a span above it; which one is decided by whether these rows fill a batch |
| EvalWindow.OverlapCanStarve | apps/eval-runner/src/runner.ts:151-177 | an instance with a batch of two: every later batch is the same two rows |
| EvalWindow.StarvingScanExists | apps/eval-runner/src/runner.ts:151-177 | such runs exist: a capped scan inside the overlap moves the watermark back, with a third span waiting in every window |
| EvalRunner.Runner.NewestStart | apps/eval-runner/src/runner.ts:172-177 | the loop computes the newest start |
| EvalRunner.Runner.FetchExistingIds | apps/eval-runner/src/clickhouse.ts:152-172 | the spans already scored for this definition and version |
| EvalRunner.Runner.FetchContentCache | apps/eval-runner/src/clickhouse.ts:179-208 | one prior success for every hash that has any, and no failure |
| EvalRunner.Runner.Score | apps/eval-runner/src/runner.ts:227-252 | every hash to score is handed to the evaluator once and has an outcome, also when the evaluator throws |
| EvalRunner.Runner.BuildRows | apps/eval-runner/src/runner.ts:254-273 | one row a candidate, from the cache or from its hash's evaluation; the fallback for a missing outcome is never taken |
| EvalRunner.Runner.RunEval | apps/eval-runner/src/runner.ts:132-293 | one run: the rows written and what each of them says, the hashes evaluated, the spans that now have a result, and the new watermark, for a run that completes and for one that breaks off at any point |
| EvalRunner.HashesHaveCandidates | apps/eval-runner/src/runner.ts:223-234 | every hash to score has a candidate, and every candidate's hash is cached or scored |
| EvalRunner.ScoredOnce | apps/eval-runner/src/runner.ts:223-252 | a run evaluates exactly the distinct uncached hashes of its candidates, each once |
| EvalRunner.CandidatesAreFresh | apps/eval-runner/src/runner.ts:179-221 | the candidates are exactly the scanned spans that are sampled, have content, and have no row of this definition and this version |
| EvalRunner.CandidateComesFrom | apps/eval-runner/src/runner.ts:197-221 | each is a scanned row: its hash is that of the version and the content, its variant the prompt version or else the model |
| EvalRunner.RowsTell | apps/eval-runner/src/results.ts:22-70 | the stored row of a candidate carries its own span, hash and variant, and the verdict of a prior success of the same content if there is one; else what evaluating the first candidate of that content returned, the score 0 when errored, or a failure with the name that was thrown |
| EvalRunner.CandidatesOnceIff | apps/eval-runner/src/runner.ts:179-221 | a run has one candidate a span exactly when no sampled, unscored span with content was scanned twice |
| EvalRunner.OneRowEachIff | apps/eval-runner/src/runner.ts:179-188 | a run that writes keeps one row an evaluation, version and span if and only if no sampled, unscored span with content was scanned twice |
| EvalRunner.RunKeepsOneRowEach | apps/eval-runner/src/runner.ts:179-188 | with unique span ids none ever gives a second row, although windows overlap and runs repeat |
| EvalRunner.RetriedSpanScoredTwice | apps/eval-runner/src/clickhouse.ts:102-116 | two identical copies of a span, as a collector retry stores them, are both scanned when the batch has room, and the span gets two rows in one run |
| EvalRunner.RunAddsIds | apps/eval-runner/src/runner.ts:179-273 | the rows of a run are results of exactly the sampled, unscored spans with content that it scanned |
| EvalRunner.ResultIff | apps/eval-runner/src/runner.ts:179-273 | over any runs, failing or not, a span has a result exactly when it had one or a run that kept its rows scanned it when it had content |
| EvalRunner.SkippedIsSeenAgainIff | apps/eval-runner/src/runner.ts:199-203 | a span scanned before its content landed gets no result, and is in the window of the next run exactly when it starts above the newest scanned start less the overlap |
| EvalRunner.LateContentIff | apps/eval-runner/src/runner.ts:199-203 | such a span is lost exactly when no window from then on opens below its start: otherwise it gets its result or is in the window of the coming run |
| Concurrency.StepKeepsSound | apps/eval-runner/src/concurrency.ts:17-25 | every step of every worker keeps the pool sound: claimed indexes are distinct and results sit at their own index |
| Concurrency.SchedulesEnd | apps/eval-runner/src/concurrency.ts:17-25 | every schedule is finite: it cannot have more steps than there is work |
| Concurrency.FinishedIsComplete | apps/eval-runner/src/concurrency.ts:27-28 | when all workers have finished every index was started once and every result is in place |
| Concurrency.EveryInterleaving | apps/eval-runner/src/concurrency.ts:8-29 | for every interleaving: at most max(1, limit) in flight, no index twice, and the complete result at the end |
| Concurrency.Saturates | apps/eval-runner/src/concurrency.ts:8-29 | and the bound is used: with one schedule as many tasks are in flight as the limit and the items allow |
| Concurrency.MapWithConcurrency | apps/eval-runner/src/concurrency.ts:8-29 | the pool's result is the worker's, item by item, each item handed over exactly once |
| RateLimit.TokenBucketLimiter.TryAcquire | apps/dashboard/lib/rate-limit.ts:43-75 | one call moves the table and decides as the step specification says: refill, least-recently-seen eviction, grant or retry hint |
| RateLimit.StepKeepsOrdered | apps/dashboard/lib/rate-limit.ts:47-64 | the order lists every tracked key once |
| RateLimit.StepKeepsSize | apps/dashboard/lib/rate-limit.ts:56-63 | the table never holds more keys than its limit (at least one) |
| RateLimit.RunKeepsSight | apps/dashboard/lib/rate-limit.ts:47-64 | after any calls the order is by last sight |
| RateLimit.EvictsLeastRecentlySeen | apps/dashboard/lib/rate-limit.ts:56-63 | a call evicts a key exactly when it brings a new one to a full table and that key is the least recently seen |
| RateLimit.AgreesUntilEvicted | apps/dashboard/lib/rate-limit.ts:43-75 | until its key is evicted the limiter decides every call like an unbounded limiter of that key alone |
| RateLimit.GrantedAtMost | apps/dashboard/lib/rate-limit.ts:43-75 | under any clock, with calls of other keys in between, a key that stays tracked is granted at most what its first call finds and what refills, capped by the capacity, from call to call |
| RateLimit.GrantedFromBucket | apps/dashboard/lib/rate-limit.ts:43-75 | hence a tracked key at most its tokens and what so refills |
| RateLimit.BoundHoldsIff | apps/dashboard/lib/rate-limit.ts:43-75 | any bound holds of calls at given instants, whatever non-negative amounts they ask for, if and only if this most is within it: asking for everything at every call is granted all of it |
| RateLimit.NewKeyBoundIff | apps/dashboard/lib/rate-limit.ts:43-75 | so a new key is granted at most the capacity plus the refill of an interval, whatever it asks for, if and only if what refills from call to call is no more than that refill |
| RateLimit.LoneKeyBoundIff | apps/dashboard/lib/rate-limit.ts:43-75 | the same for a key that calls alone on an empty table, where nothing else has to be assumed |
| RateLimit.GrantsAreBounded | apps/dashboard/lib/rate-limit.ts:43-75 | with a clock that never runs back the condition holds: over any interval a key that stays tracked is granted at most the capacity plus the rate times the seconds that pass |
| RateLimit.ClockRunningBackGrantsMore | apps/dashboard/lib/rate-limit.ts:48-53 | a run that breaks the bound: a clock that runs back and recovers refills a second twice |
| RateLimit.RefillIsPerSecond | apps/dashboard/lib/rate-limit.ts:48-52 | tokens refill at the given rate a second, and time is in milliseconds |
| RateLimit.RepeatedIsAllowedIff | apps/dashboard/lib/rate-limit.ts:48-74 | a denied request repeated with nothing in between is granted exactly when it fits the capacity and what it lacked has come at the rate a second |
| RateLimit.WaitingSucceeds | apps/dashboard/lib/rate-limit.ts:70-74 | a denied request no larger than the capacity succeeds after the returned wait, with nothing in between |
| RateLimit.HintIsLeast | apps/dashboard/lib/rate-limit.ts:70-74 | the wait is least: hinted two seconds or more, the request is still denied when repeated a second before, or earlier |
| RateLimit.NoRefillNoHint | apps/dashboard/lib/rate-limit.ts:70-74 | without any refill no wait helps, and none is returned |
| AiTelemetry.Telemetry.OnStart | packages/sdk-ts/src/vercel.ts:254-281 | an operation opens its root span; embeddings and reranking open nothing |
| AiTelemetry.Telemetry.OnStepStart | packages/sdk-ts/src/vercel.ts:283-302 | a step span under the operation, now the current context |
| AiTelemetry.Telemetry.OnLanguageModelCallStart | packages/sdk-ts/src/vercel.ts:304-345 | a model span under the current step or the operation, pushed on the stack |
| AiTelemetry.Telemetry.OnLanguageModelCallEnd | packages/sdk-ts/src/vercel.ts:347-384 | the innermost model span is ended |
| AiTelemetry.Telemetry.OnToolExecutionStart | packages/sdk-ts/src/vercel.ts:386-413 | a tool span under the current step or the operation |
| AiTelemetry.Telemetry.OnToolExecutionEnd | packages/sdk-ts/src/vercel.ts:415-438 | the tool's span is ended |
| AiTelemetry.Telemetry.OnStepEnd | packages/sdk-ts/src/vercel.ts:440-455 | the step's span is ended, and the current context cleared only if it is that step's |
| AiTelemetry.Telemetry.OnEnd | packages/sdk-ts/src/vercel.ts:457-475 | everything still held is ended, the root last, and the operation forgotten |
| AiTelemetry.StepKeepsInv | packages/sdk-ts/src/vercel.ts:253-475 | every handler keeps the invariant: operations hold exactly the open spans, and no span is ended twice |
| AiTelemetry.RunKeepsInv | packages/sdk-ts/src/vercel.ts:253-475 | so does every sequence of events that restarts nothing still open |
| AiTelemetry.StartsUnderOpenParent | packages/sdk-ts/src/vercel.ts:249-251 | every span but a root is started under a parent that is still open |
| AiTelemetry.HangsUnderItsStep | packages/sdk-ts/src/vercel.ts:249-251 | over event sequences: a model call or a tool hangs under the span of the last step begun in its call and not ended since, and under the root of the call when there is none; a step always hangs under the root |
| AiTelemetry.BeginsUnderAmbient | packages/sdk-ts/src/vercel.ts:254-281 | the root hangs under the ambient context |
| AiTelemetry.NothingBegins | packages/sdk-ts/src/vercel.ts:254-413 | operations that generate nothing, steps without a number, tools without an id and work of calls that are not open begin nothing |
| AiTelemetry.ModelEndClosesLatest | packages/sdk-ts/src/vercel.ts:347-384 | the end of a model call closes the latest open one of its call |
| AiTelemetry.NamedEndCloses | packages/sdk-ts/src/vercel.ts:415-455 | the end of a tool or a step closes the open span of that tool or step |
| AiTelemetry.EndClosesNothing | packages/sdk-ts/src/vercel.ts:347-455 | with nothing of the kind open it closes nothing |
| AiTelemetry.EndedOnceAtEnd | packages/sdk-ts/src/vercel.ts:457-475 | when `onEnd` returns, every span of the call has been ended exactly once |
| AiTelemetry.CallsAreIsolated | packages/sdk-ts/src/vercel.ts:237-238 | events of one call never touch the operation or the spans of another |
| AiTelemetry.HeldOnce | packages/sdk-ts/src/vercel.ts:238-251 | an operation holds each of its open spans in exactly one slot |
| AiTelemetry.RestartLeaksForever | packages/sdk-ts/src/vercel.ts:270-276 | restarting a call, step or tool that is still open loses its span, which no later event ever ends |
| Storage.Writer.Enqueue | apps/collector/src/storage.rs:33-43 | at any moment, also while a flush awaits its insert: accepted, full, or closed when the writer task is gone, and only an accepted batch is queued |
| Storage.Writer.Flush | apps/collector/src/storage.rs:110-123 | both buffers are handed over once and cleared, whatever becomes of the insert, which is stamped no earlier than those before it |
| Storage.Writer.Receive | apps/collector/src/storage.rs:83-90 | a received batch is buffered, and both buffers flushed when either is full |
| Storage.Writer.Tick | apps/collector/src/storage.rs:97-99 | the interval flush leaves both buffers empty and loses nothing; the log of every trace grows by its buffered rows, newest stamp, if the insert lands |
| Storage.Writer.Drain | apps/collector/src/storage.rs:91-95 | the last flush: everything accepted has been handed over, in acceptance order |
| Storage.Writer.ShutDown | apps/collector/src/storage.rs:81-101 | from any moment of shutdown, with ticks in between, nothing is left un-handed |
| Storage.QueueAppends | apps/collector/src/storage.rs:37-42 | enqueueing appends to the rows in the channel |
| Storage.VisibleIsStamped | apps/collector/src/storage.rs:110-116 | every visible row carries the stamp of the insert that landed it |
| Storage.Writer.Die | apps/collector/src/storage.rs:27-31 | a writer task that dies takes exactly what was buffered and queued with it |
| Storage.ClockOrderSortsTheLog | apps/dashboard/lib/live-deltas.ts:11-12 | inserts stamped in order give a log in non-decreasing milliseconds, whichever failed |
| Storage.VisibleInOrder | apps/collector/src/storage.rs:110-116 | the visible rows of a trace are rows handed over, in that order |
| Storage.OfTraceIsExact | apps/collector/src/storage.rs:110-116 | the rows of a trace are all its rows, each as often as it was handed over, and no other row |
| Storage.AllLandedIsVisible | apps/collector/src/storage.rs:110-116 | if every insert lands, exactly the rows handed over are visible, in order |
| Storage.Writer.WriterSortsTheLog | apps/dashboard/lib/live-deltas.ts:11-12 | at any moment, whatever inserts failed, the log of a trace left by the writer's own inserts is in non-decreasing milliseconds and in acceptance order: the hypothesis of the live protocol |
| Storage.Writer.DrainedIsVisible | apps/collector/src/storage.rs:81-101 | a writer that drained and whose inserts all landed has made every accepted row visible, in order and as often as it was accepted |

## Left out

- LiveDeltas.FetchTraceDeltas: rows keep their key, millisecond and root flag only; an evaluation row that is re-evaluated and replaced at a newer millisecond is not modelled, the log only grows.
- LiveDelivery.SubscribersMissNothing: promises nothing to a joiner whose catch-up read found more than one page, because the code gives it less; `CatchUpsHoldIff` has the exact condition.
- LiveBroker.TracePoller.Broadcast: the order in which subscribers are served is not modelled (the subscribers are a set); whether a consumer is strained or refuses a frame is arbitrary.
- LiveBroker.TracePoller.TickFailed: the polling flag is cleared before the dismissals rather than after them; nothing in between can observe it.
- LiveBroker.Connection.Greet: the heartbeat's own later frames are not modelled beyond being writes; that it stays set after a failed first frame is modelled as the code does it.
- TraceTree.BuildSpanTree: a span's name, kind, messages, provider, response model, prompt version and ingest time are carried unchanged by the code and left out; cost is an exact number, offsets and durations are whole nanoseconds.
- TraceTree.SortChildren: the library sort is an insertion sort by the same comparison; the order is total on distinct ids, so every sort gives the same list.
- TraceTree.ResolveParents: parent links are kept by span id rather than by node object; nodes and ids correspond one to one.
- EvalRunner.Runner.RunEval: the regression pass, the summary counters and logging, and evaluations promoted from SDK events are not modelled; evaluators are deterministic per content, the content hash is abstract, and what a run reads about spans does not change while it runs.
- EvalWindow.VisibleSpanIsNotLost: starts are in whole nanoseconds and watermarks in whole milliseconds; rows stay visible, so the retention of the spans table is not modelled.
- Concurrency.EveryInterleaving: workers that throw are not modelled; the runner's worker catches what its evaluator throws.
- RateLimit.GrantsAreBounded: tokens are exact numbers; floating-point rounding is not modelled.
- AiTelemetry.Telemetry.OnEnd: the order in which held model, tool and step spans are ended among themselves is not modelled, only that the root is last; attributes, events and statuses of spans are left out.
- AiTelemetry.StartsUnderOpenParent: the host's ambient context, under which a root hangs, is an input of the model and its spans are not modelled; running a call inside a model or tool context (`executeLanguageModelCall`, `executeTool`) opens and ends no span and is left out.
- Storage.Writer.Receive: waiting and the ticker's schedule are arbitrary, and so are the stamp and the outcome of an insert, except that the database's clock does not run back; rows of one insert become visible together or not at all. `Enqueue` may come at any moment, but the steps of the loop are stated one at a time.
- The client merge of deltas is merge-by-id and not part of this model; neither are the cursor codec, SSE encoding, ClickHouse, Postgres and HTTP.
- `clientKey`, `namedLimiter` and `enforceRateLimit` around the limiter: one-branch lookups.
- `runOnce` around the runner: a loop that isolates one definition's failure from the next.
- Pricing, deterministic evaluators, judges, regression statistics, OTLP conversion, the code sandbox, list feeds and the user interface: counters, strings and layout.
