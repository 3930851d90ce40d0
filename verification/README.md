# Verified model of the Qoder proxy core

This project models the parts of the proxy whose behaviour depends on state, loops or
interleavings, and proves what they are meant to guarantee:

- the **request router**: candidate pipeline with threshold relaxation, smooth weighted
  round-robin, ID-cursor rotation, sticky bindings with a quota and a capacity
  (`Accounts`, `Candidates`, `WeightedRotation`, `CursorRotation`, `RouterSpec`, `Decisions`,
  `Starvation`, `Router`, `StickySessions`);
- the **billing cycle**: calendar months, the catch-up loop, the acceptance of reported
  boundaries, and the recorder's counters (`Calendar`, `BillingCycle`, `StatsRecorder`,
  `CycleAccounting`);
- the **stream accumulator**: text that may be a written tool call is held back, tool
  calls are reassembled from fragments, and both delivery paths have to agree (`ToolCalls`,
  `StreamText`, `StreamAccumulator`, `Chunking`, `ClientCalls`, `Delivery`);
- **retry and failover**: line loop, stream attempts, accounts, and the point from which
  the client has been written to (`Upstream`, `ResponseSpec`, `Failover`, `ChatHandler`);
- the **Base64 variant** of the gateway (`Codec`);
- the **concurrent protocols**: the single-flight catalog fetch and the admission gate
  (`SingleFlight`, `AdmissionGate`, with `Tally`);
- the **request log** (`LogRing`).

Objects that the program updates in place are classes (`Router.Router`,
`StatsRecorder.Recorder`, `ToolCalls.ToolCallAccumulator`, `StreamAccumulator.Accumulator`,
`ChatHandler.Exchange`, `Codec.Tables`, `SingleFlight.CatalogCache`, `LogRing.Recorder`).
Each of their methods is verified against a function on values, and the theorems are about
runs of those functions. Clocks, the account pool, upstream responses, JSON decoding and
every choice the environment makes are parameters, so the theorems hold for all of them.

## Edge cases

The model follows the code also where it departs from its comments or from the property
one would expect. Each of these is a lemma.

- The weighted scan starts from weight 0. On a fixed candidate set that start never decides
  (`WeightedRotation.PickIsFirstMaximum`), but after an account has left, all raised weights
  can be 0 or less, and then the first candidate is taken although another holds more
  (`WeightedRotation.ZeroStartCanDecide`; exact condition in `ChoiceIsMaximumIff`).
- The rotation cursor reads the empty string as "nothing picked yet", so an account whose ID
  is empty would be picked for ever (`CursorRotation.EmptyIdStarves`). The rotation starves
  nobody exactly when no ID is empty (`CursorRotation.NobodyStarvesIff`).
- The first boundary reported is documented to keep the credits spent so far. It does, but
  if that boundary already lies in the past the next write empties them
  (`BillingCycle.FirstReportKeepsCreditsIff`).
- Catching up in two steps can differ from catching up at once when the step cap stops the
  long way only (`BillingCycle.PathIndependentIff`). That takes a boundary more than 2400
  steps old; in a fixed-offset zone no positive instant is that old before about the year
  2154, and younger boundaries never differ (`BillingCycle.RecentRollsAgree`).
- The cap of 128 tool calls is documented to drop additional calls. It also drops every
  further fragment of the calls already open (`ToolCalls.LastCallGetsOneFragment`).
- A frame that carries tool calls loses the text it carries itself, and text held back is
  lost with it if it may be a written tool call (`Delivery.AcceptProjects`, `TextIsKeptIff`).
- Streaming strips four blank characters where the one-shot path strips all Unicode white
  space, so the two disagree on written tool calls indented by the others
  (`Delivery.StreamingAgreesIff`, `Delivery.OddVariant`).
- The counter the router reads trails the slots taken by the requests between the two
  operations, so an account can look free while its slots are all taken
  (`AdmissionGate.FullCanLookFree`; exact relation in `FreeMeansFreeSlotIff`).
- Log entries are said to be in chronological order, but a clock that is set back breaks
  that, and then incremental and one-shot pruning can differ
  (`LogRing.ClockSetBackDiverges`; exact condition in `LogRing.OneShotIff`).
- A reported boundary is documented never to move the tracked one backwards. It does when
  the roll before it drops the boundary (`BillingCycle.ReportsMoveForwardIff`,
  `BillingCycle.DroppedBoundaryIsReadopted`).
- Neither rotation alone starves a candidate, but calls of both kinds in turn can: plain
  calls forget the running weights and weighted calls move the cursor
  (`Starvation.MixedCallsStarve`). `Starvation.CanStarveIff` is the exact condition on the
  pool.
- Fragments without an index are numbered within their frame when streamed, and appended
  by the accumulator, so a client can merge two calls into one
  (`ClientCalls.UnnumberedFramesMerge`; exact condition in `ClientCalls.HoldsTheSameIff`).

## Model

| member | source | states |
|---|---|---|
| `Accounts.Weight` | store/store.go:127-135 | the effective weight of an account lies between 1 and the maximum, and is the configured one whenever that is in range |
| `Candidates.RegionBaseMembers` | routing.go:72-105 | an account is in the filter's region base exactly when its region matches, or the filter admits all, or the default filter finds no CN account |
| `Candidates.UsableMeaning` | routing.go:111-129 | usable means not excluded, not cooling and not exhausted; the threshold adds exactly the low-credit test |
| `Candidates.RelaxesIff` | routing.go:181-205 | the relaxation applies exactly when every non-excluded account of the base is healthy and low on credit |
| `Candidates.UsableOrRelaxedMembers` | routing.go:181-205 | exact membership of the candidate set after relaxation |
| `Candidates.PickFromSound` | routing.go:81-219 | whoever can be picked is in the base, not excluded, not cooling, not exhausted, low on credit only under relaxation, lacking the model or saturated only when all candidates are |
| `Candidates.PickFromNonemptyIff` | routing.go:81-219 | there is somebody to pick exactly when an account of the base is usable or the threshold alone stands in the way |
| `Candidates.PickFromMembers` | routing.go:81-219 | exactly these are offered: the healthy accounts of the base after relaxation that may serve the model, or all of them if none may, and of those the ones with a free slot, or all if none has one |
| `Candidates.PickFromIsFilter` | routing.go:81-219 | the pipeline is one filter of the pool: every candidate is offered, in pool order, and nobody else |
| `Candidates.PickFromIsOffered` | routing.go:171-219 | every routing decision chooses among some of the pool in pool order |
| `WeightedRotation.ChoiceIsMaximumIff` | routing.go:351-359 | the scan picks a true maximum exactly when some raised weight is positive or the first is a maximum |
| `WeightedRotation.BestUnique` | routing.go:351-359 | the choice (first positive maximum, else the first candidate) is unique |
| `WeightedRotation.RaisedIsRaise` | routing.go:351-359 | on distinct IDs adding the weights one after the other raises every entry once, and the choice met on the way is the scan's |
| `WeightedRotation.StepIsVectorStep` | routing.go:337-362 | a step leaves entries for the candidates only; on distinct IDs they are raised by their weights, the picked one paying the total |
| `WeightedRotation.StepKeepsBalance` | routing.go:337-362 | a step keeps: weights sum to 0, each above -total, each equal to earned minus paid |
| `WeightedRotation.BalancedChoice` | routing.go:351-359 | under that balance the zero start never decides: the pick is positive and the first maximum |
| `WeightedRotation.PickIsFirstMaximum` | routing.go:351-359 | every call of a run on a fixed set picks the first true maximum |
| `WeightedRotation.PrefixFairness` | routing.go:310-363 | after k calls the weights sum to 0, each exceeds -total, and k * weight - (n - 1) * (total - 1) <= picks * total < k * weight + total |
| `WeightedRotation.ExactFairness` | routing.go:310-363 | every window of total consecutive calls picks each account exactly its weight times |
| `WeightedRotation.RoundsReturnToZero` | routing.go:310-363 | all running weights are 0 again every total calls |
| `WeightedRotation.StepEarnsAndPays` | routing.go:351-361 | an account earns its weight at each call and pays the total when picked, whatever the state |
| `WeightedRotation.LedgerSurvivesChurn` | routing.go:310-363 | an account that stays keeps an exact ledger however the others come and go |
| `WeightedRotation.LeaverIsForgotten` | routing.go:341-349 | an account that is no candidate loses its running weight |
| `WeightedRotation.ZeroStartCanDecide` | routing.go:341-359 | a concrete departure after which a smaller weight is picked |
| `WeightedRotation.StepCredit` | routing.go:341-361 | a step never raises the sum of the positive running weights above what it was or the number of candidates times the total |
| `WeightedRotation.WeightedNeverStarves` | routing.go:310-363 | an account offered at every weighted call is picked before its weights add up to more than the bound on that sum, however candidates and weights change and whatever the state was |
| `CursorRotation.SortByIdSorts` | routing.go:279-282 | the candidates are sorted by ID and are a permutation of the input |
| `CursorRotation.ResumeIndexIsNext` | routing.go:283-304 | the resume index yields the least ID above the cursor, or the least of all |
| `CursorRotation.NextUnique` | routing.go:283-304 | that ID is unique, so the plain rotation is a function of the ID set and the cursor |
| `CursorRotation.PickAdvances` | routing.go:283-304 | a pick other than a given candidate strictly shrinks what lies ahead of the cursor before that candidate |
| `CursorRotation.NoStarvation` | routing.go:256-304 | an account offered at every call is picked within as many calls as there are IDs ever offered, under any change of the sets and any cursor |
| `CursorRotation.FixedSetIsPermuted` | routing.go:283-304 | over a fixed set of n IDs any n consecutive picks are a permutation of it |
| `CursorRotation.NobodyStarvesIff` | routing.go:256-304 | over all runs nobody is starved exactly when no ID is empty or the empty ID is the only one |
| `CursorRotation.EmptyIdStarves` | routing.go:283-304 | an empty ID, once picked, is picked for ever |
| `RouterSpec.LeastBusy` | routing.go:262-271 | the least-inflight strategy takes the first candidate with the fewest requests in flight |
| `RouterSpec.LeastInFlightPicks` | routing.go:260-271 | under that strategy a rotation picks the first candidate with the fewest requests in flight and leaves the weights alone |
| `RouterSpec.RouteKeyIsInjective` | routing.go:263-263 | distinct pairs of filter and model have distinct route keys |
| `RouterSpec.RoutesAreSeparate` | routing.go:260-363 | rotating one route leaves the cursor and weights of every other alone |
| `RouterSpec.PickSound` | routing.go:171-253 | a picked account satisfies the whole pipeline |
| `RouterSpec.PickComplete` | routing.go:171-253 | no route exactly when nobody is usable and the relaxation does not apply; the state is then unchanged |
| `RouterSpec.DecisionMeaning` | routing.go:171-253 | all a decision does, over the exact candidates: it serves from a binding that holds, and else rotates and drops the binding; round robin never looks at bindings |
| `RouterSpec.StickyHoldsIff` | routing.go:223-249 | a binding survives a decision exactly when it is live, its account is a candidate and its quota is not used up; it then serves, counted once more, and the rotation does not move |
| `RouterSpec.PlainRunFollowsCursor` | routing.go:262-305 | rotations of the router over equal weights are a cursor run from its stored cursor |
| `RouterSpec.RouterNeverStarves` | routing.go:256-305 | over calls with equal weights and a strategy other than least-inflight the no-starvation bound holds for the router, from any state |
| `RouterSpec.WeightedRouterNeverStarves` | routing.go:310-363 | over calls with unequal weights an account that is a candidate of every call is picked within an explicit number of calls, from any router state and under any change of the others |
| `RouterSpec.RouterRunsWeighted` | routing.go:262-363 | rotations over unequal weights are the weighted run from an absent entry, whatever else the state holds |
| `RouterSpec.RouterIsFair` | routing.go:262-363 | exact weighted fairness of the router itself, window by window |
| `Decisions.DecisionsRotate` | routing.go:171-305 | in every run of decisions for a route those not answered from bindings form a run of the rotation over their exact candidates, whatever the others do |
| `Decisions.DecisionsNeverStarve` | routing.go:171-305 | over decisions with candidates of equal weight, a candidate of every decision is picked within as many rotating decisions as there are IDs ever offered |
| `Decisions.RoundRobinRotates` | routing.go:221-253 | under round robin every decision with a candidate rotates |
| `Decisions.PoolNeverPassesOver` | routing.go:171-363 | over decisions on one pool that does not block it, a candidate of every decision is picked once enough of them rotate |
| `Decisions.DecisionsAreFair` | routing.go:171-363 | over decisions with the same candidates of unequal weights every window of total rotating decisions picks each exactly its weight times |
| `Starvation.CanStarveIff` | routing.go:262-363 | with fixed weights, distinct non-empty IDs, any strategy but least-inflight and calls that mix both rotations as they like, an account can be passed over for ever exactly when the pool holds a b that weighted calls pick ahead of it (heavier, or as heavy and earlier in the pool while weights differ) and a c of its own weight strictly between b and it in ID order |
| `Starvation.PickedWithin` | routing.go:262-363 | when nobody blocks it, an account offered at every call is picked within an explicit number of calls that depends on the pool and the starting weights only |
| `Starvation.LongRunNamesBlockers` | routing.go:262-363 | a run longer than that which never picks the account names such a b and c |
| `Starvation.BlockedRun` | routing.go:262-363 | from any state without running weights for the route, runs of every length pass a blocked account over |
| `Starvation.LastPickBeats` | routing.go:310-363 | in a weighted run from an absent entry that passes an account over, the last pick is heavier, or as heavy and earlier in the pool |
| `Starvation.PickedFirst` | routing.go:310-363 | in the weighted run over a pool the heavier of two accounts, or the earlier of two as heavy, is picked before the other |
| `Starvation.PlainPicksBetween` | routing.go:279-304 | a plain call that does not pick a candidate picks one between the cursor and it |
| `Starvation.MixedCallsStarve` | routing.go:262-363 | three accounts in ID order, the second heavier, are enough for the first to be passed over for ever |
| `Starvation.EvenPoolsAreFair` | routing.go:262-363 | in a pool of equal weights, or of distinct ones, nobody can be passed over for ever |
| `Router.Router.constructor` | routing.go:63-70 | the router starts with empty tables |
| `Router.Router.FilterRegion` | routing.go:97-105 | the loop keeps exactly the accounts of the region, in order |
| `Router.Router.BaseOf` | routing.go:81-95 | computes the region base of each filter |
| `Router.Router.UsableAccounts` | routing.go:181-205 | the two loops compute the usable accounts or the relaxed ones |
| `Router.Router.SupportsModel` | routing.go:147-167 | drops the accounts known not to serve the model, unless none would be left |
| `Router.Router.FreeOrAll` | routing.go:207-219 | prefers the accounts with a free slot |
| `Router.Router.Pick` | routing.go:171-253 | one call answers and changes the tables exactly as the specified decision |
| `Router.Router.ReuseBinding` | routing.go:223-249 | serves from the binding with its count raised, drops a binding that no longer holds, or leaves the table alone |
| `Router.Router.Rotate` | routing.go:262-305 | picks and moves cursor and weights as specified, for each strategy |
| `Router.Router.WeightedRotate` | routing.go:310-363 | one weighted step; equal weights drop the entry and decline |
| `Router.Router.RaiseAndScan` | routing.go:351-359 | the loop raises every weight and finds the scan's choice |
| `Router.Router.DropDeparted` | routing.go:341-349 | removes exactly the entries of non-candidates |
| `Router.Router.Bind` | routing.go:374-391 | refreshes a live binding to the same account, or binds anew after making room; empty keys change nothing |
| `Router.Router.PruneSticky` | routing.go:393-406 | removes the expired bindings, and then arbitrary ones down to one below the capacity only if still full |
| `Router.PickFromDistinct` | routing.go:81-219 | a pool without repeated IDs yields candidates without repeated IDs |
| `StickySessions.RoutingTouchesOneKey` | routing.go:223-249 | a decision reuses, removes or ignores its own binding and touches no other |
| `StickySessions.BindingTouchesOneKey` | routing.go:374-406 | a success binds its own key to its account, alters no other surviving binding and keeps the capacity |
| `StickySessions.BindingEvictsLittle` | routing.go:374-406 | nobody is evicted below the capacity, and nobody live as long as dropping the expired makes room |
| `StickySessions.StepKeepsLimits` | routing.go:223-249 | every step keeps counts within 1..limit and the table within its capacity |
| `StickySessions.AlwaysWithinLimits` | routing.go:374-406 | so does every reachable state |
| `StickySessions.BoundOnlyAfterSuccess` | bridge/handler.go:226-232 | every bound account had a successful request for that key |
| `StickySessions.CountIsServed` | routing.go:227-249 | the count of a binding is the number of requests it served, the creating one included |
| `StickySessions.BindingQuota` | routing.go:227-249 | a binding serves at most limit requests, the creating one included |
| `Calendar.MonthsAbut` | stats/stats.go:510-519 | the day count of the proleptic Gregorian calendar and its month lengths agree for every month |
| `Calendar.DayCountAnchors` | stats/stats.go:510-519 | day 0 is 1 January 1970 and 400 years are 146097 days |
| `Calendar.MonthUnique` | stats/stats.go:510-519 | a day lies in one month only |
| `Calendar.AddMonthsMeaning` | stats/stats.go:510-519 | shifting by n months lands n months on, at the same time of day, on the same day clamped to that month |
| `Calendar.OneMonthShift` | stats/stats.go:510-519 | one month forward or back is 28 to 31 days |
| `Calendar.BackAndForthIff` | stats/stats.go:497-519 | going n months and back returns to the start exactly when the day exists in the month between |
| `Calendar.IterateMeaning` | stats/stats.go:539-545 | k single steps land k months on, the day clamped by the shortest month met |
| `Calendar.StepsAreOneShiftIff` | stats/stats.go:510-545 | k single steps equal one k-month shift exactly when no month met is shorter than both the day and the last month |
| `BillingCycle.Advance` | stats/stats.go:539-545 | the next boundary is later than the last, or 0 |
| `BillingCycle.PassedMeaning` | stats/stats.go:594-619 | the boundaries passed are those not later than the clock, in increasing order; the next is unset or in the future |
| `BillingCycle.RollMeaning` | stats/stats.go:594-619 | a roll lands on the first boundary after the clock with empty credits, keeps an undue cycle, and gives a boundary beyond the cap up |
| `BillingCycle.RollSettles` | stats/stats.go:594-619 | after any roll the boundary is unset or later than the clock, a second roll changes nothing, and credits are emptied exactly if it was due |
| `BillingCycle.TwoRolls` | stats/stats.go:594-619 | the exact result of two rolls in a row |
| `BillingCycle.PathIndependentIff` | stats/stats.go:594-619 | rolling at t1 and then t2 equals rolling at t2 exactly when the cap is not what stops the long roll, or the first roll moved nothing or hit the cap |
| `BillingCycle.FixedOffsetAdvances` | stats/stats.go:539-545 | in a fixed-offset zone the step is never 0 and is 28 to 31 days |
| `BillingCycle.CatchUpIsShort` | stats/stats.go:594-619 | there the catch-up takes at most (now - boundary) / 28 days + 1 steps |
| `BillingCycle.RecentBoundarySurvives` | stats/stats.go:594-619 | there a boundary less than 2400 times 28 days old rolls to a cycle that contains the clock |
| `BillingCycle.RecentRollsAgree` | stats/stats.go:594-619 | there two rolls always equal one as long as the boundary is not 2400 times 28 days old |
| `BillingCycle.ReportsMoveForwardIff` | stats/stats.go:382-387 | for every state, report and clock the tracked boundary does not move back exactly when the report is not positive, not earlier than the tracked boundary, or the roll leaves a plausible boundary |
| `BillingCycle.StaleReportIsIgnoredIff` | stats/stats.go:385-387 | a plausible report no later than the boundary tracked before the call, or rolled to, adds nothing beyond the roll exactly when the roll leaves a plausible boundary; if the roll drops it, the stale instant is adopted |
| `BillingCycle.DroppedBoundaryIsReadopted` | stats/stats.go:408-444 | in a zone that derives no later boundary a due one is dropped and an earlier report adopted, against the rule |
| `BillingCycle.RollNeverGoesBack` | stats/stats.go:594-619 | a roll moves the boundary forward or drops it |
| `BillingCycle.DriftKeepsCredits` | stats/stats.go:393-400 | a chain of forward moves each below the tolerance is adopted to its end and never discards a credit |
| `BillingCycle.FirstReportKeepsCreditsIff` | stats/stats.go:388-392 | the first report keeps the credits; they survive the next roll exactly when the boundary is still ahead or there are none |
| `BillingCycle.ForwardReportIsAdopted` | stats/stats.go:393-444 | a report later than the rolled boundary is adopted with the month that ends there, and discards the credits exactly when it is at least seven days later |
| `BillingCycle.SentinelYields` | stats/stats.go:425-435 | a persisted implausible boundary yields to a genuine earlier report, discarding nothing |
| `BillingCycle.RepeatedReportIsIdle` | stats/stats.go:422-444 | repeating a report at the same clock changes nothing while its boundary is ahead or was not adopted |
| `StatsRecorder.Recorder.constructor` | stats/stats.go:214-225 | a recorder without persisted data starts from zero |
| `StatsRecorder.Recorder.Record` | stats/stats.go:279-315 | counts the request globally, by model and by hour |
| `StatsRecorder.Recorder.RecordUsage` | stats/stats.go:328-368 | adds tokens always, and credits to the rolled cycle, the totals and both rows only when billable |
| `StatsRecorder.Recorder.RollCycle` | stats/stats.go:594-619 | the loop with its cap and its no-advance exit stores the specified roll; the result says exactly whether anything changed |
| `StatsRecorder.Recorder.ProjectCycle` | stats/stats.go:555-579 | for every state and clock a read reports exactly the credits, start and boundary the next roll would store, and changes nothing |
| `StatsRecorder.Recorder.SetBillingCycleAt` | stats/stats.go:408-444 | stores the specified cycle, and marks the data dirty exactly when there was a report and a roll was due or the boundary moved |
| `CycleAccounting.EventSpends` | stats/stats.go:328-368 | each event adds its billable credits to lifetime and cycle credits, the latter after a possible zeroing |
| `CycleAccounting.EventChargesItsRows` | stats/stats.go:279-368 | one event adds to the row of its own model, the row of its own hour and the global counters, and to no other row |
| `CycleAccounting.EveryRowIsItsEvents` | stats/stats.go:279-368 | in every run each model's row and each hour's row hold exactly what their own events add, for credits, billed, total, success and failed |
| `CycleAccounting.TokensAreAllFrames` | stats/stats.go:328-368 | in every run each token total is the sum over all usage frames, billable or not |
| `CycleAccounting.RowsAlwaysAddUp` | stats/stats.go:279-368 | in every run the per-model rows and the hourly rows each sum to the global credits, billed, total, success and failed counters |
| `CycleAccounting.CycleCreditsAreSpendSinceZeroing` | stats/stats.go:328-444 | in every run lifetime credits are all billable credits, and cycle credits exactly those since the last zeroing |
| `CycleAccounting.CycleCreditsBounded` | stats/stats.go:328-444 | with non-negative credits, 0 <= cycle credits <= lifetime credits |
| `ToolCalls.SlotMeaning` | transform/transform.go:606-617 | a missing, negative or too large index appends; any other is taken as it is |
| `ToolCalls.ToolCallAccumulator.Append` | transform/transform.go:597-640 | the loop over fragments folds them in, stopping at the cap |
| `ToolCalls.Reassembles` | transform/transform.go:597-640 | one call per opened slot, at most 128; each is the in-order concatenation of the argument fragments routed to it under the last id, type and name |
| `ToolCalls.LastCallGetsOneFragment` | transform/transform.go:599-604 | the 128th call never gets more than its first fragment |
| `StreamText.PotentialIsPrefixClosed` | transform/transform.go:795-801 | every prefix of a text that may be a written tool call may be one |
| `StreamText.PotentialIff` | transform/transform.go:795-801 | text is held back exactly while some continuation of it begins, after the blanks, with the marker |
| `StreamText.WrittenCallParses` | transform/transform.go:558-581 | the marker and a payload that opens a list, with any white space around them, decode to that payload |
| `StreamText.FencedCallParses` | transform/transform.go:558-581 | a fenced payload decodes to what lies between the opening line and the closing fence |
| `StreamText.TrimLeftUnique` | transform/transform.go:796-796 | left trimming removes exactly the maximal run of stripped characters |
| `StreamText.NewlineBeforeFence` | transform/transform.go:563-574 | the fence slice of a fenced payload is always in range |
| `StreamText.ParsedButNotPotentialIff` | transform/transform.go:558-581 | a text that parses as a written tool call fails the streaming test exactly when other white space follows its blanks |
| `StreamAccumulator.Accumulator.constructor` | transform/transform.go:671-683 | the initial state |
| `StreamAccumulator.Accumulator.Emit` | transform/transform.go:778-793 | the role goes out with the first chunk only |
| `StreamAccumulator.Accumulator.Accept` | transform/transform.go:685-721 | one delta: role, finish reason, reasoning, tool calls, text, as specified |
| `StreamAccumulator.Accumulator.AcceptContent` | transform/transform.go:706-720 | streams text or holds it back while it may be a written tool call |
| `StreamAccumulator.Accumulator.DiscardBufferedToolCallText` | transform/transform.go:765-776 | drops held text that may be a tool call and emits any other |
| `StreamAccumulator.Accumulator.Flush` | transform/transform.go:723-740 | turns the held text into its parsed tool calls, or emits it |
| `StreamAccumulator.Accumulator.FinishReason` | transform/transform.go:742-750 | tool_calls when there are calls, else the reported reason, else stop |
| `StreamAccumulator.Indexed` | transform/transform.go:803-816 | a given index is kept, a missing one becomes the position |
| `StreamAccumulator.AsFragments` | transform/transform.go:1012-1026 | parsed calls become fragments without an index |
| `Chunking.CutAnywhere` | transform/transform.go:685-721 | from any state two pieces of text do what their concatenation does, as far as the client or later behaviour can tell |
| `Chunking.RunIsRunOfAtoms` | transform/transform.go:685-721 | every stream behaves like its finest cut: role and finish reason, reasoning and text character by character, tool calls |
| `Chunking.CutsAreInvisible` | transform/transform.go:685-750 | streams that differ only in how fields are put into frames and where text and reasoning are cut, tool-call frames included, give the same visible output, tool calls and finish reason |
| `Chunking.AtomsOfFrame` | transform/transform.go:685-721 | a frame with any fields does what its parts do one after the other |
| `Chunking.RoleGoesFirst` | transform/transform.go:778-793 | in every stream the first chunk names the role and no later one does |
| `Chunking.PassesThrough` | transform/transform.go:685-793 | with tools off the client sees, in order, exactly the fields of the frames, after the role reported last before the first of them |
| `ClientCalls.HoldsTheSameIff` | transform/transform.go:597-640 | a client that merges fragments by emitted index holds the accumulator's calls at every moment exactly when every fragment goes to the same call on both sides |
| `ClientCalls.EndsTheSameIff` | transform/transform.go:597-640 | the client ends with the accumulator's calls exactly when the indices used are the slots opened and, index by index, the fragments sent merge to the same call as the fragments routed there |
| `ClientCalls.NumberedCallsAgree` | transform/transform.go:803-816 | calls numbered from 0 without gaps, below the cap, are put together by the client exactly as by the accumulator |
| `ClientCalls.UnnumberedFramesMerge` | transform/transform.go:803-816 | two frames with one fragment each and no index are two calls for the accumulator and one for the client |
| `ClientCalls.RunReads` | transform/transform.go:685-721 | in every stream the client merges the fragments as emitted and the accumulator holds them as received |
| `ClientCalls.ClientHasAllCalls` | transform/transform.go:685-721 | the client gets exactly the calls of the one-shot response if every fragment goes to the same call on both sides |
| `ClientCalls.ParsedCallsArrive` | transform/transform.go:735-736 | the calls of a written tool call reach the client in order and unchanged |
| `Delivery.AcceptProjects` | transform/transform.go:685-721 | a frame delivers all its reasoning, and loses text exactly when it carries tool calls and either text of its own or held text before it that may be a written tool call |
| `Delivery.TextIsKeptIff` | transform/transform.go:685-721 | in every stream all reasoning is delivered, and all text is delivered or held exactly when no tool-call frame dropped any |
| `Delivery.StreamingAgreesIff` | bridge/stream.go:25-210 | on every stream without tool-call frames, with any roles, finish reasons and reasoning, both deliveries give the same reasoning; the same text and calls exactly unless tools are enabled and the text is an oddly indented written tool call; and the same finish reason exactly under the stated condition |
| `Delivery.TextOutcome` | transform/transform.go:685-740 | on such a stream the client gets all reasoning and either the whole text or only the tool calls written in it, which depends on the whole text alone |
| `Delivery.FinishIsReported` | transform/transform.go:742-750 | every stream that ends without calls finishes with the last reason the upstream reported, or "stop" |
| `Delivery.NoChunksIff` | bridge/stream.go:31-82 | nothing is written exactly when no frame carried text, reasoning or tool calls |
| `Delivery.MessageShape` | bridge/stream.go:147-190 | when the message has null content, reasoning, tool calls and which finish reason |
| `Delivery.RunHeldOrShown` | transform/transform.go:702-720 | on such a stream the text is all held while it may be a written tool call and all shown once it cannot be |
| `Delivery.FlushProjects` | transform/transform.go:723-740 | the flush turns the held text into its parsed calls, or shows it, and touches nothing else |
| `Delivery.ToolStreamsAgreeIff` | bridge/stream.go:25-210 | on a stream with tool calls in its frames reasoning and finish reason agree; text and held calls agree exactly when no frame dropped text and the rest held is no written tool call; the calls the client itself ends with agree exactly when what it was sent merges to them |
| `Delivery.ClientAtEnd` | transform/transform.go:685-740 | the client has merged every fragment sent, those of the flush included |
| `Delivery.OddVariant` | transform/transform.go:558-581 | every written tool call has oddly indented variants that still parse |
| `Upstream.OpenStreamLines` | auth/auth.go:1440-1517 | the line loop hands on exactly the specified lines and ends with the specified error |
| `Upstream.CompleteIff` | auth/auth.go:1440-1517 | an open succeeds exactly when it was accepted, met no busy, authentication or cancel stop, had no read error and saw a terminator; every non-blank line was then handed on |
| `Upstream.EndingIff` | auth/auth.go:1391-1517 | an open ends in an error exactly so: by refusal; by its first stopping line, busy before authentication before cancellation; else by the read error; else, if nothing said it was done, by the first failure reported or as truncated |
| `Upstream.DeliveredMeaning` | auth/auth.go:1460-1502 | handed on is every non-blank line before the first stopping one, and that one if only the cancellation stopped it |
| `Upstream.FailsEarlyIff` | auth/auth.go:1391-1502 | in terms of the lines, when an open fails with a given error before anything is handed on |
| `Upstream.OpenStreamAsync` | bridge/bridge.go:180-222 | what one or two opens bring in: a second open only after an authentication or busy error before any line, unless the refresh fails or the back-off is canceled |
| `Upstream.RetriedIff` | bridge/bridge.go:180-222 | a second open happens exactly after an authentication failure before any line unless the refresh fails, or a busy gateway before any line unless the back-off is canceled; it alone then decides |
| `ResponseSpec.AttemptOutput` | bridge/stream.go:25-210 | the output of an attempt comes from one open and, once begun, is concluded exactly once; it is empty only on an error |
| `ResponseSpec.DeliveriesAgreeIff` | bridge/stream.go:25-210 | the agreement of both deliveries on all lines without tool-call frames, stated on the outputs written: reasoning, text, tool calls and finish reason |
| `ResponseSpec.StreamedChunks` | bridge/stream.go:25-115 | the chunks of a streamed response are exactly the accumulator's, with or without an error |
| `ResponseSpec.StreamedEnd` | bridge/stream.go:83-115 | after the chunks: the finish chunk with the reported reason, the usage chunk exactly if asked for and present, the end marker |
| `ResponseSpec.StreamedFailure` | bridge/stream.go:63-82 | after the chunks: the error and nothing else |
| `ResponseSpec.LastUsageMeaning` | bridge/stream.go:45-56 | the last data line with a usage frame names the usage |
| `ResponseSpec.DeltasAreDataLines` | bridge/stream.go:45-56 | the deltas are those of the data lines, one each, in order |
| `ResponseSpec.WritesNothingIff` | bridge/stream.go:31-82 | an attempt writes nothing exactly when it fails and answers in one shot or had nothing to show |
| `ChatHandler.Exchange.HandleStream` | bridge/stream.go:25-115 | writes the streamed output; an error before the first write writes nothing and stays untold, later ones are told in the stream; usage is reported on success only |
| `ChatHandler.Exchange.Relay` | bridge/stream.go:37-61 | the line callback writes every chunk at once and keeps the last usage |
| `ChatHandler.Exchange.WriteClosing` | bridge/stream.go:62-115 | finish chunk, optional usage chunk and terminator, in this order; the sink fires once if there was usage |
| `ChatHandler.Exchange.HandleSync` | bridge/stream.go:117-210 | writes one body on success and nothing on an error |
| `ChatHandler.Exchange.HandleChat` | bridge/chat.go:146-286 | attempt n brings in, writes, reports and fails with exactly what the upstream's script and the preflight give |
| `ChatHandler.Exchange.HandleChatFailover` | main.go:452-483 | cools the failed account down and returns nobody exactly if the budget is spent, the key is unknown or the router finds nobody, and else the router's pick |
| `ChatHandler.Exchange.HandleChatError` | bridge/handler.go:344-435 | tells an untold error by status and leaves a response already concluded alone |
| `ChatHandler.Exchange.Serve` | bridge/handler.go:113-254 | from any router state and for every upstream script the output, the usage reports, the cooldowns, the result and the router afterwards are exactly those of the course of the request |
| `ChatHandler.Exchange.Resolve` | main.go:201-222 | asks the router, unless the key is unknown |
| `ChatHandler.Exchange.OnSuccess` | main.go:216-220 | binds the conversation to the serving account if it has a key |
| `Failover.EveryCourse` | bridge/handler.go:194-253 | the accounts of every course are pairwise distinct, at most 17 and within the retry budget; each attempt is what the script makes of it, with at most two opens, numbered through; another account is tried only after an authentication error before anything was written |
| `Failover.AttemptsFollowScript` | bridge/handler.go:200-253 | attempt i is the script's outcome of the opens that follow those of the attempts before, and all but the last handed over |
| `Failover.AccountsAreDistinct` | main.go:452-483 | no account is tried twice and the budget counts every account tried |
| `Failover.AnsweredOnce` | bridge/stream.go:25-210 | all model output comes from the last open made; there is exactly one conclusion, at the end; an error is told by status before any output or in the stream after it |
| `Failover.UsageNamesServer` | bridge/handler.go:163-193 | usage is reported exactly if the request was served by a stream with a usage frame, once, naming the serving account |
| `Failover.EveryFailureCools` | main.go:107-121 | exactly the accounts that handed over, or were to, are cooled down, each from the time it failed |
| `Failover.CooldownLasts` | main.go:107-121 | a cooldown lasts five minutes from the second of the failure; meanwhile the account is no candidate |
| `Failover.HandsOverIff` | bridge/handler.go:200-215 | in terms of the script, exactly which attempts hand over: credentials refused before the upstream, or by the lines of the last response with nothing shown, within the limit |
| `Failover.NoRouteIff` | main.go:201-222 | there is no attempt exactly when the key is unknown or nobody in the pool is usable, relaxation included |
| `Failover.CourseIsRouted` | main.go:452-483 | every further account is the router's pick with all accounts tried so far left out; the course ends exactly because the last attempt did not hand over, the budget was spent, the key unknown or nobody found |
| `Failover.RequestIsChain` | bridge/handler.go:226-232 | a request changes the router by its decisions, and by a recorded success exactly if it was served and has a key, last and for the serving account |
| `Failover.ServingContinuesHistory` | bridge/handler.go:194-253 | serving one more request continues a history of the router, so the sticky limits hold over all requests served |
| `Codec.SubstitutionInverts` | auth/auth.go:118-139 | the 64 symbols and the pad are mapped one to one between the alphabets |
| `Codec.Tables.constructor` | auth/auth.go:126-139 | the filling loop leaves all four tables right at all 128 codes |
| `Codec.StdRoundTrip` | auth/auth.go:142-142 | RFC 4648 section 4 decoding inverts encoding, padding included |
| `Codec.GroupIsNumber` | auth/auth.go:142-142 | four characters read in base 64 are three bytes read in base 256 |
| `Codec.TailIsNumber` | auth/auth.go:142-142 | the last one or two bytes are followed by zero bits and padded |
| `Codec.EncodingIsNumbers` | auth/auth.go:142-142 | every four characters of the encoding stand for their three bytes, and the last for the rest |
| `Codec.AlphabetsAre` | auth/auth.go:118-119 | both alphabets, character by character |
| `Codec.SwapMeaning` | auth/auth.go:143-148 | equal outer parts around a middle at most two characters longer change places |
| `Codec.SwapInverts` | auth/auth.go:143-148 | exchanging the outer thirds is its own inverse for every length |
| `Codec.EncodedInAlphabet` | auth/auth.go:149-155 | encoded text stays inside the alphabet, so the panic is unreachable |
| `Codec.RoundTrip` | auth/auth.go:141-175 | decoding inverts encoding for every byte sequence |
| `Codec.EncodingIsInjective` | auth/auth.go:141-157 | distinct inputs have distinct encodings |
| `Codec.StdCanonicalIff` | auth/auth.go:174-174 | Base64 text re-encodes to itself exactly when its unused trailing bits are zero |
| `Codec.StdDecodesIff` | auth/auth.go:174-174 | Base64 text decodes exactly when it is groups of four alphabet characters with at most two pads at the end |
| `Codec.DecodesIff` | auth/auth.go:159-175 | gateway text decodes exactly when its characters are in the alphabet and it is well formed after substitution and exchange |
| `Codec.CanonicalIff` | auth/auth.go:159-175 | the same for the gateway's variant |
| `Codec.Rearrange` | auth/auth.go:143-148 | the three copies exchange the thirds |
| `Codec.Encode` | auth/auth.go:141-157 | the table-driven loop computes the specified encoding and never misses a lookup |
| `Codec.Decode` | auth/auth.go:159-175 | the table-driven loop computes the specified decoding, errors included |
| `SingleFlight.CatalogCache.Check` | bridge/session.go:479-504 | one critical section of the waiting loop: serve a fresh catalog, wait, or set the flag and fetch |
| `SingleFlight.CatalogCache.Store` | bridge/session.go:525-538 | publishes the fetched catalog or the default one, stamped after the fetch |
| `SingleFlight.CatalogCache.Clear` | bridge/session.go:505-510 | the deferred end clears the flag and nothing else |
| `SingleFlight.StepKeepsSafe` | bridge/session.go:476-538 | every step keeps: the flag counts the callers in the section, the cache holds the last publication, and only published catalogs are handed out |
| `SingleFlight.AtMostOneFetcher` | bridge/session.go:485-510 | in every interleaving of any number of callers, panics included, at most one is in the section, and the flag is set exactly when one is; every caller that finished got a published catalog |
| `SingleFlight.RunKeepsSafe` | bridge/session.go:529-537 | a stored catalog is never lost |
| `SingleFlight.ServedIsLatest` | bridge/session.go:479-500 | a caller leaves without fetching exactly when the last publication is fresh by its reading of the clock, and gets that one |
| `SingleFlight.LookMeaning` | bridge/session.go:477-504 | a caller leaves with a catalog younger than ten minutes, else waits if a fetch is under way, else fetches; nobody else is affected |
| `SingleFlight.PublishMeaning` | bridge/session.go:525-538 | what was fetched, or the default catalog, is published and handed to the caller, stamped after the fetch |
| `SingleFlight.ComingAndGoing` | bridge/session.go:477-510 | the clock is read on arrival; leaving the section, orderly or by a panic, clears the flag and touches nothing published |
| `SingleFlight.FetchesAreSpaced` | bridge/session.go:476-538 | with a clock that never goes back, publications are a full time-to-live apart in every interleaving |
| `SingleFlight.EveryoneCanFinish` | bridge/session.go:485-510 | from every reachable state some schedule gives every caller that did not panic its catalog |
| `AdmissionGate.SlotsFor` | bridge/bridge.go:161-169 | the number of slots is between 1 and 32, and the configured one when that is in range |
| `AdmissionGate.StepKeepsAccounted` | bridge/chat.go:260-275 | every step keeps: tokens count the slot holders, within the capacity, and the counter counts those exchanging |
| `AdmissionGate.NeverOverbooked` | bridge/chat.go:260-275 | in every interleaving 0 <= counter <= slots <= capacity, the difference is the number of requests in between, and both return to 0 |
| `AdmissionGate.SlotsGoToWhoAsks` | bridge/chat.go:263-272 | a request gets a slot exactly if one is free when it asks; a canceled one changes nothing else |
| `AdmissionGate.FreeMeansFreeSlotIff` | routing.go:132-142 | a free slot always shows as free, and the counter test is exact when no request is in between |
| `AdmissionGate.FullCanLookFree` | routing.go:132-142 | for every capacity a reachable state has all slots taken while the counter is still 0 |
| `AdmissionGate.EveryoneCanBeServed` | bridge/chat.go:260-275 | no slot is lost: from every reachable state some schedule serves every request not cancelled |
| `LogRing.NormalizeRetention` | logs/logs.go:256-264 | retention is between 1 and 3650 days, and the configured one when in range |
| `LogRing.NormalizeMaxEntries` | logs/logs.go:267-278 | the cap is between 100 and 100000, and the configured one when in range |
| `LogRing.Recorder.constructor` | logs/logs.go:89-113 | restored entries are pruned once, and the next identifier exceeds every restored one |
| `LogRing.Recorder.Record` | logs/logs.go:117-131 | assigns identifier and missing time, appends and prunes |
| `LogRing.RecordedAsGiven` | logs/logs.go:117-131 | an entry is recorded under the next identifier, at its own time or the clock, and otherwise as given |
| `LogRing.Recorder.SetLimits` | logs/logs.go:135-145 | normalizes the limits and prunes at once, dirty exactly when entries went |
| `LogRing.Recorder.PruneLocked` | logs/logs.go:237-252 | the scan and the two shifts compute one-shot pruning |
| `LogRing.PrunedMeaning` | logs/logs.go:237-252 | in a chronological log exactly the entries young enough and among the newest the cap allows are kept |
| `LogRing.RetainedIsHistoryFromGone` | logs/logs.go:117-145 | for any times, any clock and any change of limits the log is its history without the entries gone: each pruning scans on from where the one before left off |
| `LogRing.OneShotIff` | logs/logs.go:233-252 | for any times, clock and limits the log equals pruning the whole history once exactly when what was gone before is past the retention anyway, or the cap takes what the scan skipped |
| `LogRing.GoneIsDeepestCut` | logs/logs.go:233-252 | in a chronological history what is gone is the deepest cut ever made |
| `LogRing.ChronologicalOneShotIff` | logs/logs.go:233-252 | so there the two agree exactly when no earlier pruning cut deeper |
| `LogRing.IncrementalIsOneShot` | logs/logs.go:233-252 | which is so whenever the clock never goes back and limits are never relaxed |
| `LogRing.ClockSetBackDiverges` | logs/logs.go:126-130 | from an empty log, with any limits, a clock set back after the first entry makes incremental pruning keep one entry where one-shot pruning keeps a full log |
| `LogRing.IdsIncrease` | logs/logs.go:117-131 | identifiers increase strictly along everything ever logged and are never reused |
| `LogRing.ContainsFold` | logs/logs.go:281-294 | finds exactly the ASCII-case-insensitive substrings |
| `LogRing.EqualFold` | logs/logs.go:298-315 | compares up to ASCII case |
| `LogRing.Recorder.Query` | logs/logs.go:157-200 | the reverse scan and the page bounds give the specified page, with defaults for page and size |
| `LogRing.NewestFirstMembers` | logs/logs.go:166-183 | the scan keeps exactly the entries that pass every filter |
| `LogRing.PagesArePrefix` | logs/logs.go:185-194 | the first n pages are the first n * size matches |
| `LogRing.PagesListEveryMatchOnce` | logs/logs.go:157-200 | the pages together list every match once, newest first, at most a page size each, with empty pages after |

## Left out

- JSON decoding and `normalizeToolCalls` are an arbitrary function (`Decoder`); SSE text, HTTP headers and JSON printing are not modelled, chunks and bodies are values.
- The verdicts of the line tests (done, finish, error, busy and authentication lines) are given with each line; their string matching is not modelled.
- Sessions, tokens, signing and token refresh: the model sees only whether a refresh fails.
- The wall clock, the idle watchdog and timers: clocks are parameters, an idle cut is one of the read errors.
- Daylight-saving zones enter only as an arbitrary zone function, so the no-advance exit is covered; calendar facts are for fixed offsets.
- Credits are reals, without rounding; instants and counters do not wrap at 64 bits, and a page number so large that its offset would wrap is not modelled.
- A tool-call index is an integer or absent; fractional indices are truncated before, NaN is not modelled.
- The sticky key is a parameter instead of a hash of its parts.
- `Router.Router.Pick`: one decision reads accounts, snapshots and bridges at one instant and is one atomic step. The program reads the cursor and writes it back in separate critical sections, so two requests at once can read the same cursor; concurrent rotations are not modelled.
- `Router.Router.Rotate`: accounts that share an ID are sorted in some fixed order, where the program's sort may choose either of them.
- `CursorRotation.NoStarvation`: for non-empty IDs, because it is false otherwise; `CursorRotation.NobodyStarvesIff` is the exact condition.
- `RouterSpec.RouterNeverStarves`: for plain calls only, because mixed calls can starve a candidate; weighted calls have a bound of their own, and `Starvation.CanStarveIff` is the exact condition for mixed ones.
- The order in which `pruneSticky` visits the map when the table is still full is an arbitrary choice.
- `ChatHandler.Exchange.Relay`: the lines of an open are read first and relayed afterwards; the callback cannot influence the reading, so the outputs are the same, but the interleaving of writes and reads is not modelled, nor is a failing client connection.
- `ChatHandler.Exchange.HandleChatError`: carries the error and not the status code it is mapped to; that mapping is a table.
- `ChatHandler.Exchange.Serve`: two requests served at once are not interleaved; creating the bridge of a picked account always succeeds.
- `AdmissionGate.NeverOverbooked`: the channel is its number of tokens and the counter an integer, on values rather than as objects; queued requests may be admitted in any order, which covers the first-in first-out order of a channel.
- `SingleFlight.EveryoneCanFinish`: says that a finishing schedule exists, not that an unfair scheduler finds it; a waiting caller may sleep through any number of fetches.
- `StatsRecorder.Recorder.RecordUsage`: the hour of an event is a parameter, and the removal of old hourly rows when the data is persisted is not modelled, so hourly sums are over all rows ever written.
- `LogRing.Recorder.constructor`: persisted entries are a parameter; loading and flushing them are not modelled, and the metadata fields of an entry that no filter reads are dropped. A nil entry, which is ignored, has no counterpart.
- Normalisation of the stored configuration: a sticky limit of at least 1 and a retry budget of at least 1 are given.
- The guard that compares the token again before account data is written, admin pages, check-in, configuration files, login back-off and the parsing of the model list.
