# llm-pico: a verified model of the proxy core

llm-pico is an LLM proxy: it takes OpenAI-shaped requests, picks a provider slot, reserves quota, calls the provider
and translates requests and replies between the OpenAI shape and the native Anthropic and Gemini shapes. This project
models the stateful and the transforming parts of it in Dafny and proves what they keep, over every input, every run
and, for the limiter, every interleaving.

| part | files |
|---|---|
| multi-window rate limiter | `Windows`, `Cells`, `Charges`, `LimiterRuns`, `Limiter`, `LimiterProtocol`, `LimiterDecisions`, `Headers` |
| router health machine | `Breaker`, `KeyPool`, `Group`, `Router`, `Resolution` |
| dispatch walk and its accounting | `Slots`, `Errors`, `Walk`, `WalkTrace`, `SharedWalk`, `RouterTrace`, `Dispatch`, `Retries`, `Settlement`, `Selection`, `Estimate`, `Media` |
| request translation | `Turns`, `Chat`, `AnthropicRequest`, `AnthropicRequestLaws`, `AnthropicResults`, `GeminiRequest`, `MessageCuts`, `Meaning` |
| reply translation, buffered and streamed | `Sse`, `Chunks`, `AnthropicStream`, `AnthropicStreamLaws`, `GeminiStream`, `ReplyMeaning`, `StreamBills` |

How the model is built:

- **Limiter.** `Cells` gives every operation as a function on one flat map from (key, model, slot, level, window) to
  (bucket, count). `Limiter` is the class with 64 shards, the reservation loop, the pending list and the purge; each
  method is proved to be the function of `Cells` on its abstract value. `LimiterProtocol` takes the same locked sections
  apart: any number of requests and purge sweeps interleave between any two of them, and a ledger of charges says what
  each counter must hold. `AloneIsSequential` ties the two together. Time is an integer number of nanoseconds and a
  bucket label is the time divided by the window's period, which is what the UTC minute and day labels distinguish.
- **Router.** The breaker, the key pool, the group and the router are classes with the fields of the source. Their runs
  are sequences of arbitrary events, and the theorems speak about every run. The clock is a parameter of each call.
- **Dispatch.** The upstream, the router's answers, the clock and the caller's patience are four arbitrary functions
  (`Walks.Env`), so every theorem holds for every behaviour of the outside world. `Service` runs the walk over the real
  limiter class and is proved equal to the functions of `Walk`. `SharedWalk` runs the same walk on the limiter protocol, with
  arbitrary events of other requests before each of its own.
- **Translators.** They start from decoded messages, parts, events and frames. New random ids come from an arbitrary
  supply.

- **Outside in.** The methods are proved equal to functions, and the theorems about runs are stated with those functions.
  So that none of them rests on a function nobody else describes, `Charges`, `Retries`, `Settlement`, `Selection`,
  `Resolution`, `Meaning`, `ReplyMeaning` and `StreamBills` state what comes out in the fields of what goes in: costs and
  windows, replies and statuses, slots, tables of the router, messages, parts and token counts.

What the model shows about the code, besides what one would hope for:

- A reservation is all-or-nothing on its own. Under interleaving a request is turned away exactly when start value, firm
  charges, undecided charges of others and its own amount exceed a limit (`TurnedAwayIff`); so it can be rejected for
  charges that are about to be rolled back (`TurnedAwayNeedlesslyIff`, with a run in `InterleavingMayRejectWhatFits`), and
  is not when no other request of its cell is undecided.
- A refund uses the bucket current at its own time. When the window has rolled over since the reservation, it takes the
  charge off requests of the new bucket, whose count then falls short of its live charges by up to the refunded charge
  (`LateRefundFallsShort`), and one more request than the limit allows is admitted (`LateRefundAdmitsTooMany`).
- A slot that is abandoned because a later resolve fails keeps its charge (proxy.go:500-514), unlike the exits at
  proxy.go:553 and proxy.go:574. `KeptIffLeftMidway` says exactly when, `FailedWalkLeavesNoTraceIff` when that shows on the
  counters, `NeverMidwayKeepsNothing` how to rule it out beforehand, and `RateLimitedSingleKeyKeepsCharge` gives the
  everyday run: one key, one 429, one retry.
- A half-open breaker whose probe is answered by anything but a success or a server error stays closed to everyone
  (`ProbeSeatStaysTaken`, `SeatIsFreedIff`); `HealthyGroupWedges` is a run that gets there.
- Two requests under way on one credential can shorten its 365-day quarantine to ten seconds
  (`OverlapShortensQuarantine`). The quarantine stands exactly when the last outcome that sets the cooldown is again a 401,
  402 or 403 (`QuarantineStandsIff`), and always when each request is followed by its outcome.
- The Anthropic stream and the buffered reply disagree for a reply with an empty id, a role other than assistant, no stop
  reason, or a tool call with an empty id or empty or null input, and agree otherwise (`StreamMatchesReply`). The Gemini
  ones disagree on the finish reason when none arrives or when a plain stop precedes the first call
  (`StreamMatchesJoined`).
- A tool result without an id is sent to Anthropic under the id last recorded for its function name anywhere in the
  conversation, so a later call of the same function takes it and leaves it in front of its tool_use
  (`LaterCallTakesTheResult`; exactly when is `NamedResultFollowsUseIff`).
- A settlement clamps a count at zero only on a token window without a limit (`CutAtZeroIff`).
- The reported remainder predicts admission exactly unless a window is over its limit and the request asks nothing of it
  (`RemainingPredictsAdmission`). Under unchanged limits only the token windows are ever over, and every dispatched request
  asks at least one token, so the prediction is exact (`ReportsPredictAfterAnyRun`); a limit lowered by a reload is what
  makes a report mislead (`LoweredLimitMisleads`).

Where the source's comments and its code disagree, the model follows the code:

- ratelimit.go:183-188 says validation and commit of a cell hold one lock; the loop at ratelimit.go:257-281 locks once
  per window.
- The comment at proxy.go:572-573 says that a slot whose every attempt failed releases its reservation; the exit at
  proxy.go:500-514 does not on a later try.
- The quota error type is described as terminal (proxy.go:173-174), but the walk goes on past it (proxy.go:259-264).
- The comment at anthropic.go:429-432 speaks of a caller that set its own breakpoints; `convertContentParts`
  (anthropic.go:518-567) drops them, so a translated request starts with none (`TranslatedBreakpoints`).

## Model

| member | source | states |
|---|---|---|
| Windows.AudioMinutesRoundUp | internal/ratelimit/ratelimit.go:86-101 | audio minutes are charged as the least whole number of minutes covering the seconds |
| Windows.PiecesCostTheirSum | internal/ratelimit/ratelimit.go:86-101 | sending a request in two pieces costs one request more, at most one audio minute more, and the same tokens, characters and seconds |
| Windows.LabelConstantUntilWindowEnd | internal/ratelimit/ratelimit.go:208-227 | a later time has the same bucket label exactly when it lies before `WindowEnd`, and the window end is at most one period away |
| Windows.HintOutlastsDelay | internal/proxy/proxy.go:657-661 | the whole-second Retry-After hint outlasts the delay by at most one second |
| Windows.HintReachesNextBucket | internal/proxy/proxy.go:657-661 | waiting the hint of a rejection puts the clock into a later bucket of the rejecting window |
| Cells.ReserveAllOrNothing | internal/ratelimit/ratelimit.go:253-283 | a reservation succeeds exactly when every window fits; success raises each constrained window by its amount and nothing else, rejection names the first failing window in check order and changes no reading |
| Cells.RollbackReadings | internal/ratelimit/ratelimit.go:285-295 | rolling back takes exactly the staged charges off, window by window |
| Cells.RefundReadings | internal/ratelimit/ratelimit.go:299-313 | a refund lowers each constrained window of the cell by its charge, clamped at zero, and touches no other cell |
| Cells.RefundUndoesReserve | internal/ratelimit/ratelimit.go:299-313 | when nothing else ran in between, a refund at any time from the reservation on, even in a later bucket, restores every reading as if nothing had been reserved |
| Cells.RefundWithoutChargeHarmlessIff | internal/ratelimit/ratelimit.go:299-313 | refunding what was never charged is harmless exactly when each charge or each count is zero |
| Cells.RefundShortfall | internal/ratelimit/ratelimit.go:299-313 | a refund lowers a reading by the smaller of the reading and its charge, whoever the reading belongs to |
| Cells.LateRefundFallsShort | internal/ratelimit/ratelimit.go:299-313 | when the window rolled over before the refund, the count falls below the live charge of a request of the new bucket by the smaller of the two charges |
| Cells.LateRefundAdmitsTooMany | internal/ratelimit/ratelimit.go:299-313 | the run: one request a minute allowed, the first is refunded in the minute of the second, and a third is admitted beside the second |
| Cells.ReconcileReadings | internal/ratelimit/ratelimit.go:318-333 | reconciling moves both token windows by actual minus reserved, clamped at zero, and nothing else |
| Cells.SettleReplacesTokens | internal/ratelimit/ratelimit.go:318-333 | reserving and then reconciling leaves the actual tokens in place of the reserved ones on every constrained window still in its bucket; unconstrained or rolled-over token windows move by the clamped difference, all others keep their reading |
| Cells.UnconstrainedSettlementIsCut | internal/ratelimit/ratelimit.go:318-333 | without a token limit, settling ten reserved tokens at four leaves an empty count at zero |
| Cells.LaterReading | internal/ratelimit/ratelimit.go:336-346 | a later reading is the present one or, after the bucket rolled over, zero |
| Charges.AdmittedIff | internal/ratelimit/ratelimit.go:86-101 | a request is admitted exactly when each limited window has room for one request, its tokens, its characters, its seconds, or the minutes covering them; each then counts just that, and nothing else moves |
| Charges.FirstAdmittedIff | internal/ratelimit/ratelimit.go:253-283 | into a fresh cell with one limit a request is admitted exactly when 1, its tokens, characters or seconds do not exceed it, or 60 times it covers the seconds; the reading is then that number |
| Charges.ForgottenWithItsSpan | internal/ratelimit/ratelimit.go:208-216 | RPM, TPM and CPM counts are forgotten with the minute of 60,000,000,000 ns, all others with the day of 86,400 s, and none earlier |
| Charges.DelayEndsTheSpan | internal/ratelimit/ratelimit.go:219-227 | the delay of a rejection ends at the next full minute or day |
| Charges.PurgeKeepsThePresent | internal/ratelimit/ratelimit.go:350-361 | a purge keeps exactly the counters of the present minute or day, unchanged |
| LimiterRuns.PurgesAreInvisible | internal/ratelimit/ratelimit.go:350-361 | under a clock that does not go back, removing all purges from a run changes no answer and no later reading |
| LimiterRuns.HintFreesRejectingWindow | internal/ratelimit/ratelimit.go:253-283 | after waiting the hint the rejecting window reads zero and fits any amount within its limit |
| Limiters.ShardOf | internal/ratelimit/ratelimit.go:189-205 | a shard index below 64, computed from the cell alone |
| Limiters.Limiter.constructor | internal/ratelimit/ratelimit.go:145-157 | a new limiter holds no counter |
| Limiters.Limiter.CounterFor | internal/ratelimit/ratelimit.go:231-239 | finds or resets the counter of the current bucket, returns its reading and leaves other shards alone |
| Limiters.Limiter.CheckAndReserve | internal/ratelimit/ratelimit.go:253-283 | the staged loop over the sharded store is `Reserve` on the flat map, which `Charges.AdmittedIff` describes in the fields of the costs, and touches one shard |
| Limiters.Limiter.RollbackCharges | internal/ratelimit/ratelimit.go:285-295 | the rollback loop is `Rollback` on the flat map |
| Limiters.Limiter.RefundReservation | internal/ratelimit/ratelimit.go:299-313 | the refund loop is `Refund` on the flat map |
| Limiters.Limiter.ReconcileTokens | internal/ratelimit/ratelimit.go:318-333 | the reconciliation is `Reconcile` on the flat map |
| Limiters.Limiter.Usage | internal/ratelimit/ratelimit.go:336-346 | reads the count of the current bucket, zero when there is none |
| Limiters.Limiter.PurgeStale | internal/ratelimit/ratelimit.go:350-361 | exactly the counters of the current buckets remain, unchanged |
| LimiterProtocol.AloneIsSequential | internal/ratelimit/ratelimit.go:253-333 | the locked sections of one request run back to back are the sequential reserve, refund and reconcile |
| LimiterProtocol.SweepsPurge | internal/ratelimit/ratelimit.go:350-361 | sweeping every counter, one locked step each, is the purge of the whole store |
| LimiterProtocol.Conservation | internal/ratelimit/ratelimit.go:253-333 | for each window by itself: after any interleaving in one bucket of it, every constrained count is its start value plus staged charges, live reservations and settled actuals |
| LimiterProtocol.ClampsNeverFire | internal/ratelimit/ratelimit.go:285-333 | for each window by itself: in one bucket of it no locked section of any interleaving has to clamp a count the window constrains at zero |
| LimiterProtocol.CutAtZeroIff | internal/ratelimit/ratelimit.go:285-333 | in one bucket of a window a count of it is cut at zero exactly when a settlement moves an unconstrained token window whose reading plus actual minus reserved is negative |
| LimiterProtocol.RejectionsAndRefundsLeaveNoTrace | internal/ratelimit/ratelimit.go:253-313 | for each window by itself: once all requests are rejected or refunded every constrained count of it is back at its start value |
| LimiterProtocol.CeilingsHold | internal/ratelimit/ratelimit.go:253-333 | for any interleaving and any clocks a count exceeds its limit by at most the overruns settled in its own bucket, not at all without those, and never on a window that is not a token window |
| LimiterProtocol.RunIsTimely | internal/ratelimit/ratelimit.go:231-239 | a run whose clock readings lie in the past leaves no counter of a bucket that has not begun and none below zero |
| LimiterDecisions.TurnedAwayIff | internal/ratelimit/ratelimit.go:257-281 | in one bucket of a window a check turns a request away exactly when start value, firm charges, undecided charges of others and its own amount exceed the limit |
| LimiterDecisions.TurnedAwayNeedlesslyIff | internal/ratelimit/ratelimit.go:257-281 | a request that would fit among the firm charges is turned away exactly when undecided charges of others fill the room left for it |
| LimiterDecisions.AloneUndecidedIsFair | internal/ratelimit/ratelimit.go:257-281 | with no other request of the cell undecided, a check turns away exactly what does not fit among the firm charges |
| LimiterDecisions.QuietCellDecidesAsReserve | internal/ratelimit/ratelimit.go:253-283 | a reservation whose cell nobody else touches is decided as the sequential one, whatever runs on other cells between its locked sections |
| LimiterDecisions.InterleavingMayRejectWhatFits | internal/ratelimit/ratelimit.go:257-281 | a concrete run that rejects a request which fits both before and after the other one |
| Headers.RateLimitHeaders | internal/httpx/headers.go:33-55 | every constrained window and no other is reported, with its limit, remaining amount and reset time |
| Headers.RemainingDecidesWindowIff | internal/httpx/headers.go:33-55 | comparing the amount with `Remaining` decides the window exactly when used does not exceed the limit or the amount is positive |
| Headers.RemainingPredictsAdmission | internal/httpx/headers.go:33-55 | in the buckets of the constrained windows, a request is admitted exactly when it is within the report and asks something of every window that is over its limit |
| Headers.ReportsPredictAfterAnyRun | internal/httpx/headers.go:33-55 | under unchanged limits, after any interleaved run, token overruns included, a request of at least one token is admitted exactly when it is within the report |
| Headers.LoweredLimitMisleads | internal/httpx/headers.go:33-55 | after a character limit was lowered below its count, a request within the report is refused |
| Breakers.Breaker.RecordFailure | internal/router/router.go:75-88 | counts the failure and opens at the threshold or from half-open |
| Breakers.Breaker.RecordSuccess | internal/router/router.go:90-97 | closes the breaker and clears its counters |
| Breakers.Breaker.Allows | internal/router/router.go:102-124 | admits when closed, once after the recovery timeout when open, and never while the half-open seat is taken |
| Breakers.SeatTakenIffHalfOpen | internal/router/router.go:75-124 | in every run the seat is taken exactly when half-open, and closed means fewer errors than max(1, threshold) |
| Breakers.OpenedByFailure | internal/router/router.go:75-88 | an open breaker was opened by a recorded failure and has been open since |
| Breakers.ProbesAreSpacedOut | internal/router/router.go:102-124 | between two half-open grants lies a failure, and the later grant comes at least the recovery timeout after it |
| Breakers.OpenAdmitsNothing | internal/router/router.go:102-124 | after an opening failure and without a success nothing is admitted before the recovery timeout |
| Breakers.HalfOpenWaitsForOutcome | internal/router/router.go:111-121 | a half-open breaker does not change and admits nothing until an outcome is recorded, however long that takes |
| Breakers.OutcomeFreesSeat | internal/router/router.go:75-124 | after an outcome in half-open the next ask is admitted exactly when it was a success or the timeout has passed |
| Breakers.OpensAtThreshold | internal/router/router.go:75-88 | failures alone open a healthy breaker exactly at the threshold, each is counted, and the last one sets the opening time |
| Breakers.FailedProbeReopens | internal/router/router.go:75-88 | a failed probe reopens at once, with its seat given back |
| KeyPools.EligibleIff | internal/router/router.go:206-219 | a credential is eligible exactly when some entry holding it is outside its cooldown |
| KeyPools.PickIsOutsideCooldown | internal/router/router.go:202-234 | a picked credential is outside its cooldown |
| KeyPools.PickFailsIff | internal/router/router.go:202-234 | picking fails exactly when all credentials cool down, and then reports the earliest end of a cooldown |
| KeyPools.CooldownHintSuffices | internal/router/router.go:441-447 | waiting the hint of a cooldown error with no new failure makes the next pick succeed |
| KeyPools.PicksAreCyclic | internal/router/router.go:220-234 | the j-th pick is the j-th eligible credential after the starting point, cyclically |
| KeyPools.OneTurn | internal/router/router.go:220-234 | a whole turn lists the eligible credentials rotated to the starting point and ends where it began |
| KeyPools.RotationIsFair | internal/router/router.go:202-234 | k turns of n picks hand out each of n distinct eligible credentials exactly k times, from any last key |
| KeyPools.PicksAtRotate | internal/router/router.go:202-234 | with an unchanged eligible list, picks at any times follow the rotation |
| KeyPools.BackoffHardens | internal/router/router.go:260-269 | the first three 429s in a row cool a credential down for ten seconds each, every further one for thirty |
| Groups.Group.PickKey | internal/router/router.go:202-234 | the scan and rotation return the specified credential and earliest end, and remember the credential |
| Groups.Group.RecordSuccess | internal/router/router.go:236-250 | clears fails and breaker and nothing else |
| Groups.Group.RecordFailure | internal/router/router.go:252-283 | penalises the one credential by status and feeds the breaker only with server errors |
| Groups.QuarantineHolds | internal/router/router.go:252-283 | a credential is not handed out again before its last penalty is over: 365 days while that is a 401, 402 or 403, at least ten seconds when it is a 429 |
| Groups.QuarantineStandsIff | internal/router/router.go:252-283 | until its last thirty seconds a quarantine stands exactly when the last outcome that sets the credential's cooldown is a 401, 402 or 403 |
| Groups.CredentialsAreSeparate | internal/router/router.go:236-283 | in every run each credential evolves by its own outcomes and the successes alone |
| Groups.LastPenaltyDecides | internal/router/router.go:259-283 | the end of a cooldown is set by the last 401, 402, 403 or 429 of the credential, whatever came before |
| Groups.QuarantineHoldsWhenPaired | internal/router/router.go:252-283 | when each request is followed by its outcome a 401, 402 or 403 credential is not handed out for 365 days |
| Groups.OverlapShortensQuarantine | internal/router/router.go:252-283 | a concrete run with two overlapping requests that hands a rejected credential out again after ten seconds |
| Groups.HandedOutsideCooldown | internal/router/router.go:429-457 | in every run a credential handed out is outside its cooldown |
| Groups.ProbeSeatStaysTaken | internal/router/router.go:252-283 | as long as only non-server outcomes and new requests arrive, a half-open group refuses every request |
| Groups.SeatIsFreedIff | internal/router/router.go:102-124 | a half-open group with its seat taken answers again exactly after a success, or after a server error once the recovery timeout has passed |
| Groups.HealthyGroupWedges | internal/router/router.go:252-283 | the run from a healthy group: a 500, then a probe answered 429, then refusals however long one waits |
| Routers.ChooseGroup | internal/router/router.go:434-437 | the first group of the model that answers to the slot name |
| Routers.Router.constructor | internal/router/router.go:311-355 | a router over distinct groups starts with no failed or cooling model |
| Routers.Router.ResolveSlot | internal/router/router.go:429-457 | the method over the mutable groups is `Resolve` on their values, which `Resolutions.ResolvesAs` reads off the tables |
| Routers.Router.Success | internal/router/router.go:472-477 | credits the group of the target and clears the model's failures |
| Routers.Router.Failure | internal/router/router.go:480-494 | penalises the group of the target and the entry holding its credential |
| Routers.Router.ModelFailure | internal/router/router.go:505-512 | counts a failed walk and starts the cooldown at the second |
| Routers.Router.IsCoolingDown | internal/router/router.go:521-535 | tells whether the model cools down and clears an elapsed cooldown |
| Routers.Router.Find | internal/router/router.go:537-553 | the first group matching slot, slug, base and model, else the first legacy match |
| Routers.OutcomeFindsItsGroup | internal/router/router.go:429-553 | the outcome of a resolved target lands on the very group and credential it came from, even with repeated provider names |
| Routers.OutcomeFindsItsGroupLater | internal/router/router.go:429-553 | the same after any further run of resolves and outcomes of any model |
| Routers.OutcomeFindsItsGroupInRuns | internal/router/router.go:429-553 | the same for a target resolved at any point of a run |
| Routers.RunKeepsShape | internal/router/router.go:429-553 | no run adds, removes, renames or reorders a group or a credential |
| Routers.ShadowedGroupNeverServes | internal/router/router.go:434-456 | a group behind another that answers to the same name is never touched through that name |
| Routers.CooldownNeedsTwoLosses | internal/router/router.go:505-519 | a model cools down only after two failed walks with no success between, counted from the latest |
| Routers.CooldownLasts | internal/router/router.go:505-535 | after a second failed walk the model stays cooling for the whole window unless a success is recorded, and every slot of it resolves to not found |
| Resolutions.ResolvesAs | internal/router/router.go:429-457 | the answer read off the tables: not found while the model rests or under an unknown name; else what the first group under the name has to give: a free credential with that group's slot, provider, endpoint and model, the time until one is free, or nothing |
| Resolutions.ResolvedIff | internal/router/router.go:429-457 | a slot resolves exactly when no cooldown of the model runs, some group has the name, the first such group's breaker admits and one of its credentials is outside its cooldown |
| Resolutions.RestingModelIsNotFound | internal/router/router.go:429-535 | after the second failed walk in a row every resolve of the model answers not found until the window is over, whatever else is resolved or recorded meanwhile, unless one of its calls succeeds |
| Resolutions.RestIsOver | internal/router/router.go:521-535 | once the window is over the model resolves as if it had never failed |
| Resolutions.FoundIffBelongs | internal/router/router.go:537-553 | an outcome is recorded at the first group with its slot and provider, and only without any such at the first with its provider and endpoint |
| Resolutions.OutcomesInTables | internal/router/router.go:472-519 | what a success, a failure and a failed walk change in the tables, and that nothing else moves |
| Slots.KeepIsOrdered | internal/proxy/proxy.go:338-378 | filtering returns exactly the satisfying slots, each once and in declared order |
| Slots.KindSlots | internal/proxy/proxy.go:338-359 | the slots of the model whose kind serves the route |
| Slots.MediaSlots | internal/proxy/proxy.go:293-334 | the media gate passes exactly the accepting slots, or refuses and names exactly the kinds no slot supports, or says that no slot supports them together |
| Slots.SlotsWithinContext | internal/proxy/proxy.go:364-378 | keeps the slots whose effective context holds the estimate |
| Slots.Budget | internal/proxy/proxy.go:223-233 | the smallest positive attempt budget of the slots, zero when none declares one |
| Slots.EstimateTokens | internal/proxy/proxy.go:403-409 | the charged estimate is at least one and at least prompt plus completion |
| Walks.RequestOf | internal/proxy/proxy.go:613-623 | the request that is walked costs at least one token and at least prompt plus completion |
| Errors.StopsWalkIff | internal/proxy/proxy.go:963-1063 | a reply stops the walk exactly when it is a 4xx other than 429 or the caller's missing file; everything else is retried |
| Walks.SlotAccounting | internal/proxy/proxy.go:483-580 | for any upstream, the counters after one slot read as if only its outcome's charge had happened: served with actual tokens, streaming or kept with the full charge, otherwise untouched |
| Walks.SlotIsOrderly | internal/proxy/proxy.go:483-580 | at most max(1, retries + 1) calls, all to this slot, within the budget, none after a decisive reply; a charge is kept without service exactly when a resolve failed after a call, which takes a second try |
| Walks.StopsIffDecisive | internal/proxy/proxy.go:241-271 | a visit stops the walk exactly when its last call was decisive |
| Walks.WalkIsOrderly | internal/proxy/proxy.go:206-271 | slots are visited in declared order, the attempt budget holds, the first decisive reply is the last call of all, and the walk ends early for no other reason |
| Walks.WalkAccounting | internal/proxy/proxy.go:206-285 | the counters after a whole walk read as the slots' outcomes applied one after another |
| Walks.WalkLedger | internal/proxy/proxy.go:188-285 | for each window by itself: in one bucket of it every constrained count grows by exactly the contributions of the visited slots |
| WalkTraces.KeptIffLeftMidway | internal/proxy/proxy.go:496-514 | a slot keeps an unserved charge exactly when a call was made on it and the resolve for the next try failed, and only if it has a second try |
| WalkTraces.FailedWalkLedger | internal/proxy/proxy.go:234-285 | after a failed walk, in whatever buckets, every reading is what it was plus the charges of slots left midway that are still in their bucket |
| WalkTraces.FailedWalkLeavesNoTraceIff | internal/proxy/proxy.go:234-285 | a failed walk changes no reading exactly when no slot was left midway with a charge that still counts |
| WalkTraces.WalkTraceIff | internal/proxy/proxy.go:188-285 | in one bucket of a window a count is unchanged exactly when no visit contributes to it, and grows by the last visit's share alone exactly when no earlier slot was left midway with a charge on it |
| WalkTraces.NeverMidwayKeepsNothing | internal/proxy/proxy.go:483-580 | when no slot is tried twice, or no resolve fails, no charge is kept |
| WalkTraces.DispatchAccounting | internal/proxy/proxy.go:188-285 | in that case a failed walk changes no reading and a served walk leaves the one serving slot's charge and nothing else |
| SharedWalks.WalksTakeOwnReservations | internal/proxy/proxy.go:613-654 | a walk holds and settles only reservations of its own slots for its own costs |
| SharedWalks.OperationLands | internal/proxy/proxy.go:613-682 | among others, one reserve, refund or settlement takes its request from rest to rest and leaves the walk's other requests alone |
| SharedWalks.SharedWalkArrives | internal/proxy/proxy.go:188-285 | the walk whose locked sections are interleaved with any events of others: every visit ends its request where its outcome says, with a reservation of its own, and the log of all events explains the state |
| SharedWalks.SharedSlotIsOrderly | internal/proxy/proxy.go:483-580 | among others too, at most max(1, retries + 1) calls on a slot, within the budget, none after a decisive reply, and a charge kept exactly when left midway |
| SharedWalks.SharedWalkIsOrderly | internal/proxy/proxy.go:206-271 | among others too, the slots are visited in declared order and the first decisive reply is the last call of all |
| SharedWalks.WalkUnderInterference | internal/proxy/proxy.go:188-285 | whatever others run between the walk's locked sections and after them, in one bucket of a window a constrained count is its start value, what the others owe and exactly the contributions of the visited slots |
| SharedWalks.StreamClosesAmong | internal/proxy/proxy.go:697-718 | among others, a stream is settled or refunded as one more operation of its request |
| SharedWalks.SharedWalkAloneIsWalk | internal/proxy/proxy.go:188-285 | with nobody else about, the interleaved walk is the sequential one: same visits, calls, outcomes and counters |
| RouterTraces.SlotCallsWhatItResolves | internal/proxy/proxy.go:496-545 | each call goes to the target of its own resolve, and at most one resolve has no call: the one that fails or whose slot the limiter turns away |
| RouterTraces.CallsLeaveTheirRun | internal/proxy/proxy.go:500-558 | what a visit's calls leave of the router is the run of their resolves and records |
| RouterTraces.CallsArePaired | internal/proxy/proxy.go:500-558 | every call is served by the group its slot name chooses and recorded there right after, with its status |
| RouterTraces.VisitIsPaired | internal/proxy/proxy.go:483-580 | a visit keeps its group paired, so that a quarantine stands its whole year for a service that works on one request at a time |
| RouterTraces.PairedAppend | internal/router/router.go:236-283 | paired runs one after another are paired |
| RouterTraces.TurnedAwayKeepsTheSeat | internal/proxy/proxy.go:523-527 | a slot the limiter turns away records no outcome, and a probe's seat it was granted stays taken |
| Dispatcher.Service.AttemptSlot | internal/proxy/proxy.go:483-580 | the retry loop over the real limiter is `Attempt`: same calls, same outcome, same counters; the router is told of each call exactly once, with its status, and of nothing else |
| Dispatcher.Service.SendOnce | internal/proxy/proxy.go:522-574 | one upstream call with the settlement, refund or backoff that follows its reply, and its record for the router; what is settled is `Settlements.ServedSlotIsBilled` |
| Dispatcher.Service.Dispatch | internal/proxy/proxy.go:188-285 | exactly one of: not supported when no slot serves, a refusal of the media gate with its reason when none accepts, too long when none has room, each without touching a counter; otherwise, and exactly when a slot is eligible, the walk over the eligible slots with the answer of its last visit |
| Dispatcher.Service.WalkSlots | internal/proxy/proxy.go:235-285 | the walk loop over the real limiter is `Walk`, with the response built from its visits |
| Dispatcher.Service.FinalizeStream | internal/proxy/proxy.go:808-819 | only the first finalization of a stream settles or refunds, as `Settlements.ClosedStreamIsBilled` says |
| Dispatcher.EligibleIffSuitable | internal/proxy/proxy.go:206-221 | the slots walked are exactly those passing kind, media and context, in declared order |
| Dispatcher.ContactsAreSuitable | internal/proxy/proxy.go:188-285 | every contacted slot passed all three filters |
| Dispatcher.StreamCloses | internal/proxy/proxy.go:697-718 | when nothing else moved the counters meanwhile, a broken stream leaves no trace of its reservation and a drained one leaves the settled charge |
| Dispatcher.BackoffIsShort | internal/proxy/proxy.go:590-596 | the backoff grows from 100 ms to at most 2 s, always less than the ten-second key cooldown |
| Dispatcher.SingleKeyCoolsDown | internal/router/router.go:252-283 | a group with one credential hands out nothing for ten seconds after a 429 |
| Dispatcher.RateLimitedSingleKeyKeepsCharge | internal/proxy/proxy.go:500-514 | the run that keeps an unserved charge: one key, a 429, a retry that finds no key |
| Dispatcher.BackoffDoubles | internal/proxy/proxy.go:590-596 | the first wait is 100 ms and each further one twice the last, up to 2 s |
| Retries.WalkPersists | internal/proxy/proxy.go:483-580 | on every slot visited: replies are heard in turn, the first success or caller's fault is the last call, and after any other failure it is tried again until tries, attempts, credentials or the caller's patience run out, with one wait after each failure but that of the last try; a success is billed by its reply, and a refunded slot fails with the status and type of its last call |
| Retries.SharedWalkPersists | internal/proxy/proxy.go:483-580 | the same while other requests run between any two locked sections |
| Retries.ErrorsTell | internal/proxy/proxy.go:963-1018 | the status, type and source of the error each failed reply is reported as |
| Retries.RecordsOfReplies | internal/proxy/proxy.go:533-560 | each call is recorded once and in order: credited when it went through, else blamed with its own status, 502 for one below 400 or a broken call, 504 for a timeout, 400 for a missing file |
| Retries.BlameFor | internal/router/router.go:252-283 | 401, 402 and 403 take the credential out for 31,536,000 s, 429 for 10 s or, from the fourth in a row, 30 s; the breaker counts 5xx, broken calls and timeouts, and nothing else changes |
| Retries.BlameForUnknown | internal/router/router.go:480-494 | a failure of a credential the group does not hold counts against the breaker at most |
| Retries.CreditFor | internal/router/router.go:236-250 | a success closes the breaker, clears its errors and all failure counts, and ends no cooldown |
| Settlements.ServedSlotIsBilled | internal/proxy/proxy.go:694-718 | in one bucket a slot that served raises a limited token window of the caller's cell by reported total less cached tokens, not below zero, by the estimate when nothing is reported, by one for speech and transcription and by the estimate for embeddings; every other limited window by what the request asks |
| Settlements.ClosedStreamIsBilled | internal/proxy/proxy.go:694-718 | a drained stream raises its windows as a buffered reply with the same usage, a broken one not at all |
| Settlements.ServedWalkIsBilled | internal/proxy/proxy.go:483-580 | the same over a whole walk, beside the charges of slots left midway in that cell |
| Settlements.ServedAmongOthersIsBilled | internal/proxy/proxy.go:694-718 | what a slot that served among other requests contributes to the ledger, in the fields of its reply |
| Settlements.StreamAmongOthersIsBilled | internal/proxy/proxy.go:694-718 | what the request of a stream owes after it was drained or broke off among others |
| Selections.WalkedIffOffered | internal/proxy/proxy.go:293-378 | the walk is over exactly the slots of the model and kind that take the media of a chat and have room in the provider's own context or, without one, the model's, in declared order |
| Selections.InputIsAdmittedIff | internal/proxy/proxy.go:613-643 | a request as it comes in is admitted exactly when the cell of its key, model and provider has room for max(1, prompt plus completion) tokens, its characters and its seconds |
| Selections.WalkKeepsOtherCells | internal/proxy/proxy.go:613-643 | a walk moves no count of another key, model, level or provider |
| Selections.WalkIsAnswered | internal/proxy/proxy.go:235-285 | the answer of a walk: slots passed over, providers tried in order and calls made; or what became of the last call, or 429 without capacity |
| Estimates.CountText | internal/proxy/estimate.go:124-138 | the counting loop computes the estimate of a text |
| Estimates.EstimateIsNearlyAdditive | internal/proxy/estimate.go:124-138 | the estimate of a concatenation differs from the sum by -1 to 2, and a longer text is never estimated lower |
| Estimates.ContainsFold | internal/proxy/estimate.go:148-172 | true exactly when some window of the haystack equals the needle under ASCII case folding |
| Estimates.OccursInFoldedText | internal/proxy/estimate.go:148-172 | an occurrence is an occurrence in the folded text and does not depend on the case of either side |
| Estimates.TextTokensAre | internal/proxy/estimate.go:124-138 | a quarter of the ASCII characters plus two thirds of the others, each rounded down, and one for any text that comes to nothing |
| Estimates.FoldsLatinLetters | internal/proxy/estimate.go:148-172 | exactly capital and small form of a Latin letter are taken for one |
| Media.HasMediaInput | internal/providers/providers.go:334-387 | each flag is set exactly when some part of some message is of that kind; a video data URI counts as video only |
| Media.UngatedRequestsCarryNoMedia | internal/providers/providers.go:334-387 | a request reported free of media is translated without inline data for Gemini and without images for Anthropic |
| Media.KindsOfParts | internal/providers/providers.go:334-387 | a video is an image part with a data URI whose type begins with `video/` in any case, every other image part an image, a sound part with data a sound |
| Turns.MergeNormalises | internal/providers/anthropic.go:317-378 | merged turns alternate, are not empty and say the same things in the same order |
| Turns.AlternatingIsUnique | internal/providers/anthropic.go:317-378 | there is one alternating form of what is said |
| Turns.MergeIgnoresCuts | internal/providers/gemini.go:315-370 | converted turns that say the same merge to the same turns |
| Turns.MergeIff | internal/providers/gemini.go:315-370 | the merged turns are exactly the alternating turns that say the same |
| MessageCuts.CutsDoNotMatter | internal/providers/anthropic.go:317-378 | cutting a message of several parts in two, anywhere in a conversation, changes the turns of neither adapter |
| MessageCuts.PiecesSayTheWhole | internal/providers/anthropic.go:317-360 | the two pieces of a message convert to the parts of the whole and use the same new ids |
| Chat.SplitDataURIInverts | internal/providers/anthropic.go:570-589 | a URI splits exactly when it is a data URI with a non-empty media type without commas, and into just its media type and payload |
| AnthropicRequests.Convert | internal/providers/anthropic.go:305-378 | the conversion loop hoists system text and appends every other message to alternating turns, which say what `Meanings.AnthropicSaysWhatIsMeant` says |
| AnthropicRequests.AnthropicRequest.CacheBreakpointCount | internal/providers/anthropic.go:467-486 | the number of marked parts in system and messages |
| AnthropicRequests.AnthropicRequest.InjectCacheBreakpoints | internal/providers/anthropic.go:433-461 | the in-place marking is `Inject` on the request's value |
| AnthropicRequestLaws.InjectCounts | internal/providers/anthropic.go:433-486 | injection adds at most two breakpoints, never passes four and leaves a request at or over four alone |
| AnthropicRequestLaws.InjectOnlyAddsMarks | internal/providers/anthropic.go:433-461 | injection removes no mark and changes nothing else |
| AnthropicRequestLaws.InjectIsIdempotent | internal/providers/anthropic.go:433-461 | injecting twice is injecting once |
| AnthropicRequestLaws.TranslatedBreakpoints | internal/providers/anthropic.go:433-461 | a translated request has no mark before injection and one per non-empty half after it |
| AnthropicRequestLaws.BreakpointsStand | internal/providers/anthropic.go:433-461 | in a translated request the last system text and the last part of the first message are marked, and nothing else |
| AnthropicRequestLaws.FourAtMost | internal/providers/anthropic.go:433-461 | four breakpoints leave a request alone; below that the system text is marked first, and the first message only if a fourth is left |
| AnthropicRequestLaws.ToolResultsPair | internal/providers/anthropic.go:305-378 | when every tool message answers an earlier call, each result keeps its exact id, none is dropped and its tool_use stands in a strictly earlier turn |
| AnthropicResults.IdOfNamedResult | internal/providers/anthropic.go:305-316 | a result without an id takes that of the last call recorded under its name anywhere, and has none exactly when no call is recorded under it |
| AnthropicResults.ResultStandsInPlace | internal/providers/anthropic.go:317-378 | a tool message is dropped exactly when it resolves to no id, and else is said right after the messages before it |
| AnthropicResults.ResultFollowsUseIff | internal/providers/anthropic.go:305-378 | a result stands after a tool_use of its id exactly when an earlier assistant message issues that id |
| AnthropicResults.NamedResultFollowsUseIff | internal/providers/anthropic.go:305-378 | a result without an id stands after the use of its id exactly when the last call recorded under its name is issued by an earlier assistant message |
| AnthropicResults.LaterCallTakesTheResult | internal/providers/anthropic.go:305-316 | the conversation in which a later call of the same function takes the id of an earlier result |
| GeminiRequests.Convert | internal/providers/gemini.go:304-371 | the conversion loop with the names recorded in a first pass; its turns say what `Meanings.GeminiSaysWhatIsMeant` says |
| GeminiRequests.NamesAreRecorded | internal/providers/gemini.go:304-313 | a recorded name is that of a call with this id, and every named call with an id is recorded |
| GeminiRequests.ResultCarriesCallName | internal/providers/gemini.go:304-356 | with unique ids an unnamed result carries the function name of the call it answers |
| GeminiRequests.EveryResultIsTranslated | internal/providers/gemini.go:315-370 | the turns hold one functionResponse per tool message, in order, under the resolved name |
| Meanings.AnthropicSaysWhatIsMeant | internal/providers/anthropic.go:302-378 | piece by piece and side by side the request says what the messages mean: non-empty plain texts and text parts, the images whose URL is a base64 data URI, each call under its id or the next new one with its name and argument object, each result it can name with its text; system and developer texts instruct, in order |
| Meanings.GeminiSaysWhatIsMeant | internal/providers/gemini.go:304-371 | the same for Gemini, with sound, signatures or their stand-in, every result, and developer text as a user's; only system texts instruct |
| Meanings.ResultNameIs | internal/providers/gemini.go:351-356 | a result goes under its own name, else its call's, else its id, else `function` |
| Sse.SseStream.Next | internal/providers/providers.go:447-474 | skips lines without payload and returns the next payload, the sentinel, the end or the failure |
| Sse.EndIsSticky | internal/providers/providers.go:447-474 | after the sentinel or the end every read reports the end |
| Chunks.HeardIsWrittenAndReported | internal/proxy/proxy.go:866-905 | what a reader of the chunks knows is what the client hears from the written frames and the last usage report, and nothing more |
| AnthropicStreams.ReadBlocks | internal/providers/anthropic.go:620-641 | the block loop collects text and calls in order |
| AnthropicStreams.StopReasons | internal/providers/anthropic.go:696-708 | `length` and `tool_calls` come from exactly one stop reason each, everything else is a plain stop |
| AnthropicStreams.Translate | internal/providers/anthropic.go:620-677 | the buffered translation of a reply |
| AnthropicStreams.AnthropicStream.React | internal/providers/anthropic.go:827-920 | one payload changes the stream's fields and yields a chunk as specified |
| AnthropicStreams.AnthropicStream.Final | internal/providers/anthropic.go:949-971 | the final chunk carries usage when there is any and the finish reason when one arrived |
| AnthropicStreams.AnthropicStream.Next | internal/providers/anthropic.go:818-921 | the read loop over the frame source is `NextOf` |
| AnthropicStreams.AnthropicStream.ReadAll | internal/proxy/proxy.go:866-905 | the draining loop writes exactly the payloads and the end mark of the stream's chunks and keeps the last usage report |
| AnthropicStreamLaws.DrainFollowsSignals | internal/providers/anthropic.go:818-921 | pings, separators, malformed payloads and untyped envelopes aside, only the significant events make a difference to a reader of the chunks |
| AnthropicStreamLaws.ContentHeard | internal/providers/anthropic.go:873-906 | however the blocks are cut, a reader of the chunks has their text and their calls at indexes 0, 1, 2, ... |
| AnthropicStreamLaws.CallsAgreeIff | internal/providers/anthropic.go:626-641 | streamed and buffered calls are equal exactly when every call has an id and a non-empty, non-null input |
| AnthropicStreamLaws.StreamMatchesReply | internal/providers/anthropic.go:818-971 | for every reply and every cutting, accumulated text, calls and usage are those of the reply, and the whole agrees with the buffered form exactly when nothing is missing from the reply |
| AnthropicStreamLaws.EmptyInputDisagrees | internal/providers/anthropic.go:631-635 | a tool call with empty input is streamed with other arguments than it is buffered with |
| GeminiStreams.ReadParts | internal/providers/gemini.go:764-782 | the part loop collects text and calls of the first candidate without thoughts, as `ReplyMeanings.BufferedGeminiReply` shows |
| GeminiStreams.FinishReasons | internal/providers/gemini.go:657-666 | `length` and `content_filter` come from exactly the reasons that say so, everything else is a plain stop |
| GeminiStreams.GeminiStream.BuildPayload | internal/providers/gemini.go:788-829 | the chunk payload with its indexed calls and mapped finish reason, or none |
| GeminiStreams.GeminiStream.React | internal/providers/gemini.go:854-885 | one reply chunk changes the stream's fields and yields a chunk as specified |
| GeminiStreams.GeminiStream.Next | internal/providers/gemini.go:831-886 | the read loop over the frame source is `NextOf`, with the synthesized end mark |
| GeminiStreams.GeminiStream.ReadAll | internal/proxy/proxy.go:866-905 | the draining loop writes exactly the payloads and the end mark of the stream's chunks and keeps the last usage report |
| GeminiStreams.ReplyHeard | internal/providers/gemini.go:764-829 | one reply chunk keeps reader and translator in step with everything said so far |
| GeminiStreams.StreamMatchesJoined | internal/providers/gemini.go:575-634 | for every run of chunks the accumulated text, contiguous calls and usage are those of the buffered joined response, and the finish reasons agree exactly when one arrives and no plain stop precedes the first call |
| GeminiStreams.FinishAfterCallsMatches | internal/providers/gemini.go:788-829 | a finish reason no earlier than the last call is the one of the buffered form |
| GeminiStreams.EarlyStopDisagrees | internal/providers/gemini.go:811-814 | a plain stop before the first call is streamed as `stop` and buffered as `tool_calls` |
| GeminiStreams.EndsOnce | internal/providers/gemini.go:831-851 | exactly one end mark, last, unless the input breaks off; after it every read reports the end and changes nothing |
| ReplyMeanings.BufferedGeminiReply | internal/providers/gemini.go:575-650 | the completion of a reply in the fields of its first candidate: text and calls of the parts that are no thoughts, arguments `{}` when missing, signatures, finish and usage |
| ReplyMeanings.StreamedGeminiReply | internal/providers/gemini.go:764-886 | a client of the stream hears the text and the calls of the parts that are no thoughts, over all chunks and in order |
| ReplyMeanings.StreamedGeminiFinish | internal/providers/gemini.go:788-829 | and the finish of the last chunk that has one, given the calls shown up to then |
| ReplyMeanings.ThoughtsStayInside | internal/providers/gemini.go:764-782 | a thought put in anywhere changes neither the completion nor anything heard |
| ReplyMeanings.AllShown | internal/providers/gemini.go:764-782 | without thoughts every part is shown |
| ReplyMeanings.BufferedAnthropicReply | internal/providers/anthropic.go:620-677 | the completion of a reply in the fields of its blocks, stop reason and counts |
| ReplyMeanings.StreamedAnthropicReply | internal/providers/anthropic.go:818-971 | what a client of the stream hears as text, finish and usage, in the same fields |
| StreamBills.AnthropicReplyIsBilled | internal/proxy/proxy.go:930-958 | a buffered reply is billed input, cache writes and output, and what was reserved when nothing is counted |
| StreamBills.AnthropicStreamIsBilled | internal/proxy/proxy.go:866-914 | and so is its stream, however it is cut |
| StreamBills.GeminiReplyIsBilled | internal/proxy/proxy.go:930-958 | a buffered reply is billed its total, or prompt, answer and thoughts without one, less the cached part |
| StreamBills.GeminiStreamIsBilled | internal/proxy/proxy.go:866-914 | a stream is billed so by its last chunk that counts anything |
| StreamBills.UncountedStreamIsBilled | internal/proxy/proxy.go:866-914 | a stream that counts nothing is billed what was reserved |

## Left out

- HTTP, TLS, SSE byte scanning, JSON and YAML: the model starts from decoded messages, lines, frames, statuses and configuration.
- Machine integers: counts, limits and times are unbounded; overflow and negative costs, amounts or reported token counts are not modelled.
- LimiterProtocol.Conservation: stated for clock readings in one bucket of the window, because `now` is read before the first lock and refund and reconcile use the bucket current at their own time; across buckets the one-sided `CeilingsHold` remains.
- Walks.WalkAccounting: like the other theorems over `Walk`, assumes that nothing else moves the counters between the request's own steps; the walk among others is `SharedWalks`, whose ledger is stated in one bucket of a window.
- Dispatcher.StreamCloses: assumes that nothing else moved the counters while the stream was open; closing among others is `SharedWalks.StreamClosesAmong`.
- RouterTraces.VisitIsPaired: the resolves of a visit are the answers of a router nobody else uses meanwhile; recorded latencies are not modelled, and the record of a failed walk is the `modelFailed` result of `Dispatcher.Service.WalkSlots`.
- AnthropicResults.NamedResultFollowsUseIff: new ids never repeat the id in question, and that id stands in one message only.
- Headers.ReportsPredictAfterAnyRun: limits are not negative and stay as they are; a reload that changes them is not modelled beyond `LoweredLimitMisleads`.
- Headers.RateLimitHeaders: one clock reading serves the counts and the reset times, where the source reads the clock for each.
- Cells.ReserveAllOrNothing: the count in a rejection is the one compared with the limit; a concurrent change before the error message is rendered is not modelled.
- Router locks: each router and breaker method is one atomic step; goroutine interleavings inside the router are not modelled.
- Group latency percentiles, request and error counters and the float health score, which are only displayed.
- The weighted `Resolve`, whose choice is random and which dispatch does not use.
- Draining, degradation modes and the fallback semaphore: no code switches into them.
- The idle watchdog, the pipe and the goroutine of `callStreaming`; the settle-once guard and the draining loop are modelled, a client that disconnects or an input that breaks off while draining is not.
- `contextTooLongError` reports the largest context as well; only the requested estimate is modelled.
- `EstimateBodyTokens`, `messageTokens` and `contentTokens`: sums over JSON sizes; the estimate of the body is a parameter of `EstimateTokens`.
- Media.HasMediaInput: folds case of the media type for ASCII letters only.
- Tool declarations, tool choice, thinking budgets, response format and token caps of the translated requests: one-branch copies.
- The JSON payload of a tool result is its text; `toolResultPayload`'s object wrapping is not modelled.
- AnthropicStreamLaws.StreamMatchesReply: one `message_delta` per stream, and blocks streamed one after another as the provider documents them.
- GeminiStreams.StreamMatchesJoined: new ids come from one supply for both forms and the completion's own id and role are not compared; the reasoning-token detail exists only in the buffered form.
- Regular-expression stripping of reasoning blocks, capability probes, embeddings, audio routes, key hashing and the model listing.
