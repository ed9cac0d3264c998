# Janus Cortex: position protection, backtest scan and replay accounting

A Dafny model of the parts of the repository whose behaviour only shows over several branches, several functions or several ticks:

- **Position protection in the live tick.** Each tick reads a snapshot of positions and resting orders, works out what the resting sells leave uncovered, gives the next slice to the strategy that owns it, prices and sizes a protective sell, submits or only recommends it, and builds a candidate replacement plan. `Plans`, `Waterfall`, `Prices`, `Targets`, `CandidatePlan` and `Protection` model one tick; `TickLaws`, `Runs`, `Convergence` and `Adoption` prove what holds of one tick, of whole runs, of repeated ticks and of the plan-adoption feedback loop, and `Instances` holds concrete plans and ticks on which a tempting law fails.
- **Direct exchange data.** `DirectTruth` models trade de-duplication and the accounting of pending local orders; `EventScope` the scoping of account data to one event.
- **Backtest and reports.** `ProbeScan` models the re-slicing greedy scan, `Ranking` the replay ranking, `ProfileReport` the flat and two-level accounting of closed positions, `Drawdown` the one-pass drawdown and `Bands` the first-touch and rebound rows.

`Ordering` holds the one lexicographic sort order all the `sort` calls share, `Wrappers` optional values.

Code that works by loops and updates is written as methods with loops (the reaction's lists as a class whose methods append to them), each proved equal to a function of its inputs; the laws are lemmas about those functions. Each module ends with the same behaviour in plain fields: what decides it is spelled out over the cells, flags, texts and numbers a caller sees, without the model's own helper functions. Sizes are integer micro-shares, which makes the source's 1e-9 tolerances exact comparisons, and drawdown amounts integer micro-dollars; prices, returns, profit and cost are exact reals. A field that may be missing, or a cell that is not a number, is an `Option`. Text is already trimmed, and lower-cased where the source lower-cases it; alias keys of one field are resolved to the first one given.

## Results that need care

- **The price normalizer is not idempotent for every tick.** It rounds to at most six decimals, and a tick with more can round a price over its own tick, so that normalizing again climbs (`Prices.SevenDecimalTickNotIdempotent`: tick 0.0123457, price 0.012). `Prices.NormalizeIdempotent` gives the exact condition for every price, tick and floor: the tick multiple is not rounded up past the slack, or it reaches the cap, or the next multiple rounds to the same price. Every tick of at most six decimals meets it, and the normalizer without a tick is always idempotent.
- **The ceilings can lower a price, in spite of the docstring's "without lowering target".** A price above a tick multiple by no more than the 1e-12 slack falls back to it (`Prices.SlackLowersPrice`: tick 0.01, price 0.5000000000005). `Prices.CeilingLowersIff` gives the exact condition; a price with no more decimals than its tick is never lowered, whatever the tick (`Prices.CeilingNeverLowers`).
- **The two waterfall loops can disagree.** The size loop stops at the first strategy with the picked identifier; a duplicated identifier starves the owner (`Waterfall.DuplicateIdGetsNothing`: two strategies of five, the first full). `Waterfall.LoopsAgreeExactly` gives the exact condition.
- **Repeated ticks need not reach the stated level when the period changes.** The owner of the next slice is chosen anew each tick, and one that lacks less than a minimum order blocks the others (`Instances.ChangingPeriodStalls`); two strategies can also take three submitting ticks (`Instances.ChangingPeriodSubmitsMore`). `Convergence.TicksUnderChangingPeriods` gives the exact condition of a stop short of the level, `Convergence.SubmissionsBounded` the bound that always holds, and `Convergence.TicksConverge` the convergence while the ranking stays.
- **A sell resting in a status the tick does not count is submitted again** (`Instances.DelayedOrderDoubled`). Where every accepted sell rests in a counted status, all resting sells stay within holdings (`Runs.RunKeepsAllSells`).
- **Adoption hands a position over unless a trade is unknown.** A candidate plan's trade strategies are not in the two operator families the tick exempts, so an unknown trade on the token leaves the position waiting for a review (`Adoption.ReactingPositionHandedOver`, both directions; `Instances.HandoverUnlessUnknownTrade` on one plan).
- **The events of the profile report drop positions without a key**, which the flat pass counts (`ProfileReport.EventsCompleteIffKeyed`; `ProfileReport.KeylessWinMissing` on one position).
- **De-duplication can forget a fill.** Two rows of one trade that name different orders lose the second one's (`DirectTruth.InconsistentTradeLosesFill`), and the filled order is then reported as pending (`DirectTruth.FilledOrderReportedPending`). No fill is lost if and only if every order is named by the first row of some key (`DirectTruth.NoFilledIdLost`), and the pending report is free of filled orders if and only if no listed order's fill is forgotten (`DirectTruth.PendingNotDoubleCounted`).
- **Scoping scoped data again can change it.** A trade reported under two tokens is dropped from the current-token trades by the first scoping and put back by the second (`EventScope.SecondScopingAddsTrade`). `EventScope.ScopeIdempotent` gives the exact condition; orders, positions, account trades and conditions never change, and a third scoping changes nothing (`EventScope.TwoScopingsSettle`).
- **A position with contradictory token fields can be a seed of the scope and yet be dropped** (`EventScope.SeedsAreKept` says exactly when; `EventScope.ContradictoryPositionDropped`).

## Model

| member | source | states |
|---|---|---|
| Plans.OpenSellSizeForToken | codex_tool/run_live_strategy_tick.py:3704-3712 | the total size of exactly the sells on the token whose status is live, open or submitted |
| Plans.CountedSizeGrows | codex_tool/run_live_strategy_tick.py:3704-3712 | one more resting order changes a token's counted size, by its size, exactly when it is a live, open or submitted sell on the token |
| Plans.OpenSellsAppend | codex_tool/run_live_strategy_tick.py:3704-3712 | resting size adds up over lists of orders |
| Plans.EntrySizeInOrder | codex_tool/run_live_strategy_tick.py:1566-1570 | the entry rules' size wins over their shares and both over the strategy's size; zero counts as missing |
| Plans.MatchesTokenIff | codex_tool/run_live_strategy_tick.py:1548-1551 | a strategy owns a token by token id, by asset id when it names no token, or by outcome |
| Plans.TargetRequiredIff | codex_tool/run_live_strategy_tick.py:1573-1582 | the flag decides when given, else membership in two families |
| Plans.PlanOutcomeLookup | codex_tool/run_live_strategy_tick.py:3682-3694 | builds the map from tokens and outcomes to market and outcome |
| Plans.LookupIsLastNamed | codex_tool/run_live_strategy_tick.py:3682-3694 | the last strategy naming a key as its token or outcome decides its market and outcome |
| Plans.LookupFrom | codex_tool/run_live_strategy_tick.py:3682-3694 | a mapped key comes from a strategy that names it, the last one to do so |
| Plans.LookupGrows | codex_tool/run_live_strategy_tick.py:3682-3694 | one more strategy maps its token and outcome to its own or the plan's market, unless it lacks either or both markets are blank |
| Plans.MissingPlanTargetOrderIds | codex_tool/run_live_strategy_tick.py:3462-3483 | exactly the target orders the plan names for the token that do not rest on the exchange |
| Plans.MissingTargetsExactly | codex_tool/run_live_strategy_tick.py:3462-3483 | an identifier is missing exactly when some record for the token with a target action, target policy or sell side names it and it does not rest |
| Plans.MentionsTargetIff | codex_tool/run_live_strategy_tick.py:3478 | a text mentions a target exactly when it contains the word |
| Plans.MatchesAliasIff | codex_tool/run_live_strategy_tick.py:3371-3375 | a row belongs to the event when its slug is blank, the event's identifier or an alias of the plan |
| Waterfall.PositionStrategiesFromPlan | codex_tool/run_live_strategy_tick.py:2179-2193 | the matching strategies, sorted |
| Waterfall.RankedIsSortedPermutation | codex_tool/run_live_strategy_tick.py:2179-2193 | the ordering lists each matching plan entry once and no other; live before shadow, then period rank, then the later entry first |
| Waterfall.PeriodRankIff | codex_tool/run_live_strategy_tick.py:2240-2257 | a period rank of 0, 1 or 2, each by the allowed periods, the first and the last period alone |
| Waterfall.RankedPair | codex_tool/run_live_strategy_tick.py:2179-2193 | of any two ranked strategies the earlier is live or the later shadow, then ranks no worse, then comes later in the plan |
| Waterfall.PickStrategy | codex_tool/run_live_strategy_tick.py:2149-2176 | the first match without a sell size, else the owner of the next slice |
| Waterfall.PickIsOwner | codex_tool/run_live_strategy_tick.py:2166-2176 | the pick is the unique strategy before which all are full and which has no entry size or a prefix sum above the resting size, or the last one |
| Waterfall.TotalIgnoresPeriod | codex_tool/run_live_strategy_tick.py:2179-2193 | the combined entry size of all matching strategies does not depend on the period that ranks them |
| Waterfall.PositionTargetSize | codex_tool/run_live_strategy_tick.py:2196-2237 | the decrementing size loop computes the target size |
| Waterfall.TargetSizeBounded | codex_tool/run_live_strategy_tick.py:2206-2237 | for every plan the target size is between nothing and the uncovered size |
| Waterfall.WaterfallLoopsAgree | codex_tool/run_live_strategy_tick.py:2149-2237 | without an earlier duplicate identifier the size is min(uncovered, prefix sum minus resting size), all of it for a strategy without entry size, and when all are full nothing or, with the excess flag, all |
| Waterfall.DuplicateIdStarvesOwner | codex_tool/run_live_strategy_tick.py:2215-2234 | an earlier match with the owner's identifier leaves the owner nothing, or everything with the excess flag |
| Waterfall.LoopsAgreeExactly | codex_tool/run_live_strategy_tick.py:2149-2237 | the two loops agree if and only if the identifier is not duplicated before the owner or one of three degenerate cases holds |
| Waterfall.DuplicateIdGetsNothing | codex_tool/run_live_strategy_tick.py:2215-2234 | two strategies of one identifier: the second owns five shares and is given none |
| Prices.TickMultipleIsExact | codex_tool/run_live_strategy_tick.py:1541-1542 | for a tick of at most six decimals the final rounding leaves every tick multiple alone |
| Prices.NormalizeIdempotent | codex_tool/run_live_strategy_tick.py:1530-1545 | for every price, tick and floor, normalizing again never lowers a price, and changes nothing if and only if the tick settles at once; every tick of at most six decimals settles, and both branches without a tick are always idempotent, across 0.10 too |
| Prices.TickBranchSettles | codex_tool/run_live_strategy_tick.py:1538-1542 | the same equivalence for the tick branch, for any positive tick: the multiple is not rounded up past the slack, or reaches the cap, or the next multiple rounds to the same price |
| Prices.SettlingByTickSize | codex_tool/run_live_strategy_tick.py:1540-1542 | a tick of at most half the last rounded decimal always settles; for one above that decimal only the first two cases can hold |
| Prices.SevenDecimalTickNotIdempotent | codex_tool/run_live_strategy_tick.py:1540-1542 | a seven-decimal tick for which the second normalization raises the price again |
| Prices.NormalizeMonotone | codex_tool/run_live_strategy_tick.py:1530-1545 | a higher price never normalizes lower, for any tick and floor |
| Prices.CeilingNeverLowers | codex_tool/run_live_strategy_tick.py:1530-1545 | for any tick the ceiling raises the clamped price by less than a step and lowers it by at most the slack, give or take half of the last rounded decimal, and exactly so for six-decimal ticks and the cent; a price with no more decimals than its tick is never lowered; the rounding branch stays within 0.00005 |
| Prices.NormalizeIs | codex_tool/run_live_strategy_tick.py:1530-1545 | for every price, tick and floor: the price kept between floor and 0.95, then the first tick multiple or cent not below it less 1e-12, or the nearest hundredth of a cent |
| Prices.CeilingLowersIff | codex_tool/run_live_strategy_tick.py:1530-1544 | a ceiling lowers the clamped price if and only if it exceeds a multiple of the step by no more than the slack, or, for a tick of more than six decimals, the multiple rounds below it |
| Prices.SlackLowersPrice | codex_tool/run_live_strategy_tick.py:1542-1544 | a concrete price each ceiling lowers |
| Prices.ScaledTargetBound | codex_tool/run_live_strategy_tick.py:1585-1619 | with any tick the submitted target lies within two ticks and two roundings of the request and the second normalization is a no-op if and only if the request settles; with a six-decimal tick it always is, and the target is a tick multiple within one tick; without one it is within 0.00005 below and 0.01005 above |
| Prices.RequestedIs | codex_tool/run_live_strategy_tick.py:1592-1614 | the request is the largest of basis plus asked cents, basis plus asked return, and the floor or a cent, but at most 0.95; the fraction wins over the percentage |
| Prices.ScaledTargetIff | codex_tool/run_live_strategy_tick.py:1585-1612 | there is a scaled target exactly when the basis is positive and the asked cents or the asked return are |
| Targets.TargetPriceNormalized | codex_tool/run_live_strategy_tick.py:1406-1483 | whichever rule decides the price, it is stable under another normalization with the same rules if and only if the ask settles, as it does for every tick of at most six decimals |
| Targets.ScaledTargetPriceBound | codex_tool/run_live_strategy_tick.py:1424-1436 | the submitted scaled price against the rules' own cents, return, floor and tick: in the tick above the request for six-decimal ticks, within two ticks and roundings for any, within 0.00005 below and 0.01005 above without one |
| Targets.TargetBasisIs | codex_tool/run_live_strategy_tick.py:1486-1506 | the basis is the average price unless the rules name one of five quotes; then the first given of price, team price, current price, best ask and ask, if positive |
| Targets.TargetRuleIs | codex_tool/run_live_strategy_tick.py:1424-1483 | which of scaled target, explicit target and fixed delta decides the price, and the recorded cents |
| CandidatePlan.StrategyIdInjective | codex_tool/run_live_strategy_tick.py:2300-2302 | equal strategy identifiers mean the same kind of reaction and the same index, whatever the slugs |
| CandidatePlan.AdoptReactions | codex_tool/run_live_strategy_tick.py:2283-2371 | one loop appends a strategy and a reconciliation record for each token-bearing reaction |
| CandidatePlan.OperatorPlanCandidate | codex_tool/run_live_strategy_tick.py:2260-2573 | no candidate without reactions, market or token-bearing reaction; otherwise the adopted strategies and records |
| CandidatePlan.CandidateExistsIff | codex_tool/run_live_strategy_tick.py:2269-2286 | a candidate exists exactly when the plan names its market and some reaction of any kind names a token |
| CandidatePlan.ReactionsAdopted | codex_tool/run_live_strategy_tick.py:2283-2540 | how each token-bearing position, order and trade is adopted: identifier, family, label, token, outcome, market, target flag, action |
| CandidatePlan.SafeSlugIs | codex_tool/run_live_strategy_tick.py:2849-2853 | a slug has 1 to 48 lower-case letters, digits and dashes; blank names become position; plain short names stay |
| CandidatePlan.SafeSlugJoins | codex_tool/run_live_strategy_tick.py:2849-2853 | two words come out joined by one dash, however separated and capitalized |
| CandidatePlan.DecimalIsNumber | codex_tool/run_live_strategy_tick.py:2298 | the index is written in decimal digits |
| CandidatePlan.BearerListed | codex_tool/run_live_strategy_tick.py:2283-2286 | every token-bearing reaction is adopted under its own index |
| CandidatePlan.BearersIncreasing | codex_tool/run_live_strategy_tick.py:2283-2286 | adoption keeps the order of the reactions |
| CandidatePlan.CandidateWellFormed | codex_tool/run_live_strategy_tick.py:2260-2573 | strategies and records mirror the token-bearing reactions one to one and in order; identifiers are pairwise distinct; every strategy is shadow only, without budget, positions or entry size, and has entry disabled |
| CandidatePlan.CandidateKeepsOutcomes | codex_tool/run_live_strategy_tick.py:2281-2321 | a reaction's token is mapped by the candidate exactly when the old plan mapped it, to the same market and outcome |
| CandidatePlan.CandidateExpectsNoTargets | codex_tool/run_live_strategy_tick.py:2350-2369 | no record of a candidate plan names a target order |
| Protection.GatherFacts | codex_tool/run_live_strategy_tick.py:1702-1731 | the row's resting, uncovered and missing-target facts, outcome, price and owning strategy |
| Protection.ReactionBook.constructor | codex_tool/run_live_strategy_tick.py:1639-1663 | a reaction starts with the failed gates as its only entries |
| Protection.ReactionBook.Place | codex_tool/run_live_strategy_tick.py:1951-1989 | a proposal is recommended always, submitted and recorded as an intervention only when nothing blocks |
| Protection.ReactionBook.Protect | codex_tool/run_live_strategy_tick.py:1774-1953 | an uncovered row yields one reaction and one recommendation, an order only when it passes every hold |
| Protection.ReactionBook.ProtectRow | codex_tool/run_live_strategy_tick.py:1694-1989 | one pass appends exactly the row's contributions and no others |
| Protection.AutoProtect | codex_tool/run_live_strategy_tick.py:1622-2001 | the whole reaction: what is blocked, covered, recommended, reviewed and submitted; the intervention records, each with its row's token and the API's answer; the candidate plan |
| Protection.BlockedStep | codex_tool/run_live_strategy_tick.py:1658-1663 | rows are unblocked exactly while all gates are open and no earlier row lacked a token |
| TickLaws.EveryPositionAccountedOnce | codex_tool/run_live_strategy_tick.py:1694-1953 | covered plus recommended entries equal the event's positions that carry a token |
| TickLaws.BlockersAccumulate | codex_tool/run_live_strategy_tick.py:1658-1701 | blockers are only ever added |
| TickLaws.SubmissionNeedsEveryFlag | codex_tool/run_live_strategy_tick.py:1654-1663 | nothing is submitted unless the tick is enabled and the execute, live-money and integrity flags are set |
| TickLaws.BlockedExactly | codex_tool/run_live_strategy_tick.py:1658-1701 | each gate's reason blocks exactly when its flag is not set, the missing token exactly when a row of the event lacks one |
| TickLaws.OpenGatesSubmitAll | codex_tool/run_live_strategy_tick.py:1658-1955 | with every flag set and no row of the event lacking a token, every proposal is submitted |
| TickLaws.NothingSubmittedOnceBlocked | codex_tool/run_live_strategy_tick.py:1658-1953 | after a failed gate or a token-less position nothing more is submitted |
| TickLaws.EverythingSubmittedWhileOpen | codex_tool/run_live_strategy_tick.py:1951-1955 | while nothing blocks every proposal is submitted |
| TickLaws.RowProposesIff | codex_tool/run_live_strategy_tick.py:1694-1904 | exactly when a row yields a sell, from its slug, token, sizes, mapping, price and owner |
| TickLaws.CoveredRowSellsNothing | codex_tool/run_live_strategy_tick.py:1702-1771 | a row whose size is within the counted sells on its token sells nothing unless an adverse review fires |
| TickLaws.ProposalIs | codex_tool/run_live_strategy_tick.py:1868-1953 | the sell's market, outcome, size, price, policy, strategy and flags |
| TickLaws.HeldFor | codex_tool/run_live_strategy_tick.py:1839-1911 | a row is held for the first of five reasons that applies, in their order |
| TickLaws.RowCoveredIff | codex_tool/run_live_strategy_tick.py:1751-1771 | exactly when a row counts as covered, and when only dust is left over |
| TickLaws.ReactionIs | codex_tool/run_live_strategy_tick.py:1772-1838 | the reaction's action, label, sizes and whether it asks for a revision |
| TickLaws.StopTriggeredIff | codex_tool/run_live_strategy_tick.py:2039-2079 | a stop triggers at the stop price, at the adverse cents or at the score gap whatever its sign, on the best bid or else the price |
| TickLaws.ReviewedIff | codex_tool/run_live_strategy_tick.py:1731-1750 | a review fires for a mapped row with a known price when the stop of the first-ranked match triggers |
| TickLaws.ReviewIs | codex_tool/run_live_strategy_tick.py:2079-2120 | an adverse review names the row, labels it by the strategy's side at need, and asks for a revision |
| TickLaws.AvgPriceIs | codex_tool/run_live_strategy_tick.py:2004-2009 | the average price, else the current value per share |
| TickLaws.InterventionsMatchOrders | codex_tool/run_live_strategy_tick.py:1953-1989 | submissions and intervention records correspond one to one; the i-th record carries the answer to the i-th order and the token of the row it protects |
| TickLaws.InterventionIs | codex_tool/run_live_strategy_tick.py:1961-1989 | an intervention names the order's market and outcome and the row's token, with the API's answer |
| TickLaws.ProposalWithinUncovered | codex_tool/run_live_strategy_tick.py:1702-1904 | under every plan a proposal sells at most what its row leaves uncovered; where plan and exchange pair outcomes and tokens alike, it sells on the row's own token |
| TickLaws.RoomWithinHoldings | codex_tool/run_live_strategy_tick.py:1702-1704 | rows sharing a token and measured against the same resting sells cannot together exceed the holding |
| TickLaws.RowsNeverOversell | codex_tool/run_live_strategy_tick.py:1694-1989 | under every plan, resting sells plus everything one tick submits for a token's rows stay within the larger of resting sells and holding |
| TickLaws.TickNeverOversells | codex_tool/run_live_strategy_tick.py:1694-1989 | the same, counting every submitted order on the token the exchange lists for its outcome |
| TickLaws.StopStaysTriggered | codex_tool/run_live_strategy_tick.py:2039-2079 | a stop triggered at an exit price triggers at every lower one, other quotes being equal |
| Runs.StepNeverOversells | codex_tool/run_live_strategy_tick.py:1694-1989 | no tick, fill, cancel or buy makes the oversold amount of any token grow |
| Runs.ExcessNeverGrows | codex_tool/run_live_strategy_tick.py:1694-1989 | over any run, from any state, the oversold amount never exceeds the initial one |
| Runs.RunNeverOversells | codex_tool/run_live_strategy_tick.py:1694-1989 | every interleaving of ticks, partial fills, cancels and operator buys keeps resting sells within holdings |
| Runs.UncountedFill | codex_tool/run_live_strategy_tick.py:3704-3712 | a fill of a sell whose status does not count keeps resting sells within holdings exactly when that much was still uncovered |
| Runs.RunKeepsAllSells | codex_tool/run_live_strategy_tick.py:1694-1989 | where accepted sells rest as live, open or submitted, every run keeps all resting sells, whatever their status, within holdings |
| Instances.DelayedOrderDoubled | codex_tool/run_live_strategy_tick.py:3704-3712 | an accepted sell in an uncounted status: the next tick submits for the same shares again |
| Convergence.SteadyTick | codex_tool/run_live_strategy_tick.py:1694-1955 | in steady conditions a tick submits nothing or exactly one order for the next slice |
| Convergence.SliceAtLevel | codex_tool/run_live_strategy_tick.py:2149-2237 | with the first strategies full, the next slice brings the resting size to the smaller of position and next prefix sum |
| Convergence.TicksConverge | codex_tool/run_live_strategy_tick.py:1702-1955 | for ticks that bring any plans, quotes and scores but rank the strategies alike: only the first n can submit; a tick that submits nothing is final, with the resting size at min(position, entries) or less than a minimum order short |
| Convergence.SliceExactly | codex_tool/run_live_strategy_tick.py:2149-2237 | at any level a steady tick submits the smaller of what is uncovered and what the owner lacks, or nothing if that is below the minimum |
| Convergence.TicksUnderChangingPeriods | codex_tool/run_live_strategy_tick.py:2149-2257 | for ticks whose periods rank the strategies anew: a tick is silent exactly when less than a minimum order is uncovered or lacking to the owner, and misses the stated level exactly when the owner alone lacks it |
| Convergence.SubmissionsBounded | codex_tool/run_live_strategy_tick.py:1702-1955 | whatever the ticks bring, the number of submitting ticks times the minimum order is at most what was uncovered at the start |
| Instances.ChangingPeriodStalls | codex_tool/run_live_strategy_tick.py:2240-2257 | two strategies that take turns by period: seven of twelve shares stay uncovered, with room for all |
| Instances.ChangingPeriodSubmitsMore | codex_tool/run_live_strategy_tick.py:2240-2257 | two strategies, three submitting ticks |
| Adoption.LastMatchRanksFirst | codex_tool/run_live_strategy_tick.py:2179-2193 | among shadow strategies without period gates the last matching plan entry owns the token |
| Adoption.AdoptedPositionHandedOver | codex_tool/run_live_strategy_tick.py:2279-2348 | under the candidate plan the position gets an order for exactly the uncovered size at the fixed-delta price on the old market and outcome, if and only if no unknown trade concerns its token |
| Adoption.ReactingPositionHandedOver | codex_tool/run_live_strategy_tick.py:1772-2001 | the same for every position that produced a reaction in a tick, under the candidate that tick built |
| Adoption.CandidateAgrees | codex_tool/run_live_strategy_tick.py:2281-2321 | a candidate plan pairs outcomes and tokens as the exchange does if the plan it replaces did |
| Adoption.AdoptingRunNeverOversells | codex_tool/run_live_strategy_tick.py:1694-2001 | runs that adopt the candidates their own ticks build, in chains of any length, keep resting sells within holdings |
| Instances.HandoverUnlessUnknownTrade | codex_tool/run_live_strategy_tick.py:1772-2001 | one plan: the candidate sells exactly the uncovered twelve shares on the next tick, or nothing with an unknown trade on the token |
| Adoption.CandidateForgetsAliases | codex_tool/run_live_strategy_tick.py:3349-3375 | under the candidate plan only blank slugs and the event's own identifier match |
| DirectTruth.DirectTradeRows | codex_tool/run_live_strategy_tick.py:3200-3213 | the de-duplicated trade rows of the chosen sections |
| DirectTruth.SameKeyIff | codex_tool/run_live_strategy_tick.py:3239-3254 | two rows share a key exactly when their trade identifiers agree and, without one, orders, token, side, price, size and time do |
| DirectTruth.SectionsRead | codex_tool/run_live_strategy_tick.py:3200-3213 | which sections are read with and without market observations, the current-token trades first |
| DirectTruth.DedupeKeepsFirsts | codex_tool/run_live_strategy_tick.py:3200-3254 | exactly the first row of each stable key is kept, in order |
| DirectTruth.AccountKeysWithinAll | codex_tool/run_live_strategy_tick.py:3200-3213 | every key of the account sections is a key of all sections |
| DirectTruth.NoFilledIdLost | codex_tool/run_live_strategy_tick.py:3193-3254 | de-duplication loses no filled order if and only if every order a row names is named by the first row of some key; rows that agree within each trade never lose one |
| DirectTruth.InconsistentTradeLosesFill | codex_tool/run_live_strategy_tick.py:3239-3242 | two rows of one trade with different orders: the second order's fill is forgotten |
| DirectTruth.PendingIntentSummary | codex_tool/run_live_strategy_tick.py:2991-3092 | a failed query reports nothing; otherwise all awaiting orders go to pending, or all to expired once the event has started |
| DirectTruth.AwaitingIff | codex_tool/run_live_strategy_tick.py:3033-3049 | an order awaits the exchange by its slug, side, one of seven statuses, and an identifier that is blank or neither rests nor filled |
| DirectTruth.ExpireIs | codex_tool/run_live_strategy_tick.py:3066-3079 | an order never sent expires as such, any other as missing |
| DirectTruth.PendingNotDoubleCounted | codex_tool/run_live_strategy_tick.py:3029-3049 | every awaiting order is reported as often as listed and none rests; the reported ones are on no trade row of any section if and only if no listed order's fill is forgotten |
| DirectTruth.FilledOrderReportedPending | codex_tool/run_live_strategy_tick.py:3029-3049 | an order filled on the second of two rows of one trade is reported as pending |
| EventScope.EventScopedClob | codex_tool/run_live_strategy_tick.py:3550-3600 | the condition pass and the item filters compute the scoped data |
| EventScope.KeptExactly | codex_tool/run_live_strategy_tick.py:3579-3600 | an order, position or trade is kept exactly when a plan token or event slug names it or it shares a condition with anything so named |
| EventScope.AllItemsAre | codex_tool/run_live_strategy_tick.py:3566-3577 | what scoping looks at: orders, positions and both readings of the trades |
| EventScope.NamedSlugKept | codex_tool/run_live_strategy_tick.py:3589-3597 | an order whose slug names the event is kept whatever its token; without plan tokens nothing is dropped |
| EventScope.SectionsReplaced | codex_tool/run_live_strategy_tick.py:3643-3657 | market sections alike and account sections alike, and only those given |
| EventScope.KeptIsLeastClosed | codex_tool/run_live_strategy_tick.py:3579-3595 | one pass reaches the fixpoint: the kept set is closed and lies in every closed set |
| EventScope.ScopeIsLeastFixpoint | codex_tool/run_live_strategy_tick.py:3579-3600 | with agreeing token fields the kept orders and positions are, in order, the items of the least set holding every hit and closed under sharing a condition |
| EventScope.SeedsAreKept | codex_tool/run_live_strategy_tick.py:3579-3600 | every hit order and trade is kept, a hit position exactly when its own token order hits or it names a condition |
| EventScope.ContradictoryPositionDropped | codex_tool/run_live_strategy_tick.py:3579-3595 | a position whose order-style token hits and whose own token does not is dropped |
| EventScope.ScopeIdempotent | codex_tool/run_live_strategy_tick.py:3550-3660 | scoping scoped data again never changes orders, positions, account trades or conditions, and changes nothing at all if and only if every kept account trade still has a kept trade of its key among all sections |
| EventScope.TwoScopingsSettle | codex_tool/run_live_strategy_tick.py:3550-3660 | a third scoping changes nothing |
| EventScope.SecondScopingAddsTrade | codex_tool/run_live_strategy_tick.py:3643-3657 | one trade under two tokens: the first scoping leaves no current-token trade, the second puts the account's row there |
| ProbeScan.FindEntry | codex_tool/run_sleeve_deep_backtest.py:256-269 | the entry loop finds the window's first eligible row |
| ProbeScan.FindExit | codex_tool/run_sleeve_deep_backtest.py:274-295 | the exit loop finds the first row that ends the trade and why, else the last row |
| ProbeScan.OnePass | codex_tool/run_sleeve_deep_backtest.py:253-337 | a pass over the re-sliced window records the trade at the absolute positions |
| ProbeScan.UltraLowProbe | codex_tool/run_sleeve_deep_backtest.py:244-340 | the re-slicing loop terminates and yields the absolute-index trades |
| ProbeScan.TradesFollowScan | codex_tool/run_sleeve_deep_backtest.py:306-337 | the records are those of the scanned intervals, one for one |
| ProbeScan.ScanIsGreedy | codex_tool/run_sleeve_deep_backtest.py:252-339 | each trade enters at the first eligible row after the previous exit and leaves at the first ending row or the last row; fewer trades than the maximum mean no eligible row is left |
| ProbeScan.ScanInCells | codex_tool/run_sleeve_deep_backtest.py:244-340 | over row cells and numbers: each trade buys the first row from 0.3 to 5 cents with 180 seconds and a gap of at most 35, and leaves at the first that gained, lost or has 90 seconds left, in this order, else at the last |
| ProbeScan.TradeFigures | codex_tool/run_sleeve_deep_backtest.py:272-301 | target, stop, gross and net return of a trade from its two prices and the slippage |
| ProbeScan.ExcursionsReached | codex_tool/run_sleeve_deep_backtest.py:332-333 | the excursions run to the highest and lowest price from the entry to the end of the data |
| ProbeScan.IndexesAre | codex_tool/run_sleeve_deep_backtest.py:324-325 | the recorded indexes: the rows' own, or the place in the window when missing or zero |
| ProbeScan.TradeArithmetic | codex_tool/run_sleeve_deep_backtest.py:272-335 | stop below entry below target; target exits return at least half of the entry and 0.3 cents, stop exits lose two cents or end at 0.1 cents, late exits lie strictly between; the exit lies within the excursions; net return between -1 and gross |
| ProbeScan.SlippageNeverHelps | codex_tool/run_sleeve_deep_backtest.py:298-302 | net return does not increase with slippage |
| ProbeScan.RecordedIndexIsPosition | codex_tool/run_sleeve_deep_backtest.py:324-325 | when state indexes are positions, the recorded indexes are the absolute positions in spite of the window-relative fallback |
| Ranking.RecommendMonotone | tools/postseason_replay_analysis.py:246-292 | a subject at least as good in every count and rate is never recommended lower |
| Ranking.RecommendIs | tools/postseason_replay_analysis.py:233-292 | what a subject is recommended for, from its own cells and the controllers' values |
| Ranking.AssignRanks | tools/postseason_replay_analysis.py:318-329 | masked rows are numbered from one in ranking order, others stay blank |
| Ranking.BuildRanking | tools/postseason_replay_analysis.py:211-331 | recommendations, nine-key sort and the three rank columns |
| Ranking.RankedPair | tools/postseason_replay_analysis.py:300-317 | any two ranked rows stand in order of promotion, bankroll, survival, path, stale and cadence rate, replay trades, family and name, missing values last |
| Ranking.PromotionPlaces | tools/postseason_replay_analysis.py:44-49 | the four places of the promotion order |
| Ranking.ProbesAreFirst | tools/postseason_replay_analysis.py:300-320 | the live-probe rows are exactly a prefix of the ranking |
| Ranking.ThreeRanksCoincide | tools/postseason_replay_analysis.py:317-329 | on every live-probe row probe, focus and replay rank are the same |
| Ranking.ShortlistStartsWithProbes | tools/postseason_replay_analysis.py:334-350 | the focus shortlist starts with exactly the live-probe rows in rank order |
| Ranking.ShortlistIs | tools/postseason_replay_analysis.py:334-350 | the shortlist holds exactly the rows of the seven families, by probe rank, bankroll, survival and stale rate |
| Ranking.FamilyPlaceIs | tools/postseason_replay_analysis.py:35-43 | the seven families and their own order |
| Ranking.RankingIsPermutation | tools/postseason_replay_analysis.py:300-316 | every subject is ranked as often as it was given |
| Ranking.RankingIgnoresRowOrder | tools/postseason_replay_analysis.py:211-331 | with distinct names the ranking does not depend on the order of the input rows |
| ProfileReport.AggregateEvents | tools/build_polymarket_profile_report.py:546-594 | the dictionary loop yields one row per event key, in order of first appearance, with the totals of its positions |
| ProfileReport.EventTotalsGrow | tools/build_polymarket_profile_report.py:572-583 | what one more position adds to its own event's totals, and that it adds nothing to others |
| ProfileReport.GroupKeysGrow | tools/build_polymarket_profile_report.py:558-572 | one more position brings its event in last, unless the event is known |
| ProfileReport.EventBalances | tools/build_polymarket_profile_report.py:572-583 | per event, wins, losses and break-evens add up to the closed positions |
| ProfileReport.CategoryMix | tools/build_polymarket_profile_report.py:626-659 | the bucket loop yields one row per category with the totals and number of its events |
| ProfileReport.CategoryTotalsGrow | tools/build_polymarket_profile_report.py:645-651 | what one more event adds to its own category's totals and count |
| ProfileReport.MixBySize | tools/build_polymarket_profile_report.py:655-659 | the mix lists each category's row once, larger absolute profit or loss first |
| ProfileReport.GroupsConserve | tools/build_polymarket_profile_report.py:546-659 | grouping by any key conserves totals |
| ProfileReport.SortKeepsSum | tools/build_polymarket_profile_report.py:659 | sorting the categories keeps their sum |
| ProfileReport.FlatPassSplits | tools/build_polymarket_profile_report.py:429-444 | the flat statistics are the totals of the keyed and of the unkeyed positions |
| ProfileReport.FlatStatsGrow | tools/build_polymarket_profile_report.py:429-444 | what one more position adds to the flat statistics, a win or loss only when off zero by more than 1e-9, its cost bought times average price |
| ProfileReport.GroupingsReconcile | tools/build_polymarket_profile_report.py:429-659 | categories add up to events, and events with the unkeyed positions to the flat pass, in closed count, wins, losses, cost and profit |
| ProfileReport.EventsCompleteIffKeyed | tools/build_polymarket_profile_report.py:558-560 | the events account for every position if and only if every position has a key |
| ProfileReport.KeylessWinMissing | tools/build_polymarket_profile_report.py:558-560 | a winning position without a key: one win in the flat pass and no event |
| Drawdown.DrawdownSummary | tools/build_risk_ladder_calibration.py:343-390 | the one-pass loop computes counts, total, worst event, drawdown and trough of the time-ordered rows |
| Drawdown.SummaryGrows | tools/build_risk_ladder_calibration.py:355-375 | what one more event does to cumulative net, peak, drawdown, wins and losses, its net with open value when given, else the cash flow |
| Drawdown.WorstIsLeast | tools/build_risk_ladder_calibration.py:364-365 | the worst event is the first one of the least net |
| Drawdown.SummaryCells | tools/build_risk_ladder_calibration.py:377-389 | the totals, worst event and trough carry the slug and net of the events they stand for |
| Drawdown.InTimeOrder | tools/build_risk_ladder_calibration.py:344 | rows are summed up in order of time, then of slug by code point |
| Drawdown.DrawdownIsLargestFall | tools/build_risk_ladder_calibration.py:367-375 | the result is the largest fall from any cumulative net, zero included, to a later one, and is attained |
| Drawdown.TroughIsFirst | tools/build_risk_ladder_calibration.py:373-379 | the recorded peak minus trough is the drawdown and the trough is the first point attaining it; no trough exactly when there is no drawdown |
| Drawdown.DrawdownBounds | tools/build_risk_ladder_calibration.py:364-375 | at least the worst single loss, at most all losses together |
| Drawdown.SummaryIgnoresRowOrder | tools/build_risk_ladder_calibration.py:344 | with distinct times and slugs the summary does not depend on the order of the rows |
| Bands.BandRowsForGroup | tools/analyze_market_microstructure.py:786-836 | the band rows of a group, or none after the early exit or without a touch |
| Bands.GainRows | tools/analyze_market_microstructure.py:801-835 | one row for each rebound gain after the first touch |
| Bands.BandRowIs | tools/analyze_market_microstructure.py:795-832 | a band row from the prices: touch, target at most 0.99, highest and lowest price from the touch on, and the flag |
| Bands.SecondsAre | tools/analyze_market_microstructure.py:805-811 | the seconds run from the touch to the first row at the target, never negative, when both times are known |
| Bands.NeverLowIff | tools/analyze_market_microstructure.py:788-790 | a group is skipped when it opened above 0.45 and every price stayed above 0.35 |
| Bands.GainsAre | tools/analyze_market_microstructure.py:803 | the five gains |
| Bands.AnalyzeGroup | tools/analyze_market_microstructure.py:849-852 | the band rows of every threshold, in order |
| Bands.BandReportedIffTouched | tools/analyze_market_microstructure.py:787-793 | up to 0.35 a band is reported exactly when touched; in general exactly when touched and not exited early |
| Bands.DefaultThresholdsNeverHidden | tools/analyze_market_microstructure.py:34-53 | no default threshold's touch is dropped by the early exit |
| Bands.HigherThresholdTouchesNoLater | tools/analyze_market_microstructure.py:790-795 | a higher threshold never touches later |
| Bands.ReboundedIffHit | tools/analyze_market_microstructure.py:803-832 | for all prices, thresholds and gains, the flag read off the future maximum agrees with the scan for a hit row exactly when the maximum is not zero or its replacement makes no difference; it always agrees for non-negative prices and the panels' thresholds and gains |
| Bands.LargerGainReboundsNoSooner | tools/analyze_market_microstructure.py:802-811 | a rebound at a larger gain implies one at a smaller gain, no later, for rows in time order |

## Left out

- TickNeverOversells: assumes that the exchange lists each plan outcome under the plan's token and that no held token is another token's outcome, because the order names only the outcome; RowsNeverOversell needs neither. Both assume non-negative resting sells.
- RunNeverOversells: a tick sees a snapshot that already contains every accepted order; a snapshot lagging behind a submission is not modelled. Fills are of buys and of sells whose status counts (UncountedFill says what the others do), and an order's status does not change while it rests. The same holds of StepNeverOversells and ExcessNeverGrows.
- StepNeverOversells: see RunNeverOversells.
- ExcessNeverGrows: see RunNeverOversells.
- TicksConverge: one position; its size does not change between the ticks, and every submitted order comes to rest in a counted status. TicksUnderChangingPeriods and SubmissionsBounded share this.
- CandidateKeepsOutcomes: assumes that no reaction's token is the outcome of another reaction's token.
- ScopeIsLeastFixpoint: assumes that the token fields of an item agree; so do ScopeIdempotent and TwoScopingsSettle.
- EventScopedClob: scoping is modelled before documented residual positions are removed; the counts, the event's token and slug lists and the residual sections are read off the modelled lists and are not part of the model.
- AutoProtect: the text of revision requests, sleeve and order metadata are not part of the reaction; whether a revision is required is.
- UltraLowProbe: one game-and-side group at a time; the loop over groups only concatenates their trades.
- AggregateEvents: titles, latest timestamps, trade counts and rates do not take part in the reconciliation.
- CategoryMix: win rate and return percentage are quotients of the modelled totals.
- BandRowsForGroup: the period, score-gap, drawdown and winner columns describe a row and decide nothing; the same holds of GainRows.
- GainRows: see BandRowsForGroup.
- TradeArithmetic: needs a price on the exit row; a scan that ends on a row without one records no return.
- Text handling: trimming, lower-casing of fields and the resolution of alias keys; the slug of a strategy identifier covers ASCII letters and digits.
- The stable key of a trade is the tuple of its joined fields; collisions through separator characters inside a field are not modelled.
- Floating-point representation; sizes with more than six decimals and the rounding of drawdown amounts.
- The detection of unknown orders and trades, their revision-request texts, sleeve metadata and order metadata: the reactions enter as arbitrary lists.
- Known external order identifiers, event-start detection, order-book watches and the other evidence a tick gathers: parameters or not part of the model.
- Residual classification, portfolio simulation and language-model review: not part of the model.
- Trade counts, titles, latest timestamps, win rates and return percentages of the profile report: single additions and divisions.
- The scenario combiner of the risk ladder, the group-by and summary tables around the scan and band rows, and the candidate buckets of the ranking: each adds up or filters rows one by one, with no state carried between them.
- HTTP, database, files, argument parsing and report rendering.
