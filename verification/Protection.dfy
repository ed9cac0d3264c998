/**
  One live tick: walk the positions of the event, work out what resting sells do not cover,
  and propose or submit a protective sell for the next slice.
*/
module Protection {
  import opened Wrappers
  import opened Prices
  import opened Plans
  import opened Targets
  import opened Waterfall
  import opened CandidatePlan

  /** Everything a tick is given besides the account snapshot. */
  datatype Tick = Tick(
    eventId: string, plan: Plan, enabled: bool, execute: bool, liveMoney: bool, integrityReady: bool,
    minSize: int, deltaCents: real, states: map<string, OutcomeState>, startExpiry: bool)

  datatype Blocker = ExecuteFlagRequired | LiveMoneyFlagRequired | IntegrityNotReady | PositionTokenMissing

  datatype CoveredEntry = CoveredEntry(token: string, size: int, openSells: int, dust: bool)

  datatype HoldReason = BelowMinimum | OutcomeMissing | PriceMissing | PlanTargetReview | TargetBelowMinimum

  datatype SellOrder = SellOrder(
    market: string, outcome: string, price: real, size: int, policy: Policy, planTarget: bool, afterStart: bool,
    strategyId: Option<string>)

  datatype Recommendation = Held(reason: HoldReason, token: string, uncovered: int) | Proposed(order: SellOrder)

  /** The portfolio API's answer to an order POST. */
  datatype Response = Response(ok: bool, externalIds: seq<string>)

  datatype Intervention = Intervention(
    market: string, outcome: string, token: string, submitted: bool, externalIds: seq<string>)

  datatype Reaction = Reaction(
    checked: bool,
    blocked: seq<Blocker>,
    covered: seq<CoveredEntry>,
    recommended: seq<Recommendation>,
    submitted: seq<SellOrder>,
    interventions: seq<Intervention>,
    reviews: seq<PositionReaction>,
    positionReactions: seq<PositionReaction>,
    revisionRequired: bool,
    candidate: Option<Plan>)

  // ----- what a tick knows about one position row -----

  datatype Facts = Facts(
    openSells: int, uncovered: int, replacement: bool, ref: Option<OutcomeRef>, avgPrice: Option<real>,
    state: OutcomeState, matches: seq<Strategy>, picked: Option<nat>)

  function AvgPrice(p: Position): Option<real> {
    if p.avgPrice.Some? then p.avgPrice
    else if p.currentValue.Some? && p.size > 0 then Some(Quotient(p.currentValue.value * 1000000.0, p.size as real))
    else None
  }

  function RefFor(t: Tick, token: string): Option<OutcomeRef> {
    if token in Lookup(t.plan) then Some(Lookup(t.plan)[token]) else None
  }

  function StateFor(t: Tick, ref: Option<OutcomeRef>): OutcomeState {
    if ref.Some? && ref.value.outcome in t.states then t.states[ref.value.outcome] else NO_STATE
  }

  function MatchesFor(t: Tick, token: string, ref: Option<OutcomeRef>): seq<Strategy> {
    if ref.None? then []
    else PositionStrategies(t.plan.strategies, Query(token, ref.value.outcome, StateFor(t, ref).period))
  }

  function FactsOf(t: Tick, orders: seq<Order>, p: Position): (f: Facts)
    ensures f.picked.Some? ==> f.picked.value < |f.matches|
    ensures f.uncovered >= 0
  {
    var open := OpenSells(orders, p.token);
    var uncovered := Max(0, p.size - open);
    var missing := MissingTargets(t.plan, p.token, OpenOrderIds(orders));
    var ref := RefFor(t, p.token);
    var matches := MatchesFor(t, p.token, ref);
    Facts(open, uncovered, t.startExpiry && missing != {} && uncovered >= t.minSize && open <= 0, ref, AvgPrice(p),
          StateFor(t, ref), matches, PickedIndex(matches, Some(open)))
  }

  // ----- adverse review -----

  function ExitPrice(state: OutcomeState): Option<real> {
    if state.bestBid.Some? then state.bestBid else state.price
  }

  predicate StopTriggered(rules: StopRules, avgPrice: real, state: OutcomeState) {
    var current := ExitPrice(state);
    || (rules.stopPrice.Some? && current.Some? && current.value <= rules.stopPrice.value)
    || (rules.maxAdverseCents.Some? && current.Some?
        && DeltaCents(avgPrice, current.value) >= rules.maxAdverseCents.value)
    || (rules.scoreGap.Some? && state.scoreGap.Some? && state.scoreGap.value <= -Abs(rules.scoreGap.value))
  }

  predicate AdverseMove(f: Facts) {
    && f.ref.Some? && f.avgPrice.Some? && f.matches != [] && f.matches[0].stop.Some?
    && StopTriggered(f.matches[0].stop.value, f.avgPrice.value, f.state)
  }

  function ReviewOf(f: Facts, p: Position): PositionReaction
    requires AdverseMove(f)
  {
    PositionReaction("position_adverse_move", p.token,
                     if p.outcomeLabel != "" then p.outcomeLabel else f.matches[0].side,
                     p.size, f.openSells, f.uncovered, f.avgPrice, false)
  }

  // ----- the verdict on one row -----

  predicate IsCovered(t: Tick, f: Facts) {
    !AdverseMove(f) && (f.uncovered <= 0 || (f.openSells > 0 && f.uncovered < t.minSize))
  }

  function Owner(f: Facts): Option<Strategy>
    requires f.picked.Some? ==> f.picked.value < |f.matches|
  {
    if f.picked.None? then None else Some(f.matches[f.picked.value])
  }

  predicate StrategyOwned(f: Facts)
    requires f.picked.Some? ==> f.picked.value < |f.matches|
  {
    Owner(f).Some? && !f.replacement && Owner(f).value.family !in OPERATOR_FAMILIES
  }

  predicate PlanTarget(f: Facts)
    requires f.picked.Some? ==> f.picked.value < |f.matches|
  {
    StrategyOwned(f) && TargetRequired(Owner(f).value)
  }

  function PositionReactionOf(f: Facts, p: Position): PositionReaction
    requires f.picked.Some? ==> f.picked.value < |f.matches|
  {
    PositionReaction(
      if f.replacement then "replace_event_start_expired_target_order"
      else if PlanTarget(f) then "place_strategy_plan_target_order"
      else if StrategyOwned(f) then "strategy_owned_position_target_review_required"
      else "adopt_operator_position",
      p.token, p.outcomeLabel, p.size, f.openSells, f.uncovered, p.avgPrice, f.replacement || PlanTarget(f))
  }

  function Recommend(t: Tick, f: Facts, p: Position): Recommendation
    requires f.picked.Some? ==> f.picked.value < |f.matches|
  {
    if f.uncovered < t.minSize then Held(BelowMinimum, p.token, f.uncovered)
    else if f.ref.None? then Held(OutcomeMissing, p.token, f.uncovered)
    else if f.avgPrice.None? then Held(PriceMissing, p.token, f.uncovered)
    else if StrategyOwned(f) && !PlanTarget(f) then Held(PlanTargetReview, p.token, f.uncovered)
    else
      var size := TargetSize(f.matches, f.picked, f.uncovered, f.openSells);
      if size < t.minSize then Held(TargetBelowMinimum, p.token, f.uncovered)
      else
        var target := TargetPrice(Owner(f), f.avgPrice.value, t.deltaCents, f.state);
        Proposed(SellOrder(f.ref.value.market, f.ref.value.outcome, target.price, size, target.policy, PlanTarget(f),
                           f.replacement, if Owner(f).Some? then Some(Owner(f).value.id) else None))
  }

  predicate OfEvent(t: Tick, p: Position) { MatchesAlias(p.slug, t.eventId, t.plan) }

  predicate Considered(t: Tick, p: Position) { OfEvent(t, p) && p.token != "" }

  // ----- contributions of one row to the reaction -----

  function RowCovered(t: Tick, orders: seq<Order>, p: Position): seq<CoveredEntry> {
    var f := FactsOf(t, orders, p);
    if Considered(t, p) && IsCovered(t, f) then [CoveredEntry(p.token, p.size, f.openSells, f.uncovered > 0)] else []
  }

  function RowReviews(t: Tick, orders: seq<Order>, p: Position): seq<PositionReaction> {
    var f := FactsOf(t, orders, p);
    if Considered(t, p) && AdverseMove(f) then [ReviewOf(f, p)] else []
  }

  function RowReactions(t: Tick, orders: seq<Order>, p: Position): seq<PositionReaction> {
    var f := FactsOf(t, orders, p);
    RowReviews(t, orders, p) + (if Considered(t, p) && !IsCovered(t, f) then [PositionReactionOf(f, p)] else [])
  }

  function RowRecommended(t: Tick, orders: seq<Order>, p: Position): seq<Recommendation> {
    var f := FactsOf(t, orders, p);
    if Considered(t, p) && !IsCovered(t, f) then [Recommend(t, f, p)] else []
  }

  function RowProposed(t: Tick, orders: seq<Order>, p: Position): (r: seq<SellOrder>)
    ensures |r| <= 1
  {
    var f := FactsOf(t, orders, p);
    if Considered(t, p) && !IsCovered(t, f) && Recommend(t, f, p).Proposed? then [Recommend(t, f, p).order] else []
  }

  function RowBlocked(t: Tick, p: Position): seq<Blocker> {
    if OfEvent(t, p) && p.token == "" then [PositionTokenMissing] else []
  }

  // ----- the reaction as a whole -----

  function Gates(t: Tick): seq<Blocker> {
    (if t.execute then [] else [ExecuteFlagRequired])
    + (if t.liveMoney then [] else [LiveMoneyFlagRequired])
    + (if t.integrityReady then [] else [IntegrityNotReady])
  }

  function Blocked(t: Tick, ps: seq<Position>, n: nat): seq<Blocker>
    requires n <= |ps|
  {
    if n == 0 then Gates(t) else Blocked(t, ps, n - 1) + RowBlocked(t, ps[n - 1])
  }

  function CoveredRows(t: Tick, orders: seq<Order>, ps: seq<Position>, n: nat): seq<CoveredEntry>
    requires n <= |ps|
  {
    if n == 0 then [] else CoveredRows(t, orders, ps, n - 1) + RowCovered(t, orders, ps[n - 1])
  }

  function Reviews(t: Tick, orders: seq<Order>, ps: seq<Position>, n: nat): seq<PositionReaction>
    requires n <= |ps|
  {
    if n == 0 then [] else Reviews(t, orders, ps, n - 1) + RowReviews(t, orders, ps[n - 1])
  }

  function Reactions(t: Tick, orders: seq<Order>, ps: seq<Position>, n: nat): seq<PositionReaction>
    requires n <= |ps|
  {
    if n == 0 then [] else Reactions(t, orders, ps, n - 1) + RowReactions(t, orders, ps[n - 1])
  }

  function Recommended(t: Tick, orders: seq<Order>, ps: seq<Position>, n: nat): seq<Recommendation>
    requires n <= |ps|
  {
    if n == 0 then [] else Recommended(t, orders, ps, n - 1) + RowRecommended(t, orders, ps[n - 1])
  }

  /** Proposals of the first `n` rows, submitted or not. */
  function ProposedRows(t: Tick, orders: seq<Order>, ps: seq<Position>, n: nat): seq<SellOrder>
    requires n <= |ps|
  {
    if n == 0 then [] else ProposedRows(t, orders, ps, n - 1) + RowProposed(t, orders, ps[n - 1])
  }

  /** How many leading rows come before the first row of the event without a token. */
  function RowsBeforeTokenless(t: Tick, ps: seq<Position>, n: nat): (m: nat)
    requires n <= |ps|
    ensures m <= n
  {
    if n == 0 then 0
    else
      var m := RowsBeforeTokenless(t, ps, n - 1);
      if m == n - 1 && RowBlocked(t, ps[n - 1]) == [] then n else m
  }

  /** With every gate open, the proposals before the first token-less row are submitted; otherwise nothing is. */
  function SubmittedRows(t: Tick, orders: seq<Order>, ps: seq<Position>, n: nat): seq<SellOrder>
    requires n <= |ps|
  {
    if Gates(t) != [] then [] else ProposedRows(t, orders, ps, RowsBeforeTokenless(t, ps, n))
  }

  function Submitted(t: Tick, orders: seq<Order>, ps: seq<Position>): seq<SellOrder> {
    if t.enabled then SubmittedRows(t, orders, ps, |ps|) else []
  }

  predicate NeedsRevision(rs: seq<PositionReaction>) {
    exists r :: r in rs && !r.skipRevision
  }

  // ----- the loop -----

  function InterventionFor(order: SellOrder, token: string, response: Response): Intervention {
    Intervention(order.market, order.outcome, token, response.ok, response.externalIds)
  }

  /** The API's answer to the n-th order of a tick. */
  type Api = (nat, SellOrder) -> Response

  /** The record of a row's order, the `posted`-th of the tick, under the row's token. */
  function RowInterventions(row: seq<SellOrder>, token: string, posted: nat, api: Api): seq<Intervention> {
    if row == [] then [] else [InterventionFor(row[0], token, api(posted, row[0]))]
  }

  /** The intervention records of the first `n` rows. */
  function Interventions(t: Tick, orders: seq<Order>, ps: seq<Position>, n: nat, api: Api): seq<Intervention>
    requires n <= |ps|
  {
    if n == 0 then []
    else
      Interventions(t, orders, ps, n - 1, api)
      + (if Blocked(t, ps, n - 1) != [] then []
         else RowInterventions(RowProposed(t, orders, ps[n - 1]), ps[n - 1].token,
                               |SubmittedRows(t, orders, ps, n - 1)|, api))
  }

  method GatherFacts(t: Tick, orders: seq<Order>, lookup: map<string, OutcomeRef>, p: Position) returns (f: Facts)
    requires lookup == Lookup(t.plan)
    ensures f == FactsOf(t, orders, p)
  {
    var open := OpenSellSizeForToken(orders, p.token);
    var uncovered := Max(0, p.size - open);
    var missing := MissingPlanTargetOrderIds(t.plan, p.token, OpenOrderIds(orders));
    var replacement := t.startExpiry && missing != {} && uncovered >= t.minSize && open <= 0;
    var ref := if p.token in lookup then Some(lookup[p.token]) else None;
    var state := if ref.Some? && ref.value.outcome in t.states then t.states[ref.value.outcome] else NO_STATE;
    var matches := [];
    if ref.Some? {
      matches := PositionStrategiesFromPlan(t.plan.strategies, Query(p.token, ref.value.outcome, state.period));
    }
    var picked := PickStrategy(matches, Some(open));
    f := Facts(open, uncovered, replacement, ref, AvgPrice(p), state, matches, picked);
  }

  /** The lists of a reaction while the loop is filling them. */
  class ReactionBook {
    var blocked: seq<Blocker>
    var covered: seq<CoveredEntry>
    var recommended: seq<Recommendation>
    var submitted: seq<SellOrder>
    var interventions: seq<Intervention>
    var reviews: seq<PositionReaction>
    var reactions: seq<PositionReaction>

    constructor (t: Tick)
      ensures blocked == Gates(t)
      ensures covered == [] && recommended == [] && submitted == [] && interventions == []
      ensures reviews == [] && reactions == []
    {
      blocked := (if t.execute then [] else [ExecuteFlagRequired])
               + (if t.liveMoney then [] else [LiveMoneyFlagRequired])
               + (if t.integrityReady then [] else [IntegrityNotReady]);
      covered, recommended, submitted, interventions, reviews, reactions := [], [], [], [], [], [];
    }

    /** Submits an order and records the intervention, unless something blocks submission. */
    method Place(order: SellOrder, token: string, api: Api)
      modifies this`recommended, this`submitted, this`interventions
      ensures recommended == old(recommended) + [Proposed(order)]
      ensures submitted == old(submitted) + (if blocked == [] then [order] else [])
      ensures interventions == old(interventions)
                + (if blocked == [] then [InterventionFor(order, token, api(|old(submitted)|, order))] else [])
    {
      recommended := recommended + [Proposed(order)];
      if blocked != [] {
        return;
      }
      var response := api(|submitted|, order);
      submitted := submitted + [order];
      interventions := interventions + [InterventionFor(order, token, response)];
    }

    /** The part of a row after it is found uncovered: react, then hold or place an order. */
    method Protect(t: Tick, f: Facts, p: Position, api: Api)
      requires f.picked.Some? ==> f.picked.value < |f.matches|
      modifies this`recommended, this`submitted, this`interventions, this`reactions
      ensures reactions == old(reactions) + [PositionReactionOf(f, p)]
      ensures recommended == old(recommended) + [Recommend(t, f, p)]
      ensures submitted == old(submitted)
                + (if blocked == [] && Recommend(t, f, p).Proposed? then [Recommend(t, f, p).order] else [])
      ensures interventions == old(interventions)
                + (if blocked == [] && Recommend(t, f, p).Proposed?
                   then RowInterventions([Recommend(t, f, p).order], p.token, |old(submitted)|, api) else [])
    {
      hide TargetPrice, StrategyOwned, PlanTarget, TargetSize, PositionReactionOf;
      reactions := reactions + [PositionReactionOf(f, p)];
      var owner := Owner(f);
      if f.uncovered < t.minSize {
        recommended := recommended + [Held(BelowMinimum, p.token, f.uncovered)];
        return;
      }
      if f.ref.None? {
        recommended := recommended + [Held(OutcomeMissing, p.token, f.uncovered)];
        return;
      }
      if f.avgPrice.None? {
        recommended := recommended + [Held(PriceMissing, p.token, f.uncovered)];
        return;
      }
      if StrategyOwned(f) && !PlanTarget(f) {
        recommended := recommended + [Held(PlanTargetReview, p.token, f.uncovered)];
        return;
      }
      var target := TargetPrice(owner, f.avgPrice.value, t.deltaCents, f.state);
      var size := PositionTargetSize(f.matches, f.picked, f.uncovered, f.openSells);
      if size < t.minSize {
        recommended := recommended + [Held(TargetBelowMinimum, p.token, f.uncovered)];
        return;
      }
      Place(SellOrder(f.ref.value.market, f.ref.value.outcome, target.price, size, target.policy, PlanTarget(f),
                      f.replacement, if owner.Some? then Some(owner.value.id) else None), p.token, api);
    }

    /** One pass of the position loop. */
    method ProtectRow(
      t: Tick, orders: seq<Order>, lookup: map<string, OutcomeRef>, p: Position, api: Api)
      requires lookup == Lookup(t.plan)
      modifies this
      ensures blocked == old(blocked) + RowBlocked(t, p)
      ensures covered == old(covered) + RowCovered(t, orders, p)
      ensures recommended == old(recommended) + RowRecommended(t, orders, p)
      ensures reviews == old(reviews) + RowReviews(t, orders, p)
      ensures reactions == old(reactions) + RowReactions(t, orders, p)
      ensures submitted == old(submitted) + (if old(blocked) == [] then RowProposed(t, orders, p) else [])
      ensures interventions == old(interventions)
                + (if old(blocked) != [] then []
                   else RowInterventions(RowProposed(t, orders, p), p.token, |old(submitted)|, api))
    {
      hide FactsOf, AdverseMove, PositionReactionOf, Recommend, ReviewOf;
      if !OfEvent(t, p) {
        return;
      }
      if p.token == "" {
        blocked := blocked + [PositionTokenMissing];
        return;
      }
      var f := GatherFacts(t, orders, lookup, p);
      var reviewed := AdverseMove(f);
      if reviewed {
        reviews := reviews + [ReviewOf(f, p)];
        reactions := reactions + [ReviewOf(f, p)];
      }
      if !reviewed && f.uncovered <= 0 {
        covered := covered + [CoveredEntry(p.token, p.size, f.openSells, false)];
        return;
      }
      if !reviewed && f.openSells > 0 && f.uncovered < t.minSize {
        covered := covered + [CoveredEntry(p.token, p.size, f.openSells, true)];
        return;
      }
      Protect(t, f, p, api);
    }
  }

  method AutoProtect(
    t: Tick, ps: seq<Position>, orders: seq<Order>, os: seq<OrderReaction>, ts: seq<TradeReaction>,
    api: Api)
    returns (r: Reaction)
    ensures !t.enabled ==> r == Reaction(false, [], [], [], [], [], [], [], false, None)
    ensures t.enabled ==>
              && r.checked
              && r.blocked == Blocked(t, ps, |ps|)
              && r.covered == CoveredRows(t, orders, ps, |ps|)
              && r.recommended == Recommended(t, orders, ps, |ps|)
              && r.reviews == Reviews(t, orders, ps, |ps|)
              && r.positionReactions == Reactions(t, orders, ps, |ps|)
              && r.revisionRequired == (os != [] || ts != [] || NeedsRevision(Reactions(t, orders, ps, |ps|)))
              && r.candidate == Candidate(t.eventId, t.plan, Reactions(t, orders, ps, |ps|), os, ts)
    ensures r.submitted == Submitted(t, orders, ps)
    ensures r.submitted != [] ==> t.enabled && t.execute && t.liveMoney && t.integrityReady
    ensures r.interventions == if t.enabled then Interventions(t, orders, ps, |ps|, api) else []
  {
    if !t.enabled {
      return Reaction(false, [], [], [], [], [], [], [], false, None);
    }
    assert Submitted(t, orders, ps) == SubmittedRows(t, orders, ps, |ps|);
    RowsStart(t, orders, ps);
    assert Interventions(t, orders, ps, 0, api) == [];
    hide *;
    var book := new ReactionBook(t);
    var lookup := PlanOutcomeLookup(t.plan);
    for i := 0 to |ps|
      invariant book.blocked == Blocked(t, ps, i)
      invariant book.covered == CoveredRows(t, orders, ps, i)
      invariant book.recommended == Recommended(t, orders, ps, i)
      invariant book.reviews == Reviews(t, orders, ps, i)
      invariant book.reactions == Reactions(t, orders, ps, i)
      invariant book.submitted == SubmittedRows(t, orders, ps, i)
      invariant book.interventions == Interventions(t, orders, ps, i, api)
    {
      RowsStep(t, orders, ps, i);
      InterventionsStep(t, orders, ps, i, api);
      book.ProtectRow(t, orders, lookup, ps[i], api);
    }
    var candidate := OperatorPlanCandidate(t.eventId, t.plan, book.reactions, os, ts);
    r := Reaction(true, book.blocked, book.covered, book.recommended, book.submitted, book.interventions, book.reviews,
                  book.reactions, os != [] || ts != [] || NeedsRevision(book.reactions), candidate);
  }

  lemma InterventionsStep(t: Tick, orders: seq<Order>, ps: seq<Position>, n: nat, api: Api)
    requires n < |ps|
    ensures Interventions(t, orders, ps, n + 1, api)
         == Interventions(t, orders, ps, n, api)
            + (if Blocked(t, ps, n) != [] then []
               else RowInterventions(RowProposed(t, orders, ps[n]), ps[n].token,
                                     |SubmittedRows(t, orders, ps, n)|, api))
  {
    hide RowInterventions, Blocked, SubmittedRows, RowProposed;
  }

  /**
    Blockers only accumulate: rows are still unblocked exactly while all gates are open and every
    token was present.
  */
  lemma {:induction false} BlockedStep(t: Tick, ps: seq<Position>, n: nat)
    requires n < |ps|
    ensures Blocked(t, ps, n) == [] <==> Gates(t) == [] && RowsBeforeTokenless(t, ps, n) == n
    ensures Blocked(t, ps, n + 1) == Blocked(t, ps, n) + RowBlocked(t, ps[n])
  {
    if n > 0 {
      BlockedStep(t, ps, n - 1);
    }
  }

  lemma RowsStart(t: Tick, orders: seq<Order>, ps: seq<Position>)
    ensures Blocked(t, ps, 0) == Gates(t)
    ensures CoveredRows(t, orders, ps, 0) == [] && Recommended(t, orders, ps, 0) == []
    ensures Reviews(t, orders, ps, 0) == [] && Reactions(t, orders, ps, 0) == []
    ensures SubmittedRows(t, orders, ps, 0) == []
  {
  }

  lemma RowsStep(t: Tick, orders: seq<Order>, ps: seq<Position>, n: nat)
    requires n < |ps|
    ensures Blocked(t, ps, n + 1) == Blocked(t, ps, n) + RowBlocked(t, ps[n])
    ensures CoveredRows(t, orders, ps, n + 1) == CoveredRows(t, orders, ps, n) + RowCovered(t, orders, ps[n])
    ensures Recommended(t, orders, ps, n + 1) == Recommended(t, orders, ps, n) + RowRecommended(t, orders, ps[n])
    ensures Reviews(t, orders, ps, n + 1) == Reviews(t, orders, ps, n) + RowReviews(t, orders, ps[n])
    ensures Reactions(t, orders, ps, n + 1) == Reactions(t, orders, ps, n) + RowReactions(t, orders, ps[n])
    ensures SubmittedRows(t, orders, ps, n + 1)
         == SubmittedRows(t, orders, ps, n) + (if Blocked(t, ps, n) == [] then RowProposed(t, orders, ps[n]) else [])
  {
    hide RowCovered, RowReviews, RowReactions, RowRecommended, RowProposed, RowBlocked, Gates, SubmittedRows;
    BlockedStep(t, ps, n);
    SubmittedStep(t, orders, ps, n);
  }

  lemma SubmittedStep(t: Tick, orders: seq<Order>, ps: seq<Position>, n: nat)
    requires n < |ps|
    ensures SubmittedRows(t, orders, ps, n + 1)
         == SubmittedRows(t, orders, ps, n) + (if Blocked(t, ps, n) == [] then RowProposed(t, orders, ps[n]) else [])
  {
    hide RowProposed, RowBlocked, Gates, Blocked;
    BlockedStep(t, ps, n);
    TokenlessProposesNothing(t, orders, ps[n]);
  }

  lemma TokenlessProposesNothing(t: Tick, orders: seq<Order>, p: Position)
    ensures RowBlocked(t, p) != [] ==> RowProposed(t, orders, p) == []
  {
  }
}
