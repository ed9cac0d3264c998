/** What holds of one tick, for every plan, snapshot and gate setting. */
module TickLaws {
  import opened Wrappers
  import opened Prices
  import opened Plans
  import opened Waterfall
  import opened Protection

  // ----- every position is accounted for once -----

  function ConsideredRows(t: Tick, ps: seq<Position>, n: nat): nat
    requires n <= |ps|
  {
    if n == 0 then 0 else ConsideredRows(t, ps, n - 1) + (if Considered(t, ps[n - 1]) then 1 else 0)
  }

  /** Each position of the event that carries a token is reported either as covered or with one recommendation. */
  lemma {:induction false} EveryPositionAccountedOnce(t: Tick, orders: seq<Order>, ps: seq<Position>, n: nat)
    requires n <= |ps|
    ensures |CoveredRows(t, orders, ps, n)| + |Recommended(t, orders, ps, n)| == ConsideredRows(t, ps, n)
  {
    if n > 0 {
      hide FactsOf, IsCovered, Recommend;
      EveryPositionAccountedOnce(t, orders, ps, n - 1);
    }
  }

  // ----- blockers -----

  lemma {:induction false} BlockersAccumulate(t: Tick, ps: seq<Position>, m: nat, n: nat)
    requires m <= n <= |ps|
    ensures Blocked(t, ps, m) <= Blocked(t, ps, n)
  {
    if m < n {
      BlockersAccumulate(t, ps, m, n - 1);
    }
  }

  /** Once anything blocks, no later row submits. */
  lemma {:induction false} NothingSubmittedOnceBlocked(t: Tick, orders: seq<Order>, ps: seq<Position>, m: nat, n: nat)
    requires m <= n <= |ps|
    requires Blocked(t, ps, m) != []
    ensures SubmittedRows(t, orders, ps, n) == SubmittedRows(t, orders, ps, m)
  {
    hide *;
    if m < n {
      NothingSubmittedOnceBlocked(t, orders, ps, m, n - 1);
      BlockersAccumulate(t, ps, m, n - 1);
      RowsStep(t, orders, ps, n - 1);
    }
  }

  /** While nothing blocks, every proposal is submitted. */
  lemma {:induction false} EverythingSubmittedWhileOpen(t: Tick, orders: seq<Order>, ps: seq<Position>, n: nat)
    requires n <= |ps|
    requires Blocked(t, ps, n) == []
    ensures SubmittedRows(t, orders, ps, n) == ProposedRows(t, orders, ps, n)
  {
    hide *;
    if n == 0 {
      RowsStart(t, orders, ps);
      NothingProposedYet(t, orders, ps);
    } else {
      BlockersAccumulate(t, ps, n - 1, n);
      EverythingSubmittedWhileOpen(t, orders, ps, n - 1);
      RowsStep(t, orders, ps, n - 1);
      ProposedStep(t, orders, ps, n - 1);
    }
  }

  lemma NothingProposedYet(t: Tick, orders: seq<Order>, ps: seq<Position>)
    ensures ProposedRows(t, orders, ps, 0) == []
  {
  }

  lemma ProposedStep(t: Tick, orders: seq<Order>, ps: seq<Position>, n: nat)
    requires n < |ps|
    ensures ProposedRows(t, orders, ps, n + 1) == ProposedRows(t, orders, ps, n) + RowProposed(t, orders, ps[n])
  {
  }

  /**
    Submissions and intervention records correspond one to one: the i-th record carries the API's
    answer to the i-th order of the tick and the token of the row that order protects.
  */
  lemma {:induction false} InterventionsMatchOrders(
    t: Tick, orders: seq<Order>, ps: seq<Position>, n: nat, api: Api, i: nat)
    returns (row: nat)
    requires n <= |ps| && i < |SubmittedRows(t, orders, ps, n)|
    ensures |Interventions(t, orders, ps, n, api)| == |SubmittedRows(t, orders, ps, n)|
    ensures var o := SubmittedRows(t, orders, ps, n)[i];
            && row < n && RowProposed(t, orders, ps[row]) == [o]
            && Interventions(t, orders, ps, n, api)[i] == InterventionFor(o, ps[row].token, api(i, o))
  {
    hide *;
    row := 0;
    if n == 0 {
      RowsStart(t, orders, ps);
    } else {
      RowsStep(t, orders, ps, n - 1);
      InterventionsStep(t, orders, ps, n - 1, api);
      InterventionsCount(t, orders, ps, n - 1, api);
      OneRow(t, orders, ps[n - 1], |SubmittedRows(t, orders, ps, n - 1)|, api);
      if i < |SubmittedRows(t, orders, ps, n - 1)| {
        row := InterventionsMatchOrders(t, orders, ps, n - 1, api, i);
      } else {
        row := n - 1;
      }
    }
  }

  lemma OneRow(t: Tick, orders: seq<Order>, p: Position, posted: nat, api: Api)
    ensures var row := RowProposed(t, orders, p);
            var records := RowInterventions(row, p.token, posted, api);
            && |row| == |records| <= 1
            && (row != [] ==> row == [row[0]] && records == [InterventionFor(row[0], p.token, api(posted, row[0]))])
  {
    hide InterventionFor;
  }

  lemma {:induction false} InterventionsCount(t: Tick, orders: seq<Order>, ps: seq<Position>, n: nat, api: Api)
    requires n <= |ps|
    ensures |Interventions(t, orders, ps, n, api)| == |SubmittedRows(t, orders, ps, n)|
  {
    hide *;
    if n == 0 {
      RowsStart(t, orders, ps);
      NoInterventions(t, orders, ps, api);
    } else {
      InterventionsCount(t, orders, ps, n - 1, api);
      RowsStep(t, orders, ps, n - 1);
      InterventionsStep(t, orders, ps, n - 1, api);
      OneRow(t, orders, ps[n - 1], |SubmittedRows(t, orders, ps, n - 1)|, api);
    }
  }

  lemma NoInterventions(t: Tick, orders: seq<Order>, ps: seq<Position>, api: Api)
    ensures Interventions(t, orders, ps, 0, api) == []
  {
  }

  // ----- adverse review -----

  /** A stop that triggers at some exit price triggers at every lower one, other quotes being equal. */
  lemma StopStaysTriggered(rules: StopRules, avgPrice: real, state: OutcomeState, lower: OutcomeState)
    requires StopTriggered(rules, avgPrice, state)
    requires ExitPrice(state).Some? ==> ExitPrice(lower).Some? && ExitPrice(lower).value <= ExitPrice(state).value
    requires lower.scoreGap == state.scoreGap
    ensures StopTriggered(rules, avgPrice, lower)
  {
    hide RoundTo, RoundAt;
    if ExitPrice(state).Some? {
      FourDecimalsMonotone((avgPrice - ExitPrice(state).value) * 100.0, (avgPrice - ExitPrice(lower).value) * 100.0);
    }
  }

  // ----- how large an order is, and where it lands -----

  /** The exchange's own pairing of outcomes with tokens. */
  type Listing = map<string, string>

  ghost predicate AgreesWith(plan: Plan, listing: Listing) {
    forall s :: s in plan.strategies && Mapped(plan, s) ==>
      s.entry.outcomeId in listing && listing[s.entry.outcomeId] == s.entry.tokenId
  }

  predicate LandsOn(o: SellOrder, listing: Listing, token: string) {
    o.outcome in listing && listing[o.outcome] == token
  }

  /**
    The token is no other token's outcome.  It may be its own: a tick that cannot resolve the
    outcome of a strategy writes the token there.
  */
  predicate NotAnothersOutcome(listing: Listing, token: string) {
    token in listing ==> listing[token] == token
  }

  lemma MappedTokenLands(plan: Plan, listing: Listing, token: string)
    requires AgreesWith(plan, listing) && token in Lookup(plan) && NotAnothersOutcome(listing, token)
    ensures Lookup(plan)[token].outcome in listing && listing[Lookup(plan)[token].outcome] == token
  {
    var i := LookupFrom(plan, |plan.strategies|, token);
    assert plan.strategies[i] in plan.strategies;
  }

  /**
    A proposal never sells more than its row has uncovered; where the plan pairs outcomes and
    tokens as the exchange does, it sells on the row's own token.
  */
  lemma ProposalWithinUncovered(t: Tick, orders: seq<Order>, p: Position, listing: Listing, o: SellOrder)
    requires o in RowProposed(t, orders, p)
    ensures 0 <= o.size <= Max(0, p.size - OpenSells(orders, p.token))
    ensures AgreesWith(t.plan, listing) && NotAnothersOutcome(listing, p.token) ==> LandsOn(o, listing, p.token)
  {
    hide IsCovered, AdverseMove, StrategyOwned, PlanTarget, Targets.TargetPrice, PositionStrategies, MissingTargets,
      AgreesWith;
    var f := FactsOf(t, orders, p);
    assert Considered(t, p) && Recommend(t, f, p) == Proposed(o);
    if AgreesWith(t.plan, listing) && NotAnothersOutcome(listing, p.token) {
      MappedTokenLands(t.plan, listing, p.token);
    }
    TargetSizeBounded(f.matches, f.picked, f.uncovered, f.openSells);
  }

  /** Shares held on a token, over all rows naming it. */
  function Holding(ps: seq<Position>, token: string): (h: int)
    ensures h >= 0
  {
    if ps == [] then 0
    else
      var n := |ps| - 1;
      Holding(ps[..n], token) + (if ps[n].token == token then Max(0, ps[n].size) else 0)
  }

  /** Uncovered size of the rows of a token, each row measured against all its resting sells. */
  function Room(ps: seq<Position>, openSells: int, token: string): (r: int)
    ensures r >= 0
  {
    if ps == [] then 0
    else
      var n := |ps| - 1;
      Room(ps[..n], openSells, token) + (if ps[n].token == token then Max(0, ps[n].size - openSells) else 0)
  }

  /** Rows sharing a token cannot together propose more than the token still has uncovered. */
  lemma {:induction false} RoomWithinHoldings(ps: seq<Position>, openSells: int, token: string)
    requires openSells >= 0
    ensures Room(ps, openSells, token) == 0 || openSells + Room(ps, openSells, token) <= Holding(ps, token)
  {
    if ps != [] {
      RoomWithinHoldings(ps[..|ps| - 1], openSells, token);
    }
  }

  lemma RoomStep(ps: seq<Position>, n: nat, openSells: int, token: string)
    requires n < |ps|
    ensures Room(ps[..n + 1], openSells, token)
         == Room(ps[..n], openSells, token) + (if ps[n].token == token then Max(0, ps[n].size - openSells) else 0)
  {
    assert ps[..n + 1][..n] == ps[..n];
  }

  lemma {:induction false} RoomGrows(ps: seq<Position>, n: nat, openSells: int, token: string)
    requires n <= |ps|
    ensures Room(ps[..n], openSells, token) <= Room(ps, openSells, token)
  {
    if n == |ps| {
      assert ps[..n] == ps;
    } else {
      assert ps[..|ps| - 1][..n] == ps[..n];
      RoomGrows(ps[..|ps| - 1], n, openSells, token);
    }
  }

  // ----- one tick never oversells -----

  /** Shares one row proposes to sell. */
  function RowSize(t: Tick, orders: seq<Order>, p: Position): int {
    var row := RowProposed(t, orders, p);
    if row == [] then 0 else row[0].size
  }

  /** Shares the first `n` rows propose to sell, counted on the token of the row they protect. */
  function SoldByRows(t: Tick, orders: seq<Order>, ps: seq<Position>, n: nat, token: string): int
    requires n <= |ps|
  {
    if n == 0 then 0
    else
      SoldByRows(t, orders, ps, n - 1, token) + (if ps[n - 1].token == token then RowSize(t, orders, ps[n - 1]) else 0)
  }

  /** How many leading rows have their proposals submitted. */
  function SubmittingRows(t: Tick, ps: seq<Position>): (n: nat)
    ensures n <= |ps|
  {
    if t.enabled && Gates(t) == [] then RowsBeforeTokenless(t, ps, |ps|) else 0
  }

  lemma SubmittedAreProposed(t: Tick, orders: seq<Order>, ps: seq<Position>)
    ensures Submitted(t, orders, ps) == ProposedRows(t, orders, ps, SubmittingRows(t, ps))
  {
    hide RowProposed;
  }

  lemma {:induction false} SoldWithinRoom(t: Tick, orders: seq<Order>, ps: seq<Position>, n: nat, token: string)
    requires n <= |ps|
    ensures 0 <= SoldByRows(t, orders, ps, n, token) <= Room(ps[..n], OpenSells(orders, token), token)
  {
    hide OpenSells, RowProposed, Room;
    if n > 0 {
      SoldWithinRoom(t, orders, ps, n - 1, token);
      RoomStep(ps, n - 1, OpenSells(orders, token), token);
      var row := RowProposed(t, orders, ps[n - 1]);
      if row != [] { ProposalWithinUncovered(t, orders, ps[n - 1], map[], row[0]); }
    }
  }

  /**
    One tick never oversells, under any plan: resting sells plus everything the tick submits for
    the rows of a token stay within the larger of what already rested and what is held, even when
    several rows share the token.
  */
  lemma RowsNeverOversell(t: Tick, orders: seq<Order>, ps: seq<Position>, token: string)
    requires OpenSells(orders, token) >= 0
    ensures Submitted(t, orders, ps) == ProposedRows(t, orders, ps, SubmittingRows(t, ps))
    ensures 0 <= SoldByRows(t, orders, ps, SubmittingRows(t, ps), token)
    ensures OpenSells(orders, token) + SoldByRows(t, orders, ps, SubmittingRows(t, ps), token)
         <= Max(OpenSells(orders, token), Holding(ps, token))
  {
    hide ProposedRows, SubmittingRows, OpenSells, Room, Holding, SoldByRows;
    SubmittedAreProposed(t, orders, ps);
    var n := SubmittingRows(t, ps);
    SoldWithinRoom(t, orders, ps, n, token);
    RoomGrows(ps, n, OpenSells(orders, token), token);
    RoomWithinHoldings(ps, OpenSells(orders, token), token);
  }

  // ----- the same, counted where the exchange lists the orders -----

  function SoldOn(os: seq<SellOrder>, listing: Listing, token: string): int {
    if os == [] then 0
    else
      var n := |os| - 1;
      SoldOn(os[..n], listing, token) + (if LandsOn(os[n], listing, token) then os[n].size else 0)
  }

  ghost predicate TokensUnambiguous(ps: seq<Position>, listing: Listing) {
    forall p :: p in ps ==> NotAnothersOutcome(listing, p.token)
  }

  lemma UnambiguousAt(ps: seq<Position>, listing: Listing, i: nat)
    requires TokensUnambiguous(ps, listing) && i < |ps|
    ensures NotAnothersOutcome(listing, ps[i].token)
  {
    assert ps[i] in ps;
  }

  lemma RowSoldWhereListed(
    t: Tick, orders: seq<Order>, p: Position, before: seq<SellOrder>, listing: Listing, token: string)
    requires AgreesWith(t.plan, listing) && NotAnothersOutcome(listing, p.token)
    ensures SoldOn(before + RowProposed(t, orders, p), listing, token)
         == SoldOn(before, listing, token) + (if p.token == token then RowSize(t, orders, p) else 0)
  {
    hide AgreesWith;
    var row := RowProposed(t, orders, p);
    hide RowProposed;
    if row == [] {
      assert before + row == before;
    } else {
      assert row == [row[0]] && (before + row)[..|before|] == before;
      ProposalWithinUncovered(t, orders, p, listing, row[0]);
    }
  }

  lemma SoldByStep(t: Tick, orders: seq<Order>, ps: seq<Position>, n: nat, token: string)
    requires n < |ps|
    ensures SoldByRows(t, orders, ps, n + 1, token)
         == SoldByRows(t, orders, ps, n, token) + (if ps[n].token == token then RowSize(t, orders, ps[n]) else 0)
  {
    hide RowSize;
  }

  lemma NothingSold(t: Tick, orders: seq<Order>, ps: seq<Position>, listing: Listing, token: string)
    ensures SoldOn([], listing, token) == 0 == SoldByRows(t, orders, ps, 0, token)
  {
  }

  /** Where plan and exchange agree, what rests on a token is what its rows sold. */
  lemma {:induction false} SoldWhereListed(
    t: Tick, orders: seq<Order>, ps: seq<Position>, n: nat, listing: Listing, token: string)
    requires n <= |ps|
    requires AgreesWith(t.plan, listing) && TokensUnambiguous(ps, listing)
    ensures SoldOn(ProposedRows(t, orders, ps, n), listing, token) == SoldByRows(t, orders, ps, n, token)
  {
    hide *;
    if n == 0 {
      NothingProposedYet(t, orders, ps);
      NothingSold(t, orders, ps, listing, token);
    } else {
      SoldWhereListed(t, orders, ps, n - 1, listing, token);
      UnambiguousAt(ps, listing, n - 1);
      ProposedStep(t, orders, ps, n - 1);
      SoldByStep(t, orders, ps, n - 1, token);
      RowSoldWhereListed(t, orders, ps[n - 1], ProposedRows(t, orders, ps, n - 1), listing, token);
    }
  }

  /** One tick never oversells, counting every submitted order on the token the exchange lists for its outcome. */
  lemma TickNeverOversells(t: Tick, orders: seq<Order>, ps: seq<Position>, listing: Listing, token: string)
    requires AgreesWith(t.plan, listing) && TokensUnambiguous(ps, listing)
    requires OpenSells(orders, token) >= 0
    ensures 0 <= SoldOn(Submitted(t, orders, ps), listing, token)
    ensures OpenSells(orders, token) + SoldOn(Submitted(t, orders, ps), listing, token)
         <= Max(OpenSells(orders, token), Holding(ps, token))
  {
    hide *;
    RowsNeverOversell(t, orders, ps, token);
    SoldWhereListed(t, orders, ps, SubmittingRows(t, ps), listing, token);
  }

  // ----- the gates, flag by flag -----

  /** Nothing is submitted unless the tick is enabled and all three gate flags are set. */
  lemma SubmissionNeedsEveryFlag(t: Tick, orders: seq<Order>, ps: seq<Position>)
    ensures Submitted(t, orders, ps) != [] ==> t.enabled && t.execute && t.liveMoney && t.integrityReady
  {
    hide ProposedRows;
  }

  /** Each gate's reason blocks exactly when its flag is not set; a missing token, when a row of the event lacks one. */
  lemma {:induction false} BlockedExactly(t: Tick, ps: seq<Position>, n: nat)
    requires n <= |ps|
    ensures ExecuteFlagRequired in Blocked(t, ps, n) <==> !t.execute
    ensures LiveMoneyFlagRequired in Blocked(t, ps, n) <==> !t.liveMoney
    ensures IntegrityNotReady in Blocked(t, ps, n) <==> !t.integrityReady
    ensures PositionTokenMissing in Blocked(t, ps, n) <==> exists i :: 0 <= i < n && LacksToken(t, ps[i])
  {
    if n > 0 {
      hide OfEvent;
      BlockedExactly(t, ps, n - 1);
    }
  }

  predicate LacksToken(t: Tick, p: Position) { OfEvent(t, p) && p.token == "" }

  /** With every flag set and no row of the event lacking a token, every proposal is submitted. */
  lemma OpenGatesSubmitAll(t: Tick, orders: seq<Order>, ps: seq<Position>)
    requires t.enabled && t.execute && t.liveMoney && t.integrityReady
    requires forall i :: 0 <= i < |ps| ==> !LacksToken(t, ps[i])
    ensures Submitted(t, orders, ps) == ProposedRows(t, orders, ps, |ps|)
  {
    BlockedExactly(t, ps, |ps|);
    var blocked := Blocked(t, ps, |ps|);
    hide Blocked, ProposedRows, OfEvent, Gates;
    if blocked != [] {
      assert blocked[0] in blocked;
      match blocked[0] {
        case ExecuteFlagRequired =>
        case LiveMoneyFlagRequired =>
        case IntegrityNotReady =>
        case PositionTokenMissing =>
      }
    }
    EverythingSubmittedWhileOpen(t, orders, ps, |ps|);
  }

  // ----- the verdict on a row, in plain fields -----

  /** What a row leaves uncovered by the counted sells on its token. */
  function Uncovered(orders: seq<Order>, p: Position): int {
    if p.size > OpenSells(orders, p.token) then p.size - OpenSells(orders, p.token) else 0
  }

  predicate PriceKnown(p: Position) { p.avgPrice != None || (p.currentValue != None && p.size > 0) }

  /** The average price, else the current value per share. */
  lemma AvgPriceIs(p: Position)
    ensures p.avgPrice.Some? ==> AvgPrice(p) == p.avgPrice
    ensures p.avgPrice.None? && p.currentValue.Some? && p.size > 0 ==>
              AvgPrice(p).Some? && Product(AvgPrice(p).value, p.size as real / 1000000.0) == p.currentValue.value
    ensures AvgPrice(p).Some? <==> PriceKnown(p)
  {
    if p.avgPrice.None? && p.currentValue.Some? && p.size > 0 {
      QuotientUnique(AvgPrice(p).value, p.currentValue.value * 1000000.0, p.size as real);
      hide Quotient;
      assert AvgPrice(p).value * (p.size as real / 1000000.0) == AvgPrice(p).value * p.size as real / 1000000.0;
    }
  }

  /** The target orders that expired at the start of the event are replaced while nothing else rests. */
  predicate Replaces(t: Tick, orders: seq<Order>, p: Position) {
    && t.startExpiry && MissingTargets(t.plan, p.token, OpenOrderIds(orders)) != {}
    && Uncovered(orders, p) >= t.minSize && OpenSells(orders, p.token) <= 0
  }

  predicate OperatorFamily(s: Strategy) {
    s.family == "operator_position_management" || s.family == "operator_order_management"
  }

  /** The strategy that owns the row's next slice, if any matches. */
  function OwnerOf(t: Tick, orders: seq<Order>, p: Position): Option<Strategy> { Owner(FactsOf(t, orders, p)) }

  /** The plan itself asks for a target, or an operator or nobody owns the row. */
  predicate MayPropose(t: Tick, orders: seq<Order>, p: Position) {
    var owner := OwnerOf(t, orders, p);
    owner.None? || Replaces(t, orders, p) || OperatorFamily(owner.value) || TargetRequired(owner.value)
  }

  function ProposedSize(t: Tick, orders: seq<Order>, p: Position): int {
    var f := FactsOf(t, orders, p);
    TargetSize(f.matches, f.picked, Uncovered(orders, p), OpenSells(orders, p.token))
  }

  predicate Reviewed(t: Tick, orders: seq<Order>, p: Position) { AdverseMove(FactsOf(t, orders, p)) }

  /** The facts of a row are its own. */
  lemma FactsAre(t: Tick, orders: seq<Order>, p: Position)
    ensures var f := FactsOf(t, orders, p);
            && f.openSells == OpenSells(orders, p.token) && f.uncovered == Uncovered(orders, p)
            && (f.replacement <==> Replaces(t, orders, p))
            && (f.ref.Some? <==> p.token in Lookup(t.plan))
            && (f.ref.Some? ==> f.ref.value == Lookup(t.plan)[p.token])
            && f.avgPrice == AvgPrice(p)
  {
    hide OpenSells, MissingTargets, OpenOrderIds, Lookup, AvgPrice, PositionStrategies, PickedIndex;
  }

  lemma OwnersMayPropose(t: Tick, orders: seq<Order>, p: Position)
    ensures var f := FactsOf(t, orders, p);
            (StrategyOwned(f) && !PlanTarget(f)) <==> !MayPropose(t, orders, p)
  {
    FactsAre(t, orders, p);
    hide FactsOf, Replaces, TargetRequired;
  }

  /**
    Exactly when a row of a tick yields a sell.  The row belongs to the event and names a token;
    at least a minimum order is uncovered, and something is, unless an adverse review fired; its
    outcome is mapped and its price known; its owner may propose; and the owner's slice is at
    least a minimum order.
  */
  lemma RowProposesIff(t: Tick, orders: seq<Order>, p: Position)
    ensures RowProposed(t, orders, p) != []
       <==> && (p.slug == "" || p.slug == t.eventId || p.slug in t.plan.aliases) && p.token != ""
            && Uncovered(orders, p) >= t.minSize && (Uncovered(orders, p) > 0 || Reviewed(t, orders, p))
            && p.token in Lookup(t.plan) && PriceKnown(p)
            && MayPropose(t, orders, p) && ProposedSize(t, orders, p) >= t.minSize
  {
    var f := FactsOf(t, orders, p);
    FactsAre(t, orders, p);
    OwnersMayPropose(t, orders, p);
    AvgPriceIs(p);
    hide FactsOf, AdverseMove, StrategyOwned, PlanTarget, MayPropose, TargetSize, Targets.TargetPrice, Lookup, AvgPrice,
      Uncovered, PriceKnown;
  }

  /** A row whose size is within the live, open and submitted sells on its token sells nothing without a review. */
  lemma CoveredRowSellsNothing(t: Tick, orders: seq<Order>, p: Position)
    requires p.size <= OpenSells(orders, p.token) && !Reviewed(t, orders, p)
    ensures RowProposed(t, orders, p) == []
  {
    RowProposesIff(t, orders, p);
    hide RowProposed, Reviewed, OpenSells, MayPropose, ProposedSize, Lookup;
  }

  /** A mapped outcome and a known price are what a sell is made of. */
  predicate Priceable(t: Tick, p: Position) { p.token in Lookup(t.plan) && AvgPrice(p).Some? }

  /** What the sell of a row says. */
  predicate SellSays(t: Tick, orders: seq<Order>, p: Position, o: SellOrder)
    requires Priceable(t, p)
  {
    var ref := Lookup(t.plan)[p.token];
    var owner := OwnerOf(t, orders, p);
    var state := if ref.outcome in t.states then t.states[ref.outcome] else NO_STATE;
    var target := Targets.TargetPrice(owner, AvgPrice(p).value, t.deltaCents, state);
    && o.market == ref.market && o.outcome == ref.outcome && o.size == ProposedSize(t, orders, p)
    && o.price == target.price && o.policy == target.policy
    && o.strategyId == (if owner.Some? then Some(owner.value.id) else None)
    && (o.afterStart <==> Replaces(t, orders, p))
    && (o.planTarget <==> owner.Some? && !Replaces(t, orders, p)
                          && !OperatorFamily(owner.value) && TargetRequired(owner.value))
  }

  lemma RecommendedOrderIs(t: Tick, f: Facts, p: Position)
    requires f.picked.Some? ==> f.picked.value < |f.matches|
    requires Recommend(t, f, p).Proposed?
    ensures f.ref.Some? && f.avgPrice.Some?
    ensures var o := Recommend(t, f, p).order;
            var target := Targets.TargetPrice(Owner(f), f.avgPrice.value, t.deltaCents, f.state);
            o == SellOrder(f.ref.value.market, f.ref.value.outcome, target.price,
                           TargetSize(f.matches, f.picked, f.uncovered, f.openSells), target.policy, PlanTarget(f),
                           f.replacement, if Owner(f).Some? then Some(Owner(f).value.id) else None)
  {
    hide TargetSize, Targets.TargetPrice, PlanTarget, StrategyOwned, Owner;
  }

  lemma RowRecommends(t: Tick, orders: seq<Order>, p: Position)
    requires RowProposed(t, orders, p) != []
    ensures Recommend(t, FactsOf(t, orders, p), p).Proposed?
    ensures RowProposed(t, orders, p) == [Recommend(t, FactsOf(t, orders, p), p).order]
  {
    hide FactsOf, Recommend, IsCovered;
  }

  lemma PlanTargetIs(t: Tick, orders: seq<Order>, p: Position)
    ensures var owner := OwnerOf(t, orders, p);
            PlanTarget(FactsOf(t, orders, p))
            <==> owner.Some? && !Replaces(t, orders, p) && !OperatorFamily(owner.value) && TargetRequired(owner.value)
  {
    FactsAre(t, orders, p);
    hide FactsOf, Replaces, TargetRequired;
  }

  lemma ProposalIs(t: Tick, orders: seq<Order>, p: Position)
    requires RowProposed(t, orders, p) != []
    ensures Priceable(t, p) && SellSays(t, orders, p, RowProposed(t, orders, p)[0])
  {
    RowRecommends(t, orders, p);
    RecommendedOrderIs(t, FactsOf(t, orders, p), p);
    FactsAre(t, orders, p);
    PlanTargetIs(t, orders, p);
    hide FactsOf, RowProposed, Recommend, TargetSize, Targets.TargetPrice, PlanTarget, Lookup, AvgPrice, TargetRequired,
      Replaces, Owner, Uncovered;
    StateIs(t, orders, p);
  }

  lemma StateIs(t: Tick, orders: seq<Order>, p: Position)
    requires p.token in Lookup(t.plan)
    ensures var outcome := Lookup(t.plan)[p.token].outcome;
            FactsOf(t, orders, p).state == if outcome in t.states then t.states[outcome] else NO_STATE
  {
    hide OpenSells, MissingTargets, OpenOrderIds, Lookup, AvgPrice, PositionStrategies, PickedIndex;
  }

  /** Why an uncovered row is held back: the first of the five reasons that applies. */
  lemma HeldFor(t: Tick, orders: seq<Order>, p: Position)
    ensures var held := (reason: HoldReason) => Held(reason, p.token, Uncovered(orders, p));
            var advice := Recommend(t, FactsOf(t, orders, p), p);
            if Uncovered(orders, p) < t.minSize then advice == held(BelowMinimum)
            else if p.token !in Lookup(t.plan) then advice == held(OutcomeMissing)
            else if !PriceKnown(p) then advice == held(PriceMissing)
            else if !MayPropose(t, orders, p) then advice == held(PlanTargetReview)
            else if ProposedSize(t, orders, p) < t.minSize then advice == held(TargetBelowMinimum)
            else advice.Proposed?
  {
    FactsAre(t, orders, p);
    OwnersMayPropose(t, orders, p);
    AvgPriceIs(p);
    hide FactsOf, AdverseMove, StrategyOwned, PlanTarget, MayPropose, TargetSize, Targets.TargetPrice, Lookup, AvgPrice,
      Uncovered, PriceKnown;
  }

  /** Exactly when a row counts as covered, and when only dust below the minimum is left over. */
  lemma RowCoveredIff(t: Tick, orders: seq<Order>, p: Position)
    ensures var open := OpenSells(orders, p.token);
            var covered := && (p.slug == "" || p.slug == t.eventId || p.slug in t.plan.aliases) && p.token != ""
                           && !Reviewed(t, orders, p)
                           && (p.size <= open || (open > 0 && p.size - open < t.minSize));
            RowCovered(t, orders, p) == if covered then [CoveredEntry(p.token, p.size, open, p.size > open)] else []
  {
    FactsAre(t, orders, p);
    hide FactsOf, AdverseMove, OpenSells, Replaces, Lookup, AvgPrice;
  }

  /** The exit price is the best bid, else the price. */
  function ExitQuote(state: OutcomeState): Option<real> { if state.bestBid != None then state.bestBid else state.price }

  /**
    When a stop triggers: the exit quote is at or below the stop price, or it lies the allowed
    cents below the average price, or the score trails by the stop's gap, whatever its sign.
  */
  lemma StopTriggeredIff(rules: StopRules, avgPrice: real, state: OutcomeState)
    ensures var quote := ExitQuote(state);
            StopTriggered(rules, avgPrice, state)
            <==> || (quote.Some? && rules.stopPrice.Some? && quote.value <= rules.stopPrice.value)
                 || (quote.Some? && rules.maxAdverseCents.Some?
                     && RoundTo((avgPrice - quote.value) * 100.0, 4) >= rules.maxAdverseCents.value)
                 || (state.scoreGap.Some? && rules.scoreGap.Some?
                     && state.scoreGap.value <= rules.scoreGap.value && state.scoreGap.value <= -rules.scoreGap.value)
  {
    hide RoundTo;
  }

  /** The review looks at the first-ranked match, and needs a mapped outcome and a known price. */
  lemma ReviewedIff(t: Tick, orders: seq<Order>, p: Position)
    ensures Reviewed(t, orders, p)
       <==> && p.token in Lookup(t.plan) && PriceKnown(p)
            && var outcome := Lookup(t.plan)[p.token].outcome;
               var state := if outcome in t.states then t.states[outcome] else NO_STATE;
               var ranked := PositionStrategies(t.plan.strategies, Query(p.token, outcome, state.period));
            && ranked != [] && ranked[0].stop.Some?
            && StopTriggered(ranked[0].stop.value, AvgPrice(p).value, state)
  {
    FactsAre(t, orders, p);
    AvgPriceIs(p);
    MatchesAre(t, orders, p);
    hide FactsOf, AvgPrice, StopTriggered, PositionStrategies, Lookup, Replaces, PriceKnown;
  }

  lemma MatchesAre(t: Tick, orders: seq<Order>, p: Position)
    ensures p.token in Lookup(t.plan) ==>
              var outcome := Lookup(t.plan)[p.token].outcome;
              var state := if outcome in t.states then t.states[outcome] else NO_STATE;
              var f := FactsOf(t, orders, p);
              && f.state == state
              && f.matches == PositionStrategies(t.plan.strategies, Query(p.token, outcome, state.period))
              && f.picked == PickedIndex(f.matches, Some(OpenSells(orders, p.token)))
  {
    hide OpenSells, MissingTargets, OpenOrderIds, Lookup, AvgPrice, PositionStrategies, PickedIndex;
  }

  /** What a reaction to an uncovered row is called, and when it asks for no revision. */
  lemma ReactionIs(t: Tick, orders: seq<Order>, p: Position)
    ensures var r := PositionReactionOf(FactsOf(t, orders, p), p);
            var owner := OwnerOf(t, orders, p);
            var owned := owner.Some? && !Replaces(t, orders, p) && !OperatorFamily(owner.value);
            && r.action == (if Replaces(t, orders, p) then "replace_event_start_expired_target_order"
                            else if !owned then "adopt_operator_position"
                            else if TargetRequired(owner.value) then "place_strategy_plan_target_order"
                            else "strategy_owned_position_target_review_required")
            && (r.skipRevision <==> Replaces(t, orders, p) || (owned && TargetRequired(owner.value)))
            && r.token == p.token && r.outcomeLabel == p.outcomeLabel && r.size == p.size && r.avgPrice == p.avgPrice
            && r.openSells == OpenSells(orders, p.token) && r.uncovered == Uncovered(orders, p)
  {
    FactsAre(t, orders, p);
    hide FactsOf, AdverseMove, Replaces, TargetRequired, OpenSells, Lookup, AvgPrice;
  }

  /** An adverse review names the row, labels it by the strategy's side at need, and asks for a revision. */
  lemma ReviewIs(t: Tick, orders: seq<Order>, p: Position)
    requires Reviewed(t, orders, p)
    ensures var f := FactsOf(t, orders, p);
            var r := ReviewOf(f, p);
            && r.action == "position_adverse_move" && r.token == p.token && r.size == p.size && !r.skipRevision
            && r.outcomeLabel == (if p.outcomeLabel != "" then p.outcomeLabel else f.matches[0].side)
            && r.openSells == OpenSells(orders, p.token) && r.uncovered == Uncovered(orders, p)
            && r.avgPrice == AvgPrice(p)
  {
    FactsAre(t, orders, p);
    hide FactsOf, Replaces, OpenSells, Lookup, AvgPrice, StopTriggered, Uncovered;
  }

  /** An intervention names the order's market and outcome and the row's token, with the API's answer. */
  lemma InterventionIs(o: SellOrder, token: string, answer: Response)
    ensures var record := InterventionFor(o, token, answer);
            && record.market == o.market && record.outcome == o.outcome && record.token == token
            && record.submitted == answer.ok && record.externalIds == answer.externalIds
  {
  }
}
