/**
  Strategy plans and account snapshots as the live tick reads them.

  Text fields are already trimmed (and lower-cased where the source lower-cases them); a blank
  string is a missing field.  Sizes are integer micro-shares, so the source's 1e-9 tolerances
  are exact comparisons.
*/
module Plans {
  import opened Wrappers
  import opened Prices

  datatype PeriodGate = PeriodGate(allowed: Option<seq<Option<int>>>, first: Option<int>, last: Option<int>)

  const NO_GATE := PeriodGate(None, None, None)

  datatype EntryRules = EntryRules(
    tokenId: string,
    assetId: string,
    outcomeId: string,
    marketId: string,
    size: Option<int>,
    shares: Option<int>,
    periods: PeriodGate,
    disabled: bool,
    maxOpenPositions: int)

  datatype ExitRules = ExitRules(targetRequired: Option<bool>, coverExcess: bool, prices: PriceRules)

  datatype StopRules = StopRules(stopPrice: Option<real>, maxAdverseCents: Option<real>, scoreGap: Option<real>)

  datatype Strategy = Strategy(
    id: string,
    family: string,
    side: string,
    size: Option<int>,
    budget: int,
    maxPositions: int,
    shadowOnly: bool,
    entry: EntryRules,
    exit: ExitRules,
    stop: Option<StopRules>)

  /** A `portfolio_reconciliation` record of a plan. */
  datatype Reconciliation = Reconciliation(
    action: string, side: string, policy: string, token: string, outcome: string, outcomeLabel: string,
    externalOrderId: string)

  /** `aliases` are the event names written anywhere in the plan. */
  datatype Plan = Plan(
    marketId: string, aliases: set<string>, strategies: seq<Strategy>, reconciliations: seq<Reconciliation>)

  /** Live quotes and score of one outcome; every field may be missing. */
  datatype OutcomeState = OutcomeState(
    price: Option<real>, teamPrice: Option<real>, currentPrice: Option<real>, bestAsk: Option<real>, ask: Option<real>,
    bestBid: Option<real>, scoreGap: Option<real>, period: Option<int>)

  const NO_STATE := OutcomeState(None, None, None, None, None, None, None, None)

  datatype Position = Position(
    slug: string, token: string, outcomeLabel: string, size: int, avgPrice: Option<real>, currentValue: Option<real>)

  datatype Order = Order(slug: string, token: string, side: string, status: string, size: int, externalId: string)

  datatype OutcomeRef = OutcomeRef(market: string, outcome: string, token: string)

  function EntryToken(rules: EntryRules): string {
    if rules.tokenId != "" then rules.tokenId else rules.assetId
  }

  predicate MatchesToken(rules: EntryRules, token: string, outcome: string) {
    || (EntryToken(rules) != "" && EntryToken(rules) == token)
    || (rules.outcomeId != "" && rules.outcomeId == outcome)
  }

  predicate Given(size: Option<int>) { size.Some? && size.value != 0 }

  /** The first of the entry size, entry shares and strategy size that is neither missing nor zero. */
  function EntrySize(s: Strategy): Option<int> {
    if Given(s.entry.size) then s.entry.size
    else if Given(s.entry.shares) then s.entry.shares
    else if Given(s.size) then s.size
    else None
  }

  const TARGET_FAMILIES := {"price_stability_micro_grid", "core_hold_live_validation"}

  predicate TargetRequired(s: Strategy) {
    if s.exit.targetRequired.Some? then s.exit.targetRequired.value
    else s.family in TARGET_FAMILIES
  }

  const OPERATOR_FAMILIES := {"operator_position_management", "operator_order_management"}

  const OPEN_STATUSES := {"live", "open", "submitted"}

  predicate CountedSell(o: Order, token: string) {
    o.side == "sell" && o.token == token && o.status in OPEN_STATUSES
  }

  /** Total size of the resting sells on a token. */
  function OpenSells(orders: seq<Order>, token: string): int {
    if orders == [] then 0
    else
      var n := |orders| - 1;
      OpenSells(orders[..n], token) + (if CountedSell(orders[n], token) then orders[n].size else 0)
  }

  method OpenSellSizeForToken(orders: seq<Order>, token: string) returns (total: int)
    ensures total == OpenSells(orders, token)
  {
    total := 0;
    for i := 0 to |orders|
      invariant total == OpenSells(orders[..i], token)
    {
      assert orders[..i + 1][..i] == orders[..i];
      if orders[i].side == "sell" && orders[i].token == token && orders[i].status in {"live", "open", "submitted"} {
        total := total + orders[i].size;
      }
    }
    assert orders[..|orders|] == orders;
  }

  lemma {:induction false} OpenSellsAppend(a: seq<Order>, b: seq<Order>, token: string)
    ensures OpenSells(a + b, token) == OpenSells(a, token) + OpenSells(b, token)
  {
    if b == [] {
      assert a + b == a;
    } else {
      var n := |b| - 1;
      assert (a + b)[..|a| + n] == a + b[..n];
      OpenSellsAppend(a, b[..n], token);
    }
  }

  // ----- outcome lookup -----

  predicate Mapped(plan: Plan, s: Strategy) {
    s.entry.tokenId != "" && s.entry.outcomeId != "" && StrategyMarket(plan.marketId, s) != ""
  }

  function StrategyMarket(market: string, s: Strategy): string {
    if s.entry.marketId != "" then s.entry.marketId else market
  }

  function RefOf(plan: Plan, s: Strategy): OutcomeRef {
    OutcomeRef(StrategyMarket(plan.marketId, s), s.entry.outcomeId, s.entry.tokenId)
  }

  /** Token and outcome keys to market and outcome; later strategies overwrite earlier ones. */
  function LookupUpTo(plan: Plan, n: nat): map<string, OutcomeRef>
    requires n <= |plan.strategies|
  {
    if n == 0 then map[]
    else
      var before := LookupUpTo(plan, n - 1);
      var s := plan.strategies[n - 1];
      if Mapped(plan, s) then before[s.entry.tokenId := RefOf(plan, s)][s.entry.outcomeId := RefOf(plan, s)]
      else before
  }

  function Lookup(plan: Plan): map<string, OutcomeRef> {
    LookupUpTo(plan, |plan.strategies|)
  }

  method PlanOutcomeLookup(plan: Plan) returns (lookup: map<string, OutcomeRef>)
    ensures lookup == Lookup(plan)
  {
    lookup := map[];
    for i := 0 to |plan.strategies|
      invariant lookup == LookupUpTo(plan, i)
    {
      var s := plan.strategies[i];
      var market := if s.entry.marketId != "" then s.entry.marketId else plan.marketId;
      if s.entry.tokenId != "" && s.entry.outcomeId != "" && market != "" {
        var ref := OutcomeRef(market, s.entry.outcomeId, s.entry.tokenId);
        lookup := lookup[s.entry.tokenId := ref];
        lookup := lookup[s.entry.outcomeId := ref];
      }
    }
  }

  predicate Names(plan: Plan, s: Strategy, key: string) {
    Mapped(plan, s) && (s.entry.tokenId == key || s.entry.outcomeId == key)
  }

  /** The last strategy naming a key as its token or outcome decides what the key means. */
  lemma {:induction false} LookupIsLastNamed(plan: Plan, n: nat, key: string, i: nat)
    requires i < n <= |plan.strategies|
    requires Names(plan, plan.strategies[i], key)
    requires forall j :: i < j < n ==> !Names(plan, plan.strategies[j], key)
    ensures key in LookupUpTo(plan, n) && LookupUpTo(plan, n)[key] == RefOf(plan, plan.strategies[i])
  {
    if i < n - 1 {
      LookupIsLastNamed(plan, n - 1, key, i);
      assert !Names(plan, plan.strategies[n - 1], key);
    }
  }

  /** A key no strategy names is unmapped; a mapped key comes from some strategy naming it. */
  lemma {:induction false} LookupFrom(plan: Plan, n: nat, key: string) returns (i: nat)
    requires n <= |plan.strategies| && key in LookupUpTo(plan, n)
    ensures i < n && Names(plan, plan.strategies[i], key)
    ensures forall j :: i < j < n ==> !Names(plan, plan.strategies[j], key)
    ensures LookupUpTo(plan, n)[key] == RefOf(plan, plan.strategies[i])
  {
    if Names(plan, plan.strategies[n - 1], key) {
      i := n - 1;
    } else {
      i := LookupFrom(plan, n - 1, key);
    }
  }

  // ----- event aliases and target order ids -----

  predicate OneOf(slug: string, aliases: set<string>) { slug == "" || slug in aliases }

  predicate MatchesAlias(slug: string, eventId: string, plan: Plan) { OneOf(slug, {eventId} + plan.aliases) }

  const TARGET_WORD := "target"

  predicate WordAt(s: string, word: string, i: nat) {
    i + |word| <= |s| && s[i..i + |word|] == word
  }

  predicate MentionsTarget(s: string) {
    exists i :: 0 <= i < |s| && WordAt(s, TARGET_WORD, i)
  }

  /** A reconciliation record that names a target order for the token. */
  predicate NamesTargetOrder(r: Reconciliation, token: string) {
    && (r.token == "" || r.token == token)
    && (MentionsTarget(r.action) || r.side == "sell" || MentionsTarget(r.policy))
    && r.externalOrderId != ""
  }

  /** Target orders the plan expects that no longer rest on the book. */
  function MissingTargets(plan: Plan, token: string, openIds: set<string>): set<string> {
    set r | r in plan.reconciliations && NamesTargetOrder(r, token) && r.externalOrderId !in openIds
      :: r.externalOrderId
  }

  method MissingPlanTargetOrderIds(plan: Plan, token: string, openIds: set<string>) returns (missing: set<string>)
    ensures missing == MissingTargets(plan, token, openIds)
  {
    missing := {};
    for i := 0 to |plan.reconciliations|
      invariant missing == set r | r in plan.reconciliations[..i] && NamesTargetOrder(r, token)
                                   && r.externalOrderId !in openIds :: r.externalOrderId
    {
      var item := plan.reconciliations[i];
      assert plan.reconciliations[..i + 1] == plan.reconciliations[..i] + [item];
      if item.token != "" && item.token != token {
        continue;
      }
      if !MentionsTarget(item.action) && item.side != "sell" && !MentionsTarget(item.policy) {
        continue;
      }
      if item.externalOrderId != "" && item.externalOrderId !in openIds {
        missing := missing + {item.externalOrderId};
      }
    }
    assert plan.reconciliations[..|plan.reconciliations|] == plan.reconciliations;
  }

  function OpenOrderIds(orders: seq<Order>): set<string> {
    set o | o in orders && o.externalId != "" :: o.externalId
  }

  // ----- the same in plain fields -----

  /** One more resting order changes a token's counted size exactly when it is a live, open or submitted sell on it. */
  lemma CountedSizeGrows(orders: seq<Order>, o: Order, token: string)
    ensures OpenSells([], token) == 0
    ensures OpenSells(orders + [o], token)
         == OpenSells(orders, token)
            + (if && o.side == "sell" && o.token == token
                  && (o.status == "live" || o.status == "open" || o.status == "submitted")
               then o.size else 0)
  {
    assert (orders + [o])[..|orders|] == orders;
  }

  predicate Nonzero(size: Option<int>) { size != None && size != Some(0) }

  /** The entry rules' size wins over their shares, and both over the strategy's size; zero counts as missing. */
  lemma EntrySizeInOrder(s: Strategy)
    ensures Nonzero(s.entry.size) ==> EntrySize(s) == s.entry.size
    ensures !Nonzero(s.entry.size) && Nonzero(s.entry.shares) ==> EntrySize(s) == s.entry.shares
    ensures !Nonzero(s.entry.size) && !Nonzero(s.entry.shares) && Nonzero(s.size) ==> EntrySize(s) == s.size
    ensures !Nonzero(s.entry.size) && !Nonzero(s.entry.shares) && !Nonzero(s.size) ==> EntrySize(s) == None
  {
  }

  /** A strategy owns a token by its token id, by its asset id when it names no token, or by its outcome. */
  lemma MatchesTokenIff(rules: EntryRules, token: string, outcome: string)
    requires token != "" && outcome != ""
    ensures MatchesToken(rules, token, outcome)
       <==> rules.tokenId == token || (rules.tokenId == "" && rules.assetId == token) || rules.outcomeId == outcome
  {
  }

  /** The flag decides when given, else the family. */
  lemma TargetRequiredIff(s: Strategy)
    ensures TargetRequired(s)
       <==> || s.exit.targetRequired == Some(true)
            || (s.exit.targetRequired == None
                && (s.family == "price_stability_micro_grid" || s.family == "core_hold_live_validation"))
  {
  }

  /** One more strategy maps its token and its outcome, unless it lacks either or a market. */
  lemma LookupGrows(plan: Plan, s: Strategy)
    ensures var market := if s.entry.marketId != "" then s.entry.marketId else plan.marketId;
            var ref := OutcomeRef(market, s.entry.outcomeId, s.entry.tokenId);
            Lookup(plan.(strategies := plan.strategies + [s]))
            == if s.entry.tokenId == "" || s.entry.outcomeId == "" || market == "" then Lookup(plan)
               else Lookup(plan)[s.entry.tokenId := ref][s.entry.outcomeId := ref]
    ensures Lookup(plan.(strategies := [])) == map[]
  {
    LookupOfPrefix(plan, plan.(strategies := plan.strategies + [s]), |plan.strategies|);
  }

  lemma {:induction false} LookupOfPrefix(plan: Plan, longer: Plan, n: nat)
    requires n <= |plan.strategies| <= |longer.strategies| && plan.marketId == longer.marketId
    requires forall i :: 0 <= i < n ==> plan.strategies[i] == longer.strategies[i]
    ensures LookupUpTo(plan, n) == LookupUpTo(longer, n)
  {
    if n > 0 {
      LookupOfPrefix(plan, longer, n - 1);
    }
  }

  /** A text mentions a target exactly when it contains that word. */
  lemma MentionsTargetIff(s: string)
    ensures MentionsTarget(s) <==> exists before, after :: s == before + "target" + after
  {
    if i :| 0 <= i < |s| && WordAt(s, TARGET_WORD, i) {
      assert s == s[..i] + "target" + s[i + 6..];
    }
    if before, after :| s == before + "target" + after {
      assert s[|before|..|before| + 6] == "target";
      assert WordAt(s, TARGET_WORD, |before|);
    }
  }

  /** Which identifiers are missing targets, record by record. */
  lemma MissingTargetsExactly(plan: Plan, token: string, openIds: set<string>, id: string)
    ensures id in MissingTargets(plan, token, openIds)
       <==> && id != "" && id !in openIds
            && exists r :: r in plan.reconciliations && r.externalOrderId == id && (r.token == "" || r.token == token)
                           && (MentionsTarget(r.action) || MentionsTarget(r.policy) || r.side == "sell")
  {
    hide MentionsTarget;
  }

  /** A row belongs to the event when its slug is blank, the event's identifier or an alias of the plan. */
  lemma MatchesAliasIff(slug: string, eventId: string, plan: Plan)
    ensures MatchesAlias(slug, eventId, plan) <==> slug == "" || slug == eventId || slug in plan.aliases
  {
  }
}
