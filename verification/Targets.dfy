/** Resolving the price a protective sell should ask, from the owning strategy's exit rules. */
module Targets {
  import opened Wrappers
  import opened Prices
  import opened Plans

  datatype Policy = MicroGridScaled | ExplicitTarget | FallbackFixedDelta

  datatype Target = Target(price: real, policy: Policy, deltaCents: real)

  function FirstPrice(quotes: seq<Option<real>>): Option<real> {
    if quotes == [] then None
    else if quotes[0].Some? then quotes[0]
    else FirstPrice(quotes[1..])
  }

  /** The average price, unless the rules ask for a quote and a positive one is known. */
  function TargetBasis(avgPrice: real, rules: PriceRules, state: OutcomeState): real {
    if rules.basis !in QUOTE_BASES then avgPrice
    else
      var quote := FirstPrice([state.price, state.teamPrice, state.currentPrice, state.bestAsk, state.ask]);
      if quote.None? || quote.value <= 0.0 then avgPrice else quote.value
  }

  function DeltaCents(price: real, avgPrice: real): real {
    RoundTo((price - avgPrice) * 100.0, 4)
  }

  function TargetPrice(owner: Option<Strategy>, avgPrice: real, deltaCents: real, state: OutcomeState): Target {
    var fallback := Target(Normalize(avgPrice + deltaCents / 100.0, None, None), FallbackFixedDelta, deltaCents);
    if owner.None? then fallback
    else
      var rules := owner.value.exit.prices;
      var scaled := ScaledTarget(TargetBasis(avgPrice, rules, state), rules);
      if scaled.Some? then
        var price := Normalize(scaled.value, Positive(rules.tick), Positive(rules.floor));
        Target(price, MicroGridScaled, DeltaCents(price, avgPrice))
      else if rules.explicitTarget.Some? then
        var price := Normalize(rules.explicitTarget.value, Positive(rules.tick), Positive(rules.floor));
        Target(price, ExplicitTarget, DeltaCents(price, avgPrice))
      else fallback
  }

  /** The ask the chosen rule hands to the normalizer. */
  function Ask(owner: Option<Strategy>, avgPrice: real, deltaCents: real, state: OutcomeState): real {
    if owner.None? then avgPrice + deltaCents / 100.0
    else
      var rules := owner.value.exit.prices;
      var scaled := ScaledTarget(TargetBasis(avgPrice, rules, state), rules);
      if scaled.Some? then scaled.value else rules.explicitTarget.GetOr(avgPrice + deltaCents / 100.0)
  }

  /**
    Whichever rule decides it, another normalization with the same rules leaves a target price
    alone if and only if the ask settles, which it does for every tick of at most six decimals
    and without a tick.
  */
  lemma TargetPriceNormalized(owner: Option<Strategy>, avgPrice: real, deltaCents: real, state: OutcomeState)
    ensures var target := TargetPrice(owner, avgPrice, deltaCents, state);
            var ask := Ask(owner, avgPrice, deltaCents, state);
            var rules := if target.policy.FallbackFixedDelta? then NO_RULES else owner.value.exit.prices;
            && (Normalize(target.price, Positive(rules.tick), Positive(rules.floor)) == target.price
                <==> Settles(ask, Positive(rules.tick), Positive(rules.floor)))
            && (TickUsable(rules.tick) ==> Settles(ask, Positive(rules.tick), Positive(rules.floor)))
  {
    hide Normalize, ScaledTarget, TargetBasis, DeltaCents, Settles;
    NormalizeIdempotent(Ask(owner, avgPrice, deltaCents, state), None, None);
    if owner.Some? {
      var rules := owner.value.exit.prices;
      NormalizeIdempotent(Ask(owner, avgPrice, deltaCents, state), Positive(rules.tick), Positive(rules.floor));
    }
  }

  /**
    The price of a scaled target against the rules' own fields.  `requested` is the basis moved by
    the larger of the asked cents and the asked return, not below the floor and at most 0.95.
    With a tick of at most six decimals the price is the tick multiple in the tick just above it,
    up to 1e-12; with another tick it lies within two ticks and roundings; without one it is at
    most half of the fourth decimal below and less than a cent more than that above.
  */
  lemma ScaledTargetPriceBound(s: Strategy, avgPrice: real, deltaCents: real, state: OutcomeState)
    returns (k: int, requested: real)
    requires TargetPrice(Some(s), avgPrice, deltaCents, state).policy.MicroGridScaled?
    ensures Requests(TargetBasis(avgPrice, s.exit.prices, state), s.exit.prices, requested)
    ensures var rules := s.exit.prices;
            var price := TargetPrice(Some(s), avgPrice, deltaCents, state).price;
            if rules.tick.Some? && rules.tick.value > 0.0 then
              var tick := rules.tick.value;
              && requested - 0.000000000001 - HalfUnit(tick) <= price < requested + 2.0 * (tick + HalfUnit(tick))
              && (MicroTick(tick) ==>
                    && price == k as real * tick
                    && requested - 0.000000000001 <= price < requested - 0.000000000001 + tick)
            else
              requested - 0.00005 <= price < requested + 0.01005
  {
    hide Normalize, ScaledTarget, TargetBasis, DeltaCents, RequestedTarget, MicroTick, HalfUnit, SettlesAtOnce,
      Requests;
    var basis := TargetBasis(avgPrice, s.exit.prices, state);
    requested := RequestedTarget(basis, s.exit.prices);
    RequestedIs(basis, s.exit.prices);
    k := ScaledTargetBound(basis, s.exit.prices);
  }

  // ----- the same in plain fields -----

  predicate NamesQuote(basis: string) {
    || basis == "current_price" || basis == "entry_price" || basis == "latest_price" || basis == "market_price"
    || basis == "signal_price"
  }

  /**
    The basis is the average price unless the rules name a quote; then it is the first of price,
    team price, current price, best ask and ask that is given, if that is positive.
  */
  lemma TargetBasisIs(avgPrice: real, rules: PriceRules, state: OutcomeState)
    ensures var quote := if state.price != None then state.price
                         else if state.teamPrice != None then state.teamPrice
                         else if state.currentPrice != None then state.currentPrice
                         else if state.bestAsk != None then state.bestAsk
                         else state.ask;
            TargetBasis(avgPrice, rules, state)
            == if NamesQuote(rules.basis) && quote.Some? && quote.value > 0.0 then quote.value else avgPrice
  {
    var q0, q1, q2, q3 := [state.ask], [state.bestAsk, state.ask], [state.currentPrice, state.bestAsk, state.ask],
      [state.teamPrice, state.currentPrice, state.bestAsk, state.ask];
    hide FirstPrice;
    FirstPriceOf(state.ask, []);
    FirstPriceOf(state.bestAsk, q0);
    FirstPriceOf(state.currentPrice, q1);
    FirstPriceOf(state.teamPrice, q2);
    FirstPriceOf(state.price, q3);
    assert [state.price] + q3 == [state.price, state.teamPrice, state.currentPrice, state.bestAsk, state.ask];
    assert [state.teamPrice] + q2 == q3 && [state.currentPrice] + q1 == q2 && [state.bestAsk] + q0 == q1;
    assert [state.ask] + [] == q0;
  }

  lemma FirstPriceOf(quote: Option<real>, rest: seq<Option<real>>)
    ensures FirstPrice([quote] + rest) == if quote.Some? then quote else FirstPrice(rest)
    ensures FirstPrice([]) == None
  {
    assert ([quote] + rest)[1..] == rest;
  }

  /**
    Which rule decides the price of an owned row: the scaled target when the asked cents or return
    move a positive basis, else an explicit target, else the average price plus the fixed cents.
  */
  lemma TargetRuleIs(owner: Option<Strategy>, avgPrice: real, deltaCents: real, state: OutcomeState)
    ensures var target := TargetPrice(owner, avgPrice, deltaCents, state);
            var fallback := Normalize(avgPrice + deltaCents / 100.0, None, None);
            if owner.None? then target == Target(fallback, FallbackFixedDelta, deltaCents)
            else
              var rules := owner.value.exit.prices;
              var basis := TargetBasis(avgPrice, rules, state);
              if basis > 0.0 && (AskedCents(rules) > 0.0 || AskedReturn(rules) > 0.0) then
                target.policy == MicroGridScaled
              else if rules.explicitTarget.None? then target == Target(fallback, FallbackFixedDelta, deltaCents)
              else
                && target.policy == ExplicitTarget
                && target.price == Normalize(rules.explicitTarget.value, Positive(rules.tick), Positive(rules.floor))
    ensures var target := TargetPrice(owner, avgPrice, deltaCents, state);
            target.policy != FallbackFixedDelta ==>
              var cents := (target.price - avgPrice) * 100.0; cents - 0.00005 <= target.deltaCents <= cents + 0.00005
  {
    if owner.Some? { ScaledTargetIff(TargetBasis(avgPrice, owner.value.exit.prices, state), owner.value.exit.prices); }
    var target := TargetPrice(owner, avgPrice, deltaCents, state);
    var n := FourDecimals((target.price - avgPrice) * 100.0);
    hide Normalize, ScaledTarget, TargetBasis, RoundTo, AskedCents, AskedReturn;
  }
}
