/**
  The feedback loop: what the next tick does under the candidate plan this tick produced.
*/
module Adoption {
  import opened Wrappers
  import opened Prices
  import opened Plans
  import opened Targets
  import opened Waterfall
  import opened CandidatePlan
  import opened Protection
  import opened TickLaws
  import opened Runs

  /** A strategy that ranks level with every other of its kind: shadow only, without a period gate. */
  predicate Level(s: Strategy) {
    s.shadowOnly && s.entry.periods == NO_GATE
  }

  /** Among level strategies the last matching plan entry comes first. */
  lemma LastMatchRanksFirst(ss: seq<Strategy>, q: Query, i: nat)
    requires forall s :: s in ss ==> Level(s)
    requires i < |ss| && MatchesToken(ss[i].entry, q.token, q.outcome)
    requires forall j :: i < j < |ss| ==> !MatchesToken(ss[j].entry, q.token, q.outcome)
    ensures PositionStrategies(ss, q) != [] && PositionStrategies(ss, q)[0] == ss[i]
  {
    RankedIsSortedPermutation(ss, q);
    hide MatchesToken, PositionStrategies;
    var ranked := Ranked(ss, q);
    hide Ranked;
    var m := MatchAt(ss, q, i);
    assert m in multiset(ranked);
    var k :| 0 <= k < |ranked| && ranked[k] == m;
    var first := ranked[0];
    assert first in ranked && first in multiset(ranked);
    assert first == MatchAt(ss, q, first.index);
    assert Level(ss[first.index]) && Level(ss[i]);
    assert first.index <= i;
    assert k > 0 ==> first.index >= m.index;
    assert first == m;
    PositionStrategiesHead(ss, q);
  }

  lemma PositionStrategiesHead(ss: seq<Strategy>, q: Query)
    requires Ranked(ss, q) != []
    ensures PositionStrategies(ss, q) != [] && PositionStrategies(ss, q)[0] == Ranked(ss, q)[0].strategy
  {
    hide Ranked;
  }

  predicate Concerns(b: Bearer, lookup: map<string, OutcomeRef>, token: string) {
    b.item.token == token || OutcomeOf(lookup, b.item.token) == OutcomeOf(lookup, token)
  }

  /** An unknown trade on the token, or on a token the old plan maps to the same outcome. */
  ghost predicate TradeConcerns(bs: seq<Bearer>, lookup: map<string, OutcomeRef>, token: string) {
    exists j :: 0 <= j < |bs| && bs[j].kind == TradeKind && Concerns(bs[j], lookup, token)
  }

  lemma {:induction false} LastConcerned(
    bs: seq<Bearer>, lookup: map<string, OutcomeRef>, token: string, n: nat, i: nat)
    returns (last: nat)
    requires i < n <= |bs| && Concerns(bs[i], lookup, token)
    ensures i <= last < n && Concerns(bs[last], lookup, token)
    ensures forall j :: last < j < n ==> !Concerns(bs[j], lookup, token)
  {
    if Concerns(bs[n - 1], lookup, token) {
      last := n - 1;
    } else {
      last := LastConcerned(bs, lookup, token, n - 1, i);
    }
  }

  /** Trade bearers come after all others. */
  lemma TradesComeLast(ps: seq<PositionReaction>, os: seq<OrderReaction>, ts: seq<TradeReaction>, i: nat, j: nat)
    requires i < j < |AllBearers(ps, os, ts)|
    requires AllBearers(ps, os, ts)[i].kind == TradeKind
    ensures AllBearers(ps, os, ts)[j].kind == TradeKind
  {
    var bp := Bearers(PositionKind, PositionItems(ps), |ps|);
    var bo := Bearers(OrderKind, UnknownItems(os), |os|);
    var bt := Bearers(TradeKind, UnknownItems(ts), |ts|);
    assert AllBearers(ps, os, ts) == bp + bo + bt;
    hide Bearers;
    ThreeParts(bp, bo, bt, i);
    ThreeParts(bp, bo, bt, j);
  }

  /** The strategy the candidate plan puts in charge of a token. */
  lemma CandidateOwner(
    eventId: string, plan: Plan, ps: seq<PositionReaction>, os: seq<OrderReaction>, ts: seq<TradeReaction>,
    token: string, period: Option<int>, i: nat) returns (last: nat)
    requires Candidate(eventId, plan, ps, os, ts).Some? && token in Lookup(plan)
    requires i < |AllBearers(ps, os, ts)| && AllBearers(ps, os, ts)[i].item.token == token
    ensures last < |AllBearers(ps, os, ts)|
    ensures var c := Candidate(eventId, plan, ps, os, ts).value;
            var ms := PositionStrategies(c.strategies, Query(token, Lookup(plan)[token].outcome, period));
            ms != [] && ms[0] == StrategyFor(AllBearers(ps, os, ts)[last], Lookup(plan), plan.marketId)
    ensures AllBearers(ps, os, ts)[last].kind == TradeKind
            <==> TradeConcerns(AllBearers(ps, os, ts), Lookup(plan), token)
  {
    hide *;
    var bs := AllBearers(ps, os, ts);
    var lookup := Lookup(plan);
    OldRef(plan, token);
    last := OwnerAmongBearers(bs, lookup, plan.marketId, token, period, i);
    if TradeConcerns(bs, lookup, token) {
      var j := ConcernedTrade(bs, lookup, token);
      if j < last { TradesComeLast(ps, os, ts, j, last); }
    } else {
      NoConcernedTrade(bs, lookup, token, last);
    }
    CandidateStrategies(eventId, plan, ps, os, ts);
    OutcomeOfMapped(lookup, token);
  }

  lemma CandidateStrategies(
    eventId: string, plan: Plan, ps: seq<PositionReaction>, os: seq<OrderReaction>, ts: seq<TradeReaction>)
    requires Candidate(eventId, plan, ps, os, ts).Some?
    ensures Candidate(eventId, plan, ps, os, ts).value.strategies
         == StrategiesFor(AllBearers(ps, os, ts), Lookup(plan), plan.marketId)
  {
    hide AllBearers, StrategiesFor, ReconciliationsFor, Lookup;
  }

  lemma OutcomeOfMapped(lookup: map<string, OutcomeRef>, token: string)
    requires token in lookup
    ensures OutcomeOf(lookup, token) == lookup[token].outcome
  {
  }

  lemma ConcernedTrade(bs: seq<Bearer>, lookup: map<string, OutcomeRef>, token: string) returns (j: nat)
    requires TradeConcerns(bs, lookup, token)
    ensures j < |bs| && bs[j].kind == TradeKind && Concerns(bs[j], lookup, token)
  {
    j :| 0 <= j < |bs| && bs[j].kind == TradeKind && Concerns(bs[j], lookup, token);
  }

  lemma NoConcernedTrade(bs: seq<Bearer>, lookup: map<string, OutcomeRef>, token: string, j: nat)
    requires !TradeConcerns(bs, lookup, token) && j < |bs| && Concerns(bs[j], lookup, token)
    ensures bs[j].kind != TradeKind
  {
  }

  /** Of the adopted strategies the last one concerned with the token ranks first. */
  lemma OwnerAmongBearers(
    bs: seq<Bearer>, lookup: map<string, OutcomeRef>, market: string, token: string, period: Option<int>, i: nat)
    returns (last: nat)
    requires i < |bs| && bs[i].item.token == token
    requires forall b :: b in bs ==> b.item.token != ""
    requires token in lookup && lookup[token].outcome != ""
    ensures last < |bs| && Concerns(bs[last], lookup, token)
    ensures forall j :: last < j < |bs| ==> !Concerns(bs[j], lookup, token)
    ensures var q := Query(token, lookup[token].outcome, period);
            var ms := PositionStrategies(StrategiesFor(bs, lookup, market), q);
            ms != [] && ms[0] == StrategyFor(bs[last], lookup, market)
  {
    hide PositionStrategies, LabelOf, StrategyId;
    last := LastConcerned(bs, lookup, token, |bs|, i);
    var ss := StrategiesFor(bs, lookup, market);
    forall j | 0 <= j < |bs|
      ensures MatchesToken(ss[j].entry, token, lookup[token].outcome) <==> Concerns(bs[j], lookup, token)
    {
      assert bs[j] in bs;
    }
    hide MatchesToken;
    LastMatchRanksFirst(ss, Query(token, lookup[token].outcome, period), last);
  }

  /** A tick under the candidate plan on a position whose token the old plan mapped. */
  lemma CandidateFacts(
    eventId: string, plan: Plan, ps: seq<PositionReaction>, os: seq<OrderReaction>, ts: seq<TradeReaction>,
    t: Tick, orders: seq<Order>, p: Position, i: nat) returns (last: nat)
    requires Candidate(eventId, plan, ps, os, ts) == Some(t.plan) && p.token in Lookup(plan)
    requires i < |AllBearers(ps, os, ts)| && AllBearers(ps, os, ts)[i].item.token == p.token
    requires NoOtherOutcomes(plan, AllBearers(ps, os, ts))
    ensures last < |AllBearers(ps, os, ts)|
    ensures AllBearers(ps, os, ts)[last].kind == TradeKind
       <==> TradeConcerns(AllBearers(ps, os, ts), Lookup(plan), p.token)
    ensures var f := FactsOf(t, orders, p);
            && f.ref == Some(Lookup(plan)[p.token].(token := p.token))
            && !f.replacement
            && f.matches != []
            && f.matches[0] == StrategyFor(AllBearers(ps, os, ts)[last], Lookup(plan), plan.marketId)
            && f.picked == Some(0)
            && f.avgPrice == AvgPrice(p) && f.openSells == OpenSells(orders, p.token)
            && f.uncovered == (if p.size - f.openSells > 0 then p.size - f.openSells else 0)
  {
    hide *;
    CandidateKeepsOutcomes(eventId, plan, ps, os, ts, i);
    FactsShape(t, orders, p);
    RefOfMapped(t, p.token);
    last := CandidateOwner(eventId, plan, ps, os, ts, p.token, StateFor(t, RefFor(t, p.token)).period, i);
    CandidateExpectsNoTargets(eventId, plan, ps, os, ts, p.token, OpenOrderIds(orders));
    AdoptedUnsized(AllBearers(ps, os, ts)[last], Lookup(plan), plan.marketId);
    UnsizedIsPicked(MatchesFor(t, p.token, RefFor(t, p.token)), OpenSells(orders, p.token));
  }

  lemma FactsShape(t: Tick, orders: seq<Order>, p: Position)
    ensures var f := FactsOf(t, orders, p);
            var ref := RefFor(t, p.token);
            && f.ref == ref && f.avgPrice == AvgPrice(p) && f.openSells == OpenSells(orders, p.token)
            && f.uncovered == (if p.size - f.openSells > 0 then p.size - f.openSells else 0)
            && f.matches == MatchesFor(t, p.token, ref)
            && f.picked == PickedIndex(f.matches, Some(f.openSells))
            && (MissingTargets(t.plan, p.token, OpenOrderIds(orders)) == {} ==> !f.replacement)
  {
    hide RefFor, AvgPrice, OpenSells, MatchesFor, PickedIndex, MissingTargets, OpenOrderIds, StateFor;
  }

  lemma RefOfMapped(t: Tick, token: string)
    requires token in Lookup(t.plan)
    ensures var ref := Lookup(t.plan)[token];
            && RefFor(t, token) == Some(ref)
            && MatchesFor(t, token, Some(ref))
               == PositionStrategies(t.plan.strategies, Query(token, ref.outcome, StateFor(t, Some(ref)).period))
  {
    hide Lookup, PositionStrategies, StateFor;
  }

  lemma AdoptedUnsized(b: Bearer, lookup: map<string, OutcomeRef>, market: string)
    ensures !Sized(StrategyFor(b, lookup, market))
  {
    hide LabelOf, StrategyId;
  }

  lemma UnsizedIsPicked(ms: seq<Strategy>, openSells: int)
    requires ms != [] && !Sized(ms[0])
    ensures PickedIndex(ms, Some(openSells)) == Some(0)
  {
  }

  /**
    Adopting the candidate hands the position over cleanly.  On the next tick, with a known price
    and at least a minimum order uncovered, a position whose token the old plan mapped gets an
    order for exactly the uncovered size at the fixed-delta fallback price, on the old plan's
    market and outcome -- if and only if no unknown trade concerns its token.  Such a trade
    instead leaves the position waiting for a plan review.
  */
  lemma AdoptedPositionHandedOver(
    eventId: string, plan: Plan, ps: seq<PositionReaction>, os: seq<OrderReaction>, ts: seq<TradeReaction>,
    t: Tick, orders: seq<Order>, p: Position, i: nat)
    requires Candidate(eventId, plan, ps, os, ts) == Some(t.plan) && p.token in Lookup(plan)
    requires i < |AllBearers(ps, os, ts)| && AllBearers(ps, os, ts)[i].item.token == p.token
    requires NoOtherOutcomes(plan, AllBearers(ps, os, ts))
    requires AvgPrice(p).Some?
    requires p.size - OpenSells(orders, p.token) >= t.minSize && p.size - OpenSells(orders, p.token) > 0
    ensures var f := FactsOf(t, orders, p);
            var ref := Lookup(plan)[p.token];
            && !IsCovered(t, f)
            && (if TradeConcerns(AllBearers(ps, os, ts), Lookup(plan), p.token)
                then Recommend(t, f, p) == Held(PlanTargetReview, p.token, f.uncovered)
                else
                  && Recommend(t, f, p).Proposed?
                  && var o := Recommend(t, f, p).order;
                  && o.size == p.size - OpenSells(orders, p.token)
                  && o.price == Normalize(AvgPrice(p).value + t.deltaCents / 100.0, None, None)
                  && o.policy == FallbackFixedDelta && !o.planTarget
                  && o.market == ref.market && o.outcome == ref.outcome)
  {
    hide *;
    var last := CandidateFacts(eventId, plan, ps, os, ts, t, orders, p, i);
    var f := FactsOf(t, orders, p);
    TradeNotTargeted(ps, os, ts, last);
    AdoptedOwner(t, f, p, AllBearers(ps, os, ts)[last], Lookup(plan), plan.marketId);
    NotCovered(t, f);
  }

  lemma TradeNotTargeted(ps: seq<PositionReaction>, os: seq<OrderReaction>, ts: seq<TradeReaction>, i: nat)
    requires i < |AllBearers(ps, os, ts)|
    ensures AllBearers(ps, os, ts)[i].kind != PositionKind ==> AllBearers(ps, os, ts)[i].item.targetRequired == None
  {
    var bp := Bearers(PositionKind, PositionItems(ps), |ps|);
    var bo := Bearers(OrderKind, UnknownItems(os), |os|);
    var bt := Bearers(TradeKind, UnknownItems(ts), |ts|);
    assert AllBearers(ps, os, ts) == bp + bo + bt;
    hide Bearers;
    ThreeParts(bp, bo, bt, i);
  }

  lemma NotCovered(t: Tick, f: Facts)
    requires f.uncovered >= t.minSize && f.uncovered > 0
    ensures !IsCovered(t, f)
  {
  }

  /** What the tick recommends for a position owned by an adopted strategy. */
  lemma AdoptedOwner(t: Tick, f: Facts, p: Position, b: Bearer, lookup: map<string, OutcomeRef>, market: string)
    requires f.ref.Some? && f.avgPrice.Some? && !f.replacement && f.matches != [] && f.picked == Some(0)
    requires f.matches[0] == StrategyFor(b, lookup, market)
    requires b.kind != PositionKind ==> b.item.targetRequired == None
    requires f.uncovered >= t.minSize && f.uncovered > 0
    ensures if b.kind == TradeKind then Recommend(t, f, p) == Held(PlanTargetReview, p.token, f.uncovered)
            else
              && Recommend(t, f, p).Proposed?
              && var o := Recommend(t, f, p).order;
              && o.size == f.uncovered
              && o.price == Normalize(f.avgPrice.value + t.deltaCents / 100.0, None, None)
              && o.policy == FallbackFixedDelta && !o.planTarget
              && o.market == f.ref.value.market && o.outcome == f.ref.value.outcome
  {
    var s := f.matches[0];
    hide LabelOf, StrategyId, Normalize;
    assert !Sized(s) && s.exit.prices == NO_RULES;
    assert ScaledTarget(TargetBasis(f.avgPrice.value, NO_RULES, f.state), NO_RULES).None?;
    assert SameStrategy(f.matches, 0, 0);
    assert TargetSize(f.matches, f.picked, f.uncovered, f.openSells) == f.uncovered;
  }

  /** Under the candidate plan only rows with a blank slug or the event's own identifier are considered. */
  lemma CandidateForgetsAliases(
    eventId: string, plan: Plan, ps: seq<PositionReaction>, os: seq<OrderReaction>, ts: seq<TradeReaction>,
    t: Tick, p: Position)
    requires Candidate(eventId, plan, ps, os, ts) == Some(t.plan) && t.eventId == eventId
    ensures OfEvent(t, p) <==> p.slug == "" || p.slug == eventId
  {
  }

  /** Every reaction of a row names the row's token. */
  lemma RowReactionToken(t: Tick, orders: seq<Order>, p: Position)
    ensures forall r :: r in RowReactions(t, orders, p) ==> r.token == p.token != ""
  {
    hide FactsOf, AdverseMove, IsCovered;
  }

  lemma {:induction false} ReactionListed(t: Tick, orders: seq<Order>, ps: seq<Position>, n: nat, k: nat)
    returns (j: nat)
    requires k < n <= |ps| && RowReactions(t, orders, ps[k]) != []
    ensures j < |Reactions(t, orders, ps, n)| && Reactions(t, orders, ps, n)[j].token == ps[k].token != ""
  {
    hide RowReactions;
    if k == n - 1 {
      RowReactionToken(t, orders, ps[k]);
      j := |Reactions(t, orders, ps, n - 1)|;
      assert Reactions(t, orders, ps, n)[j] == RowReactions(t, orders, ps[k])[0];
    } else {
      j := ReactionListed(t, orders, ps, n - 1, k);
    }
  }

  lemma ReactionAdopted(rs: seq<PositionReaction>, os: seq<OrderReaction>, ts: seq<TradeReaction>, j: nat)
    returns (i: nat)
    requires j < |rs| && rs[j].token != ""
    ensures i < |AllBearers(rs, os, ts)| && AllBearers(rs, os, ts)[i].item.token == rs[j].token
  {
    var bp := Bearers(PositionKind, PositionItems(rs), |rs|);
    i := BearerListed(PositionKind, PositionItems(rs), |rs|, j);
    hide Bearers;
    ThreeParts(bp, Bearers(OrderKind, UnknownItems(os), |os|), Bearers(TradeKind, UnknownItems(ts), |ts|), i);
  }

  /**
    The whole feedback loop.  Any position that produced a reaction in one tick, on a token the
    plan mapped, is handed over by the candidate plan that tick built, as above.
  */
  lemma ReactingPositionHandedOver(
    t: Tick, orders: seq<Order>, ps: seq<Position>, k: nat, os: seq<OrderReaction>, ts: seq<TradeReaction>,
    next: Tick, nextOrders: seq<Order>, p: Position)
    requires k < |ps| && RowReactions(t, orders, ps[k]) != []
    requires Candidate(t.eventId, t.plan, Reactions(t, orders, ps, |ps|), os, ts) == Some(next.plan)
    requires NoOtherOutcomes(t.plan, AllBearers(Reactions(t, orders, ps, |ps|), os, ts))
    requires p.token == ps[k].token && p.token in Lookup(t.plan)
    requires next.eventId == t.eventId && (p.slug == "" || p.slug == t.eventId)
    requires AvgPrice(p).Some?
    requires p.size - OpenSells(nextOrders, p.token) >= next.minSize && p.size - OpenSells(nextOrders, p.token) > 0
    ensures if TradeConcerns(AllBearers(Reactions(t, orders, ps, |ps|), os, ts), Lookup(t.plan), p.token)
            then RowProposed(next, nextOrders, p) == []
            else
              && |RowProposed(next, nextOrders, p)| == 1
              && var o := RowProposed(next, nextOrders, p)[0];
              && o.size == p.size - OpenSells(nextOrders, p.token)
              && o.price == Normalize(AvgPrice(p).value + next.deltaCents / 100.0, None, None)
              && o.market == Lookup(t.plan)[p.token].market && o.outcome == Lookup(t.plan)[p.token].outcome
  {
    var rs := Reactions(t, orders, ps, |ps|);
    hide *;
    var j := ReactionListed(t, orders, ps, |ps|, k);
    var i := ReactionAdopted(rs, os, ts, j);
    CandidateForgetsAliases(t.eventId, t.plan, rs, os, ts, next, p);
    AdoptedPositionHandedOver(t.eventId, t.plan, rs, os, ts, next, nextOrders, p, i);
    ProposedIfRecommended(next, nextOrders, p);
  }

  lemma ProposedIfRecommended(t: Tick, orders: seq<Order>, p: Position)
    requires OfEvent(t, p) && p.token != "" && !IsCovered(t, FactsOf(t, orders, p))
    ensures var advice := Recommend(t, FactsOf(t, orders, p), p);
            RowProposed(t, orders, p) == if advice.Proposed? then [advice.order] else []
  {
    hide FactsOf, IsCovered, Recommend, OfEvent;
  }

  // ----- whole runs that adopt what their ticks build -----

  /** A candidate plan pairs outcomes and tokens as the exchange does if the plan it replaces did. */
  lemma CandidateAgrees(
    eventId: string, plan: Plan, ps: seq<PositionReaction>, os: seq<OrderReaction>, ts: seq<TradeReaction>,
    listing: Listing)
    requires Candidate(eventId, plan, ps, os, ts).Some? && AgreesWith(plan, listing)
    requires forall b :: b in AllBearers(ps, os, ts) ==> NotAnothersOutcome(listing, b.item.token)
    ensures AgreesWith(Candidate(eventId, plan, ps, os, ts).value, listing)
  {
    var c := Candidate(eventId, plan, ps, os, ts).value;
    var bs := AllBearers(ps, os, ts);
    CandidateStrategies(eventId, plan, ps, os, ts);
    hide Candidate, AllBearers, Lookup, Mapped, AgreesWith, LabelOf, StrategyId;
    forall s | s in c.strategies && Mapped(c, s)
      ensures s.entry.outcomeId in listing && listing[s.entry.outcomeId] == s.entry.tokenId
    {
      var i :| 0 <= i < |c.strategies| && c.strategies[i] == s;
      assert bs[i] in bs;
      CandidateNames(eventId, plan, ps, os, ts, i);
      MappedTokenLands(plan, listing, bs[i].item.token);
    }
    AgreeingPlan(c, listing);
  }

  lemma AgreeingPlan(plan: Plan, listing: Listing)
    requires forall s :: s in plan.strategies && Mapped(plan, s) ==>
               s.entry.outcomeId in listing && listing[s.entry.outcomeId] == s.entry.tokenId
    ensures AgreesWith(plan, listing)
  {
  }

  /** The unknown orders and trades a tick found besides its positions. */
  datatype Found = Found(orders: seq<OrderReaction>, trades: seq<TradeReaction>)

  ghost predicate FoundUnambiguous(found: Found, listing: Listing) {
    && (forall r :: r in found.orders ==> NotAnothersOutcome(listing, r.token))
    && (forall r :: r in found.trades ==> NotAnothersOutcome(listing, r.token))
  }

  /** The candidate plan an enabled tick builds. */
  function Built(t: Tick, a: Account, found: Found): Option<Plan> {
    if !t.enabled then None
    else
      Candidate(t.eventId, t.plan, Reactions(t, a.orders, a.positions, |a.positions|), found.orders, found.trades)
  }

  lemma {:induction false} ReactionTokens(t: Tick, orders: seq<Order>, ps: seq<Position>, n: nat)
    requires n <= |ps|
    ensures forall r :: r in Reactions(t, orders, ps, n) ==> exists p :: p in ps && p.token == r.token
  {
    hide RowReactions;
    if n > 0 {
      ReactionTokens(t, orders, ps, n - 1);
      RowReactionToken(t, orders, ps[n - 1]);
    }
  }

  lemma BuiltAgrees(t: Tick, a: Account, found: Found, listing: Listing)
    requires Built(t, a, found).Some? && AgreesWith(t.plan, listing)
    requires TokensUnambiguous(a.positions, listing) && FoundUnambiguous(found, listing)
    ensures AgreesWith(Built(t, a, found).value, listing)
  {
    hide AgreesWith, Reactions, Candidate, NotAnothersOutcome;
    var rs := Reactions(t, a.orders, a.positions, |a.positions|);
    ReactionTokens(t, a.orders, a.positions, |a.positions|);
    forall b | b in AllBearers(rs, found.orders, found.trades)
      ensures NotAnothersOutcome(listing, b.item.token)
    {
      BearerSource(rs, found, b);
    }
    CandidateAgrees(t.eventId, t.plan, rs, found.orders, found.trades, listing);
  }

  lemma BearerSource(rs: seq<PositionReaction>, found: Found, b: Bearer)
    requires b in AllBearers(rs, found.orders, found.trades)
    ensures || (exists r :: r in rs && r.token == b.item.token)
            || (exists r :: r in found.orders && r.token == b.item.token)
            || (exists r :: r in found.trades && r.token == b.item.token)
  {
    if b in Bearers(PositionKind, PositionItems(rs), |rs|) {
      assert rs[b.index - 1] in rs;
    } else if b in Bearers(OrderKind, UnknownItems(found.orders), |found.orders|) {
      assert found.orders[b.index - 1] in found.orders;
    } else {
      assert found.trades[b.index - 1] in found.trades;
    }
  }

  /**
    A run in which every tick works under a plan that agrees with the exchange, or under the
    candidate that some earlier tick of the run built.
  */
  ghost predicate AdoptingRun(states: seq<Account>, steps: seq<Step>, found: seq<Found>, listing: Listing) {
    && |states| == |steps| + 1 && |found| == |steps|
    && SizesNonNegative(states[0].orders)
    && (forall i :: 0 <= i < |steps| ==> Moves(states[i], steps[i], states[i + 1], listing))
    && (forall i :: 0 <= i < |steps| ==> FoundUnambiguous(found[i], listing))
    && (forall i :: 0 <= i < |steps| && steps[i].TickStep? ==>
          AgreesWith(steps[i].tick.plan, listing) || exists j :: 0 <= j < i && AdoptedFrom(states, steps, found, i, j))
  }

  predicate AdoptedFrom(states: seq<Account>, steps: seq<Step>, found: seq<Found>, i: nat, j: nat)
    requires j < i < |steps| == |found| == |states| - 1
  {
    steps[i].TickStep? && steps[j].TickStep? && Built(steps[j].tick, states[j], found[j]) == Some(steps[i].tick.plan)
  }

  /** However long the chain of adoptions, every plan of the run agrees with the exchange. */
  lemma {:induction false} AdoptedPlansAgree(
    states: seq<Account>, steps: seq<Step>, found: seq<Found>, listing: Listing, i: nat)
    requires AdoptingRun(states, steps, found, listing) && i < |steps| && steps[i].TickStep?
    ensures AgreesWith(steps[i].tick.plan, listing)
    decreases i
  {
    hide AgreesWith, Built, FoundUnambiguous, TokensUnambiguous, SizesNonNegative, Submitted, AnswersTo;
    if !AgreesWith(steps[i].tick.plan, listing) {
      var j :| 0 <= j < i && AdoptedFrom(states, steps, found, i, j);
      AdoptedPlansAgree(states, steps, found, listing, j);
      assert Moves(states[j], steps[j], states[j + 1], listing);
      BuiltAgrees(steps[j].tick, states[j], found[j], listing);
    }
  }

  /** Runs stay safe when they adopt the plans their own ticks build. */
  lemma AdoptingRunNeverOversells(states: seq<Account>, steps: seq<Step>, found: seq<Found>, listing: Listing)
    requires AdoptingRun(states, steps, found, listing)
    requires forall token :: OpenSells(states[0].orders, token) <= Holding(states[0].positions, token)
    ensures forall i, token :: 0 <= i < |states| ==>
              OpenSells(states[i].orders, token) <= Holding(states[i].positions, token)
  {
    hide OpenSells, Holding, Moves, AgreesWith, SizesNonNegative, FoundUnambiguous, AdoptedFrom;
    forall i | 0 <= i < |steps|
      ensures Next(states[i], steps[i], states[i + 1], listing)
    {
      if steps[i].TickStep? { AdoptedPlansAgree(states, steps, found, listing, i); }
    }
    hide AdoptingRun, Next;
    RunNeverOversells(states, steps, listing);
  }
}
