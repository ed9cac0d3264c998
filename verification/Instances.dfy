/** Concrete plans, positions and ticks on which a tempting law fails, or a conditional one applies. */
module Instances {
  import opened Wrappers
  import opened Ordering
  import opened Prices
  import opened Plans
  import opened Waterfall
  import opened CandidatePlan
  import opened Protection
  import opened TickLaws
  import opened Runs
  import opened Convergence
  import opened Adoption

  // ----- two strategies that take turns -----

  /** A strategy for outcome `o` of token `t` that is meant for one period only. */
  function PeriodTarget(id: string, size: int, period: int): Strategy {
    Strategy(
      id, "core_hold_live_validation", "", None, 0, 0, false,
      EntryRules("t", "", "o", "", Some(size), None, PeriodGate(Some([Some(period)]), None, None), false, 0),
      ExitRules(None, false, NO_RULES), None)
  }

  function TurnsPlan(a: int, b: int): Plan {
    Plan("m", {}, [PeriodTarget("a", a, 1), PeriodTarget("b", b, 2)], [])
  }

  /** A tick of that plan in the given period, with every gate open and a minimum order of five. */
  function TurnsTick(a: int, b: int, period: int): Tick {
    Tick("e", TurnsPlan(a, b), true, true, true, true, 5, 1.0, map["o" := NO_STATE.(period := Some(period))], false)
  }

  function Holder(size: int): Position { Position("", "t", "", size, Some(0.5), None) }

  lemma TwoMatches(ss: seq<Strategy>, q: Query)
    requires |ss| == 2
    requires MatchesToken(ss[0].entry, q.token, q.outcome) && MatchesToken(ss[1].entry, q.token, q.outcome)
    ensures Matches(ss, q, 2) == [MatchAt(ss, q, 0), MatchAt(ss, q, 1)]
  {
    hide PeriodRank, MatchesToken;
    assert Matches(ss, q, 0) == [];
    assert Matches(ss, q, 1) == [] + [MatchAt(ss, q, 0)];
  }

  /** Of two live matches the one with the better period rank comes first. */
  lemma TwoRanked(ss: seq<Strategy>, q: Query)
    requires |ss| == 2 && !ss[0].shadowOnly && !ss[1].shadowOnly
    requires MatchesToken(ss[0].entry, q.token, q.outcome) && MatchesToken(ss[1].entry, q.token, q.outcome)
    requires PeriodRank(ss[0].entry.periods, q.period) != PeriodRank(ss[1].entry.periods, q.period)
    ensures PositionStrategies(ss, q)
         == if PeriodRank(ss[0].entry.periods, q.period) < PeriodRank(ss[1].entry.periods, q.period) then ss
            else [ss[1], ss[0]]
  {
    hide PeriodRank, MatchesToken, SortBy, MatchKey, KeyLe, Matches;
    var x, y := MatchAt(ss, q, 0), MatchAt(ss, q, 1);
    TwoMatches(ss, q);
    SortPair(x, y, MatchKey);
    KeyLeTotal(MatchKey(x), MatchKey(y));
    if KeyLe(MatchKey(x), MatchKey(y)) { MatchKeyOrder(x, y); } else { MatchKeyOrder(y, x); }
    assert ss == [ss[0], ss[1]];
  }

  lemma GateRank(meant: int, period: int)
    ensures PeriodRank(PeriodGate(Some([Some(meant)]), None, None), Some(period)) == if period == meant then 0 else 2
  {
    assert Some(meant) in [Some(meant)];
  }

  lemma TurnsLookup(a: int, b: int)
    ensures "t" in Lookup(TurnsPlan(a, b)) && Lookup(TurnsPlan(a, b))["t"] == OutcomeRef("m", "o", "t")
  {
    LookupIsLastNamed(TurnsPlan(a, b), 2, "t", 1);
  }

  /** The strategies in the order the period gives them: each ranks first in its own. */
  function Turns(a: int, b: int, period: int): (ms: seq<Strategy>)
    ensures |ms| == 2
  {
    if period == 1 then [PeriodTarget("a", a, 1), PeriodTarget("b", b, 2)]
    else [PeriodTarget("b", b, 2), PeriodTarget("a", a, 1)]
  }

  function Combined(ms: seq<Strategy>): int
    requires |ms| == 2
  {
    EntryOf(ms[0]) + EntryOf(ms[1])
  }

  lemma TurnsRanking(a: int, b: int, period: int, size: int)
    requires period == 1 || period == 2
    ensures Strategies(TurnsTick(a, b, period), Holder(size)) == Turns(a, b, period)
  {
    var t := TurnsTick(a, b, period);
    TurnsLookup(a, b);
    GateRank(1, period);
    GateRank(2, period);
    hide PositionStrategies, Lookup, PeriodRank;
    TwoRanked(TurnsPlan(a, b).strategies, Query("t", "o", Some(period)));
    RefOfMapped(t, "t");
  }

  lemma TurnsPlain(a: int, b: int, period: int)
    requires a >= 5 && b >= 5
    ensures var ms := Turns(a, b, period);
            && |ms| == 2 && ms[0].id != ms[1].id
            && (forall i :: 0 <= i < |ms| ==> PlainTarget(ms[i], 5) && Sized(ms[i]))
            && SizeOf(ms[0]) == (if period == 1 then a else b) && SizeOf(ms[0]) + SizeOf(ms[1]) == a + b
  {
  }

  /** The parts of steadiness that do not concern the strategies. */
  lemma TurnsOpen(a: int, b: int, period: int, size: int)
    ensures var t, p := TurnsTick(a, b, period), Holder(size);
            && t.enabled && Gates(t) == [] && t.minSize == 5 && Considered(t, p)
            && RefFor(t, p.token).Some? && AvgPrice(p).Some?
  {
    TurnsLookup(a, b);
    hide Lookup;
  }

  lemma SteadyFrom(t: Tick, p: Position, ms: seq<Strategy>)
    requires t.enabled && Gates(t) == [] && t.minSize > 0 && Considered(t, p)
    requires RefFor(t, p.token).Some? && AvgPrice(p).Some?
    requires Strategies(t, p) == ms && |ms| == 2 && ms[0].id != ms[1].id
    requires forall i :: 0 <= i < |ms| ==> PlainTarget(ms[i], t.minSize)
    ensures Steady(t, p)
  {
    hide Strategies, PlainTarget, Gates, Considered, RefFor, AvgPrice;
  }

  lemma TurnsSteady(a: int, b: int, period: int, size: int)
    requires a >= 5 && b >= 5 && (period == 1 || period == 2)
    ensures Steady(TurnsTick(a, b, period), Holder(size))
  {
    hide *;
    TurnsRanking(a, b, period, size);
    TurnsPlain(a, b, period);
    TurnsOpen(a, b, period, size);
    SteadyFrom(TurnsTick(a, b, period), Holder(size), Turns(a, b, period));
  }

  lemma PickOfTwo(ms: seq<Strategy>, open: int)
    requires |ms| == 2 && Sized(ms[0]) && Sized(ms[1]) && 0 <= open
    ensures Prefix(ms, 2) == SizeOf(ms[0]) + SizeOf(ms[1]) == Combined(ms)
    ensures Pick(ms, open) == if open < SizeOf(ms[0]) then 0 else 1
    ensures Prefix(ms, Pick(ms, open) + 1)
         == if open < SizeOf(ms[0]) then SizeOf(ms[0]) else SizeOf(ms[0]) + SizeOf(ms[1])
  {
    hide Sized, SizeOf;
    assert Prefix(ms, 0) == 0 && Prefix(ms, 1) == SizeOf(ms[0]);
  }

  /** The next slice of the two strategies in the order the period gives them, and their combined entries. */
  lemma TurnsSlice(a: int, b: int, period: int, size: int, open: int)
    requires a >= 5 && b >= 5 && (period == 1 || period == 2)
    requires 0 <= open <= size && open <= a + b
    ensures var t, p := TurnsTick(a, b, period), Holder(size);
            var first := if period == 1 then a else b;
            var slice := Min(size - open, if open < first then first - open else a + b - open);
            && NextSlice(t, p, open) == (if slice < 5 then 0 else slice)
            && Strategies(t, p) == Turns(a, b, period) && Combined(Turns(a, b, period)) == a + b
  {
    hide *;
    TurnsSteady(a, b, period, size);
    TurnsRanking(a, b, period, size);
    TurnsPlain(a, b, period);
    TurnsOpen(a, b, period, size);
    HolderSize(size);
    SliceOfTwo(TurnsTick(a, b, period), Holder(size), Turns(a, b, period), open);
  }

  lemma HolderSize(size: int)
    ensures Holder(size).size == size
  {
  }

  /** The next slice of any two sized strategies. */
  lemma SliceOfTwo(t: Tick, p: Position, ms: seq<Strategy>, open: int)
    requires Steady(t, p) && Strategies(t, p) == ms && |ms| == 2 && forall i :: 0 <= i < |ms| ==> Sized(ms[i])
    requires 0 <= open <= p.size && open <= SizeOf(ms[0]) + SizeOf(ms[1])
    ensures Combined(ms) == SizeOf(ms[0]) + SizeOf(ms[1])
    ensures var first := SizeOf(ms[0]);
            var slice := Min(p.size - open, if open < first then first - open else Combined(ms) - open);
            NextSlice(t, p, open) == if slice < t.minSize then 0 else slice
  {
    PickOfTwo(ms, open);
    hide Steady, NextSlice, Strategies, Prefix, Sized, SizeOf, Pick, Combined;
    TotalIs(t, p);
    SliceExactly(t, p, open);
  }

  /**
    When the period changes, ticks can stop short of the stated level.  Five of twelve are placed
    in the first period; in the second the owner lacks two, less than a minimum order, and seven
    stay uncovered although the strategies together have room for all twelve.
  */
  lemma ChangingPeriodStalls(orders: seq<Order>)
    requires OpenSells(orders, "t") == 5
    ensures var p := Holder(12);
            var first, second := TurnsTick(5, 7, 1), TurnsTick(5, 7, 2);
            && Steady(first, p) && Steady(second, p)
            && |Submitted(first, [], [p])| == 1 && Submitted(first, [], [p])[0].size == 5
            && Submitted(second, orders, [p]) == []
            && p.size - OpenSells(orders, p.token) == 7
            && Strategies(second, p) == Turns(5, 7, 2) && Combined(Turns(5, 7, 2)) == 12
  {
    var p := Holder(12);
    assert OpenSells([], "t") == 0;
    TurnsSteady(5, 7, 1, 12);
    TurnsSteady(5, 7, 2, 12);
    TurnsSlice(5, 7, 1, 12, 0);
    TurnsSlice(5, 7, 2, 12, 5);
    hide Steady, NextSlice, Submitted, OpenSells, RowProposed, Strategies, Turns, Combined, TurnsTick;
    SteadyTick(TurnsTick(5, 7, 1), p, []);
    SteadyTick(TurnsTick(5, 7, 2), p, orders);
  }

  /** When the period goes back and forth, two strategies can take three submitting ticks. */
  lemma ChangingPeriodSubmitsMore()
    ensures var p := Holder(15);
            && |Turns(5, 10, 1)| == |Turns(5, 10, 2)| == 2
            && NextSlice(TurnsTick(5, 10, 1), p, 0) == 5
            && NextSlice(TurnsTick(5, 10, 2), p, 5) == 5
            && NextSlice(TurnsTick(5, 10, 1), p, 10) == 5
  {
    hide Strategies, NextSlice, Prefix, TurnsTick;
    TurnsSlice(5, 10, 1, 15, 0);
    TurnsSlice(5, 10, 2, 15, 5);
    TurnsSlice(5, 10, 1, 15, 10);
  }

  // ----- an order resting in a status the tick does not count -----

  lemma TurnsAgrees(a: int, b: int)
    ensures AgreesWith(TurnsPlan(a, b), LISTING)
  {
  }

  const LISTING: Listing := map["o" := "t"]

  const DELAYED := Order("", "t", "sell", "delayed", 5, "x")

  /** While nothing counted rests, the tick submits for five shares. */
  lemma TurnsSubmitsFive(orders: seq<Order>)
    requires OpenSells(orders, "t") == 0
    ensures var os := Submitted(TurnsTick(5, 7, 1), orders, [Holder(5)]);
            |os| == 1 && os[0].size == 5 && LandsOn(os[0], LISTING, "t")
  {
    var t, p := TurnsTick(5, 7, 1), Holder(5);
    TurnsSteady(5, 7, 1, 5);
    TurnsSlice(5, 7, 1, 5, 0);
    TurnsAgrees(5, 7);
    hide Steady, NextSlice, Submitted, OpenSells, RowProposed, AgreesWith, Strategies, Turns, Prefix;
    SteadyTick(t, p, orders);
    ProposalWithinUncovered(t, orders, p, LISTING, Submitted(t, orders, [p])[0]);
  }

  /** The next tick does not see a delayed order and submits for the same five shares again. */
  lemma DelayedOrderDoubled()
    ensures var t, p := TurnsTick(5, 7, 1), Holder(5);
            var os, again := Submitted(t, [], [p]), Submitted(t, [DELAYED], [p]);
            && |os| == |again| == 1
            && RestsAs(os[0], Some(DELAYED), LISTING) && LandsOn(again[0], LISTING, "t")
            && AllSells([DELAYED], "t") + again[0].size == 10 && Holding([p], "t") == 5
  {
    assert [DELAYED][..0] == [] && [Holder(5)][..0] == [];
    assert OpenSells([], "t") == 0 && OpenSells([DELAYED], "t") == 0 && AllSells([DELAYED], "t") == 5;
    assert Holding([Holder(5)], "t") == 5;
    hide Submitted, OpenSells, Holding, AllSells, TurnsTick, LandsOn;
    TurnsSubmitsFive([]);
    TurnsSubmitsFive([DELAYED]);
  }

  // ----- adopting a plan with and without an unknown trade -----

  const UNKNOWN_TRADE: TradeReaction := UnknownReaction("t", "", "x", "buy")

  /** What a tick on twelve uncovered shares reacts to. */
  function TurnsReactions(): seq<PositionReaction> {
    Reactions(TurnsTick(5, 7, 1), [], [Holder(12)], 1)
  }

  lemma TurnsReacts()
    ensures RowReactions(TurnsTick(5, 7, 1), [], Holder(12)) != []
  {
    hide PositionStrategies, Lookup, AdverseMove, MissingTargets, PlanTarget, StrategyOwned;
    assert OpenSells([], "t") == 0;
  }

  lemma TurnsReactionTokens()
    ensures forall r :: r in TurnsReactions() ==> r.token == "t"
  {
    hide Reactions, TurnsTick;
    ReactionTokens(TurnsTick(5, 7, 1), [], [Holder(12)], 1);
  }

  lemma BearersOfToken(rs: seq<PositionReaction>, ts: seq<TradeReaction>, token: string)
    requires (forall r :: r in rs ==> r.token == token) && (forall r :: r in ts ==> r.token == token)
    ensures forall i :: 0 <= i < |AllBearers(rs, [], ts)| ==> AllBearers(rs, [], ts)[i].item.token == token
  {
    hide AllBearers;
    var bs := AllBearers(rs, [], ts);
    forall i | 0 <= i < |bs|
      ensures bs[i].item.token == token
    {
      assert bs[i] in bs;
      BearerSource(rs, Found([], ts), bs[i]);
    }
  }

  lemma TurnsUnambiguous(ts: seq<TradeReaction>)
    requires forall r :: r in ts ==> r.token == "t"
    ensures NoOtherOutcomes(TurnsPlan(5, 7), AllBearers(TurnsReactions(), [], ts))
  {
    hide AllBearers, TurnsReactions, Lookup, OutcomeOf, TurnsPlan;
    TurnsReactionTokens();
    BearersOfToken(TurnsReactions(), ts, "t");
  }

  lemma TurnsCandidate(ts: seq<TradeReaction>)
    ensures Candidate("e", TurnsPlan(5, 7), TurnsReactions(), [], ts).Some?
  {
    var t := TurnsTick(5, 7, 1);
    TurnsReacts();
    hide Reactions, RowReactions, AllBearers, Lookup, StrategiesFor, ReconciliationsFor, TurnsTick;
    var j := ReactionListed(t, [], [Holder(12)], 1, 0);
    var i := ReactionAdopted(TurnsReactions(), [], ts, j);
  }

  lemma NoTradeConcerns(rs: seq<PositionReaction>, lookup: map<string, OutcomeRef>, token: string)
    ensures !TradeConcerns(AllBearers(rs, [], []), lookup, token)
  {
    var bp := Bearers(PositionKind, PositionItems(rs), |rs|);
    var bs := AllBearers(rs, [], []);
    assert Bearers(OrderKind, UnknownItems([]), 0) == [] == Bearers(TradeKind, UnknownItems([]), 0);
    assert bs == bp;
    hide Bearers, AllBearers;
    assert forall i :: 0 <= i < |bs| ==> bs[i] in bp;
  }

  lemma OneTradeConcerns(rs: seq<PositionReaction>, trade: TradeReaction, lookup: map<string, OutcomeRef>)
    requires trade.token != ""
    ensures TradeConcerns(AllBearers(rs, [], [trade]), lookup, trade.token)
  {
    var bp := Bearers(PositionKind, PositionItems(rs), |rs|);
    var bo := Bearers(OrderKind, UnknownItems([]), 0);
    var bt := Bearers(TradeKind, UnknownItems([trade]), 1);
    var j := BearerListed(TradeKind, UnknownItems([trade]), 1, 0);
    var at := |bp| + |bo| + j;
    hide Bearers;
    ThreeParts(bp, bo, bt, at);
    assert AllBearers(rs, [], [trade])[at] == bt[j];
    assert Concerns(bt[j], lookup, trade.token);
  }

  /**
    The candidate plan for twelve uncovered shares sells exactly those on the next tick; with one
    unknown trade on the token it sells nothing.
  */
  lemma HandoverUnlessUnknownTrade(ts: seq<TradeReaction>)
    requires ts == [] || ts == [UNKNOWN_TRADE]
    ensures var c := Candidate("e", TurnsPlan(5, 7), TurnsReactions(), [], ts);
            && c.Some?
            && var row := RowProposed(TurnsTick(5, 7, 1).(plan := c.value), [], Holder(12));
            if ts == [] then |row| == 1 && row[0].size == 12 && row[0].outcome == "o" else row == []
  {
    var t, p := TurnsTick(5, 7, 1), Holder(12);
    TurnsCandidate(ts);
    TurnsReacts();
    TurnsUnambiguous(ts);
    if ts == [] { NoTradeConcerns(TurnsReactions(), Lookup(TurnsPlan(5, 7)), "t"); }
    else { OneTradeConcerns(TurnsReactions(), UNKNOWN_TRADE, Lookup(TurnsPlan(5, 7))); }
    TurnsLookup(5, 7);
    assert OpenSells([], "t") == 0;
    hide Reactions, RowReactions, RowProposed, Candidate, AllBearers, Lookup, OpenSells, TurnsPlan, TradeConcerns,
      NoOtherOutcomes, Normalize;
    var c := Candidate("e", TurnsPlan(5, 7), TurnsReactions(), [], ts).value;
    ReactingPositionHandedOver(t, [], [p], 0, [], ts, t.(plan := c), [], p);
  }
}
