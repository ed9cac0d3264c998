/** Repeated ticks over an unchanging position fill the strategies one after another and then stop. */
module Convergence {
  import opened Wrappers
  import opened Plans
  import opened Waterfall
  import opened Protection
  import opened TickLaws
  import opened Runs

  function Strategies(t: Tick, p: Position): seq<Strategy> {
    MatchesFor(t, p.token, RefFor(t, p.token))
  }

  /** A strategy the plan itself targets, sized to at least the exchange minimum and without the excess flag. */
  predicate PlainTarget(s: Strategy, minSize: int) {
    && Sized(s) && SizeOf(s) >= minSize
    && s.family !in OPERATOR_FAMILIES && TargetRequired(s) && !s.exit.coverExcess
  }

  /** Gates open, outcome and price known, and every matching strategy a plain target with its own identifier. */
  ghost predicate Steady(t: Tick, p: Position) {
    && t.enabled && Gates(t) == [] && t.minSize > 0
    && Considered(t, p)
    && RefFor(t, p.token).Some? && AvgPrice(p).Some?
    && Strategies(t, p) != []
    && (forall i :: 0 <= i < |Strategies(t, p)| ==> PlainTarget(Strategies(t, p)[i], t.minSize))
    && (forall i, j :: 0 <= i < j < |Strategies(t, p)| ==> Strategies(t, p)[i].id != Strategies(t, p)[j].id)
  }

  /** The size one tick submits for the position when `open` already rests. */
  function NextSlice(t: Tick, p: Position, open: int): int {
    var ms := Strategies(t, p);
    var uncovered := Max(0, p.size - open);
    if ms == [] || uncovered < t.minSize then 0
    else
      var size := TargetSize(ms, Some(Pick(ms, open)), uncovered, open);
      if size < t.minSize then 0 else size
  }

  lemma SteadyFacts(t: Tick, p: Position, orders: seq<Order>)
    requires Steady(t, p)
    ensures var f := FactsOf(t, orders, p);
            && f.ref.Some? && f.avgPrice.Some? && f.matches == Strategies(t, p)
            && f.openSells == OpenSells(orders, p.token) && f.uncovered == Max(0, p.size - f.openSells)
            && f.picked == Some(Pick(f.matches, f.openSells))
            && (StrategyOwned(f) ==> PlanTarget(f))
  {
    hide OpenSells, MissingTargets, PositionStrategies, Pick, TargetRequired, Sized, Lookup, AvgPrice;
  }

  /** In steady conditions a tick submits nothing or exactly the next slice. */
  lemma SteadyTick(t: Tick, p: Position, orders: seq<Order>)
    requires Steady(t, p)
    ensures var size := NextSlice(t, p, OpenSells(orders, p.token));
            var os := Submitted(t, orders, [p]);
            if size == 0 then os == [] else |os| == 1 && os[0] in RowProposed(t, orders, p) && os[0].size == size
  {
    hide *;
    SteadyFacts(t, p, orders);
    SteadySubmits(t, p, orders);
    SteadyConsidered(t, p);
    SteadyRow(t, p, orders);
    NextSliceIs(t, p, OpenSells(orders, p.token));
  }

  lemma NextSliceIs(t: Tick, p: Position, open: int)
    requires Strategies(t, p) != []
    ensures var uncovered := Max(0, p.size - open);
            var size := TargetSize(Strategies(t, p), Some(Pick(Strategies(t, p), open)), uncovered, open);
            NextSlice(t, p, open) == if uncovered < t.minSize || size < t.minSize then 0 else size
  {
    hide Strategies, Pick, TargetSize;
  }

  lemma SteadyRow(t: Tick, p: Position, orders: seq<Order>)
    requires Considered(t, p) && t.minSize > 0
    requires var f := FactsOf(t, orders, p);
             && f.ref.Some? && f.avgPrice.Some? && (StrategyOwned(f) ==> PlanTarget(f))
             && f.uncovered == Max(0, p.size - f.openSells)
    ensures var f := FactsOf(t, orders, p);
            var size := TargetSize(f.matches, f.picked, f.uncovered, f.openSells);
            var os := RowProposed(t, orders, p);
            if f.uncovered < t.minSize || size < t.minSize then os == []
            else |os| == 1 && os[0].size == size
  {
    hide FactsOf, AdverseMove, Targets.TargetPrice, PlanTarget, StrategyOwned, TargetSize, Considered;
  }

  lemma SteadyConsidered(t: Tick, p: Position)
    requires Steady(t, p)
    ensures Considered(t, p) && t.minSize > 0 && Strategies(t, p) != []
  {
  }

  lemma SteadySubmits(t: Tick, p: Position, orders: seq<Order>)
    requires Steady(t, p)
    ensures Submitted(t, orders, [p]) == RowProposed(t, orders, p)
  {
    hide RowProposed, AvgPrice, RefFor, Strategies, PlainTarget;
    assert RowBlocked(t, p) == [];
    var ps := [p];
    assert RowsBeforeTokenless(t, ps, 0) == 0;
    assert RowsBeforeTokenless(t, ps, 1) == 1;
    assert ProposedRows(t, orders, ps, 0) == [];
    assert ProposedRows(t, orders, ps, 1) == [] + RowProposed(t, orders, p);
  }

  lemma AllSized(t: Tick, p: Position)
    requires Steady(t, p)
    ensures forall i :: 0 <= i < |Strategies(t, p)| ==> Sized(Strategies(t, p)[i])
  {
    hide Strategies;
    forall i | 0 <= i < |Strategies(t, p)|
      ensures Sized(Strategies(t, p)[i])
    {
      assert PlainTarget(Strategies(t, p)[i], t.minSize);
    }
  }

  /** Combined entry size of all matching strategies. */
  function TotalEntry(t: Tick, p: Position): int
    requires forall i :: 0 <= i < |Strategies(t, p)| ==> Sized(Strategies(t, p)[i])
  {
    Prefix(Strategies(t, p), |Strategies(t, p)|)
  }

  /** Nothing more can be placed: the strategies are full, or less than a minimum order is uncovered. */
  predicate Settled(t: Tick, p: Position, open: int)
    requires forall i :: 0 <= i < |Strategies(t, p)| ==> Sized(Strategies(t, p)[i])
  {
    open == TotalEntry(t, p) || p.size - open < t.minSize
  }

  lemma PrefixOwner(ms: seq<Strategy>, j: nat)
    requires j < |ms| && forall i :: 0 <= i < |ms| ==> Sized(ms[i])
    ensures 0 <= Prefix(ms, j) && OwnsNextSlice(ms, Prefix(ms, j), j)
  {
    forall i | 0 <= i <= j
      ensures Prefix(ms, i) <= Prefix(ms, j)
    {
      PrefixMonotone(ms, i, j);
    }
    PrefixMonotone(ms, 0, j);
    assert Prefix(ms, j + 1) == Prefix(ms, j) + SizeOf(ms[j]);
  }

  /** After `j` strategies are full, the next slice is the next strategy's entry, capped by the position. */
  lemma SliceAtLevel(t: Tick, p: Position, j: nat)
    requires Steady(t, p) && j < |Strategies(t, p)|
    requires forall i :: 0 <= i < |Strategies(t, p)| ==> Sized(Strategies(t, p)[i])
    requires p.size - Prefix(Strategies(t, p), j) >= t.minSize
    ensures Prefix(Strategies(t, p), j) + NextSlice(t, p, Prefix(Strategies(t, p), j))
         == Min(p.size, Prefix(Strategies(t, p), j + 1))
    ensures NextSlice(t, p, Prefix(Strategies(t, p), j)) >= t.minSize > 0
  {
    hide Steady, Strategies, Prefix, OwnsNextSlice, FirstOfItsId, Pick, TargetSize, NextSlice, Slice, Sized;
    var ms := Strategies(t, p);
    var open := Prefix(ms, j);
    SteadyStrategy(t, p, j);
    PrefixOwner(ms, j);
    PickIsOwner(ms, open, j);
    WaterfallLoopsAgree(ms, open, p.size - open);
    SliceOfNext(ms, open, p.size - open, j);
    NextSliceIs(t, p, open);
  }

  lemma SteadyStrategy(t: Tick, p: Position, j: nat)
    requires Steady(t, p) && j < |Strategies(t, p)|
    ensures FirstOfItsId(Strategies(t, p), j) && t.minSize > 0
    ensures Sized(Strategies(t, p)[j]) && SizeOf(Strategies(t, p)[j]) >= t.minSize
    ensures !Strategies(t, p)[j].exit.coverExcess
  {
    hide Strategies, Sized, TargetRequired;
    assert PlainTarget(Strategies(t, p)[j], t.minSize);
  }

  lemma SliceOfNext(ms: seq<Strategy>, open: int, uncovered: int, j: nat)
    requires j < |ms| && OwnsNextSlice(ms, open, j) && open == Prefix(ms, j) && Sized(ms[j]) && SizeOf(ms[j]) > 0
    ensures Prefix(ms, j + 1) == open + SizeOf(ms[j])
    ensures Slice(ms, open, uncovered, j) == Min(uncovered, SizeOf(ms[j]))
  {
  }

  lemma TotalIs(t: Tick, p: Position)
    requires forall i :: 0 <= i < |Strategies(t, p)| ==> Sized(Strategies(t, p)[i])
    ensures TotalEntry(t, p) == Prefix(Strategies(t, p), |Strategies(t, p)|)
  {
    hide Strategies;
  }

  /** What the owner of the next slice still lacks. */
  function OwnerLacks(t: Tick, p: Position, open: int): int
    requires Strategies(t, p) != []
    requires forall i :: 0 <= i < |Strategies(t, p)| ==> Sized(Strategies(t, p)[i])
  {
    Prefix(Strategies(t, p), Pick(Strategies(t, p), open) + 1) - open
  }

  lemma SliceOfOwner(ms: seq<Strategy>, open: int, uncovered: int)
    requires ms != [] && uncovered >= 0 && forall i :: 0 <= i < |ms| ==> Sized(ms[i])
    requires 0 <= open <= Prefix(ms, |ms|)
    requires FirstOfItsId(ms, Pick(ms, open)) && !ms[Pick(ms, open)].exit.coverExcess
    ensures var last := Prefix(ms, Pick(ms, open) + 1);
            && TargetSize(ms, Some(Pick(ms, open)), uncovered, open) == Min(uncovered, last - open)
            && open <= last <= Prefix(ms, |ms|) && (open < Prefix(ms, |ms|) ==> open < last)
  {
    hide FirstOfItsId, Pick, TargetSize, Sized;
    var k := Pick(ms, open);
    PickIsOwner(ms, open, k);
    WaterfallLoopsAgree(ms, open, uncovered);
    PrefixMonotone(ms, k + 1, |ms|);
    hide Prefix;
  }

  /** The next slice of any steady tick at any level within the position and the combined entries. */
  lemma SliceExactly(t: Tick, p: Position, open: int)
    requires Steady(t, p) && forall i :: 0 <= i < |Strategies(t, p)| ==> Sized(Strategies(t, p)[i])
    requires 0 <= open <= p.size && open <= TotalEntry(t, p)
    ensures Strategies(t, p) != [] && t.minSize > 0
    ensures var size := Min(p.size - open, OwnerLacks(t, p, open));
            && 0 <= size && open + size <= TotalEntry(t, p)
            && NextSlice(t, p, open) == if size < t.minSize then 0 else size
    ensures open < TotalEntry(t, p) ==> OwnerLacks(t, p, open) > 0
  {
    hide *;
    SteadyConsidered(t, p);
    var ms := Strategies(t, p);
    SteadyStrategy(t, p, Pick(ms, open));
    TotalIs(t, p);
    SliceOfOwner(ms, open, p.size - open);
    SliceRead(t, p, open, TargetSize(ms, Some(Pick(ms, open)), p.size - open, open));
  }

  lemma SliceRead(t: Tick, p: Position, open: int, size: int)
    requires Strategies(t, p) != [] && open <= p.size
    requires forall i :: 0 <= i < |Strategies(t, p)| ==> Sized(Strategies(t, p)[i])
    requires size == TargetSize(Strategies(t, p), Some(Pick(Strategies(t, p), open)), p.size - open, open)
    ensures OwnerLacks(t, p, open) == Prefix(Strategies(t, p), Pick(Strategies(t, p), open) + 1) - open
    ensures NextSlice(t, p, open) == if p.size - open < t.minSize || size < t.minSize then 0 else size
    ensures var least := Min(p.size - open, OwnerLacks(t, p, open));
            && least <= p.size - open && least <= OwnerLacks(t, p, open)
            && (least == p.size - open || least == OwnerLacks(t, p, open))
  {
    hide Strategies, Pick, TargetSize, Sized, Prefix;
  }

  /** Every submitted order comes to rest in a status that counts. */
  ghost predicate AllRest(os: seq<SellOrder>, answers: seq<Option<Order>>, listing: Listing) {
    && AnswersTo(os, answers, listing) && RestCounted(answers)
    && forall i :: 0 <= i < |answers| ==> answers[i].Some?
  }

  /** Ticks over one position: the orders each one reads, and what became of the orders it submitted. */
  datatype History = History(ticks: seq<Tick>, orders: seq<seq<Order>>, answers: seq<seq<Option<Order>>>)

  /** Each tick reads the orders its predecessor left, with its own quotes, scores and period; all it submits rests. */
  ghost predicate Happens(h: History, p: Position, listing: Listing) {
    && |h.answers| == |h.ticks| && |h.orders| == |h.ticks| + 1
    && NotAnothersOutcome(listing, p.token)
    && forall i :: 0 <= i < |h.ticks| ==> TickHappens(h, p, listing, i)
  }

  ghost predicate TickHappens(h: History, p: Position, listing: Listing, i: nat)
    requires i < |h.ticks| == |h.answers| == |h.orders| - 1
  {
    && AgreesWith(h.ticks[i].plan, listing)
    && AllRest(Submitted(h.ticks[i], h.orders[i], [p]), h.answers[i], listing)
    && h.orders[i + 1] == h.orders[i] + Rested(h.answers[i])
  }

  function Open(h: History, i: nat, p: Position): int
    requires i < |h.orders|
  {
    OpenSells(h.orders[i], p.token)
  }

  function SubmittedAt(h: History, i: nat, p: Position): seq<SellOrder>
    requires i < |h.ticks| && i < |h.orders|
  {
    Submitted(h.ticks[i], h.orders[i], [p])
  }

  lemma RestedOne(os: seq<SellOrder>, answers: seq<Option<Order>>, listing: Listing, token: string)
    requires |os| <= 1 && AllRest(os, answers, listing)
    requires forall o :: o in os ==> LandsOn(o, listing, token)
    ensures OpenSells(Rested(answers), token) == if os == [] then 0 else os[0].size
  {
    if |os| == 1 {
      assert os[0] in os && RestsAs(os[0], answers[0], listing) && answers[..0] == [];
      assert CountedSell(answers[0].value, token);
      hide AllRest, CountedSell;
      assert Rested(answers) == [] + [answers[0].value];
      OpenSellsOne([], answers[0].value, token);
    }
  }

  // ----- any ticks at all -----

  /** A tick on a single position submits nothing or that row's proposal, of at least the minimum size. */
  lemma SingleRow(t: Tick, p: Position, orders: seq<Order>)
    ensures Submitted(t, orders, [p]) == [] || Submitted(t, orders, [p]) == RowProposed(t, orders, p)
    ensures forall o :: o in RowProposed(t, orders, p) ==> t.minSize <= o.size
  {
    SubmittedAreProposed(t, orders, [p]);
    OneProposal(t, p, orders);
    hide FactsOf, IsCovered, Submitted, Considered, TargetSize, Targets.TargetPrice, PlanTarget, StrategyOwned;
  }

  lemma OneProposal(t: Tick, p: Position, orders: seq<Order>)
    ensures ProposedRows(t, orders, [p], 0) == []
    ensures ProposedRows(t, orders, [p], 1) == RowProposed(t, orders, p)
  {
    hide RowProposed;
  }

  lemma TickAdds(h: History, p: Position, listing: Listing, i: nat)
    requires Happens(h, p, listing) && i < |h.ticks|
    requires |h.orders| == |h.ticks| + 1
    ensures var os := SubmittedAt(h, i, p);
            && |os| <= 1
            && (os == [] ==> Open(h, i + 1, p) == Open(h, i, p))
            && (os != [] ==>
                  && Open(h, i + 1, p) == Open(h, i, p) + os[0].size
                  && h.ticks[i].minSize <= os[0].size && 0 <= os[0].size <= Max(0, p.size - Open(h, i, p)))
  {
    var os := SubmittedAt(h, i, p);
    assert TickHappens(h, p, listing, i);
    SingleRow(h.ticks[i], p, h.orders[i]);
    hide Submitted, OpenSells, RowProposed, Rested, AgreesWith, AllRest;
    forall o | o in os
      ensures LandsOn(o, listing, p.token) && 0 <= o.size <= Max(0, p.size - Open(h, i, p))
    {
      ProposalWithinUncovered(h.ticks[i], h.orders[i], p, listing, o);
    }
    OpenSellsAppend(h.orders[i], Rested(h.answers[i]), p.token);
    RestedOne(os, h.answers[i], listing, p.token);
  }

  /** How many of the first `n` ticks submit. */
  function Submissions(h: History, p: Position, n: nat): nat
    requires n <= |h.ticks| < |h.orders|
  {
    if n == 0 then 0 else Submissions(h, p, n - 1) + (if SubmittedAt(h, n - 1, p) == [] then 0 else 1)
  }

  /**
    Whatever plans, quotes and periods the ticks bring: every submission takes a minimum order
    from what was uncovered at the start, so at most that many ticks can submit.
  */
  lemma {:induction false} SubmissionsBounded(h: History, p: Position, listing: Listing, minimum: nat, n: nat)
    requires Happens(h, p, listing) && n <= |h.ticks| < |h.orders|
    requires minimum > 0 && forall i :: 0 <= i < |h.ticks| ==> h.ticks[i].minSize >= minimum
    ensures Submissions(h, p, n) * minimum <= Open(h, n, p) - Open(h, 0, p)
    ensures Open(h, n, p) == Open(h, 0, p) || Open(h, n, p) <= p.size
    ensures Submissions(h, p, n) * minimum <= Max(0, p.size - Open(h, 0, p))
  {
    hide Happens, Open, SubmittedAt;
    if n > 0 {
      SubmissionsBounded(h, p, listing, minimum, n - 1);
      LengthsOf(h, p, listing);
      TickAdds(h, p, listing, n - 1);
      if SubmittedAt(h, n - 1, p) != [] {
        assert (Submissions(h, p, n - 1) + 1) * minimum == Submissions(h, p, n - 1) * minimum + minimum;
      }
    }
  }

  lemma LengthsOf(h: History, p: Position, listing: Listing)
    requires Happens(h, p, listing)
    ensures |h.orders| == |h.ticks| + 1 == |h.answers| + 1
  {
  }

  // ----- steady ticks that rank the strategies alike -----

  ghost predicate AllSteady(h: History, p: Position) {
    forall i :: 0 <= i < |h.ticks| ==> Steady(h.ticks[i], p)
  }

  /** The ticks agree on the ranked strategies and the minimum; quotes and scores may change. */
  ghost predicate SameRanking(h: History, p: Position) {
    forall i :: 0 <= i < |h.ticks| ==>
      Strategies(h.ticks[i], p) == Strategies(h.ticks[0], p) && h.ticks[i].minSize == h.ticks[0].minSize
  }

  lemma SteadyAdds(h: History, p: Position, listing: Listing, i: nat)
    requires Happens(h, p, listing) && i < |h.ticks| == |h.orders| - 1 && Steady(h.ticks[i], p)
    ensures var size := NextSlice(h.ticks[i], p, Open(h, i, p));
            Open(h, i + 1, p) == Open(h, i, p) + size && (SubmittedAt(h, i, p) == [] <==> size == 0)
  {
    TickAdds(h, p, listing, i);
    SteadyTick(h.ticks[i], p, h.orders[i]);
    hide Happens, Steady, NextSlice, Submitted, OpenSells, RowProposed;
  }

  lemma SameSlice(t: Tick, u: Tick, p: Position, open: int)
    requires Strategies(t, p) == Strategies(u, p) && t.minSize == u.minSize
    ensures NextSlice(t, p, open) == NextSlice(u, p, open)
  {
    hide Strategies, Pick, TargetSize;
  }

  lemma RankedAdds(h: History, p: Position, listing: Listing, i: nat)
    requires Happens(h, p, listing) && AllSteady(h, p) && SameRanking(h, p)
    requires i < |h.ticks| == |h.orders| - 1
    ensures var size := NextSlice(h.ticks[0], p, Open(h, i, p));
            Open(h, i + 1, p) == Open(h, i, p) + size && (SubmittedAt(h, i, p) == [] <==> size == 0)
  {
    hide Happens, Steady, NextSlice, Open, SubmittedAt, Strategies;
    SteadyAdds(h, p, listing, i);
    SameSlice(h.ticks[i], h.ticks[0], p, Open(h, i, p));
  }

  /** After `i` ticks either each of them filled the next strategy, or the position has settled. */
  lemma {:induction false} LevelAfter(h: History, p: Position, listing: Listing, t: Tick, i: nat)
    requires Happens(h, p, listing) && AllSteady(h, p) && SameRanking(h, p)
    requires i <= |h.ticks| == |h.orders| - 1 && h.ticks != [] && t == h.ticks[0] && Steady(t, p) && p.size >= 0
    requires forall j :: 0 <= j < |Strategies(t, p)| ==> Sized(Strategies(t, p)[j])
    requires Open(h, 0, p) == 0
    ensures Open(h, i, p) <= p.size
    ensures Settled(t, p, Open(h, i, p))
            || (i < |Strategies(t, p)| && Open(h, i, p) == Prefix(Strategies(t, p), i))
    decreases i
  {
    hide Steady, NextSlice, Open, Happens, AllSteady, SameRanking, Strategies, SubmittedAt;
    if i > 0 {
      LevelAfter(h, p, listing, t, i - 1);
      RankedAdds(h, p, listing, i - 1);
      var open := Open(h, i - 1, p);
      if Settled(t, p, open) {
        SettledStays(t, p, open);
      } else {
        SliceAtLevel(t, p, i - 1);
      }
    } else {
      SteadyConsidered(t, p);
    }
  }

  lemma SettledStays(t: Tick, p: Position, open: int)
    requires Steady(t, p) && open <= p.size
    requires forall j :: 0 <= j < |Strategies(t, p)| ==> Sized(Strategies(t, p)[j])
    requires Settled(t, p, open)
    ensures NextSlice(t, p, open) == 0
  {
    hide Steady, Strategies, Sized, Pick, TargetSize, Prefix;
    SteadyConsidered(t, p);
    if open == TotalEntry(t, p) {
      PrefixMonotone(Strategies(t, p), 0, |Strategies(t, p)|);
      NothingBefore(Strategies(t, p));
      SliceExactly(t, p, open);
    }
  }

  lemma NothingBefore(ms: seq<Strategy>)
    ensures Prefix(ms, 0) == 0
  {
  }

  /** While the ranking stays, a tick that submits nothing is followed only by such ticks. */
  lemma {:induction false} SilentForever(h: History, p: Position, listing: Listing, i: nat, j: nat)
    requires Happens(h, p, listing) && AllSteady(h, p) && SameRanking(h, p)
    requires i <= j < |h.ticks| == |h.orders| - 1
    requires SubmittedAt(h, i, p) == []
    ensures SubmittedAt(h, j, p) == [] && Open(h, j, p) == Open(h, i, p)
    decreases j
  {
    hide *;
    if i < j {
      SilentForever(h, p, listing, i, j - 1);
      RankedAdds(h, p, listing, j - 1);
      RankedAdds(h, p, listing, j);
    }
  }

  lemma SilentAfter(h: History, p: Position, listing: Listing, i: nat)
    requires Happens(h, p, listing) && AllSteady(h, p) && SameRanking(h, p)
    requires i < |h.ticks| == |h.orders| - 1 && SubmittedAt(h, i, p) == []
    ensures forall j :: i <= j < |h.ticks| ==> SubmittedAt(h, j, p) == [] && Open(h, j, p) == Open(h, i, p)
  {
    hide *;
    forall j | i <= j < |h.ticks|
      ensures SubmittedAt(h, j, p) == [] && Open(h, j, p) == Open(h, i, p)
    {
      SilentForever(h, p, listing, i, j);
    }
  }

  /**
    Repeated ticks converge, whatever quotes and scores they bring, as long as they rank the
    strategies alike.  With `n` matching strategies, a tick that submits is among the first `n`;
    from then on, and from the first tick that submits nothing, the resting size never changes
    again and equals the smaller of the position and the combined entry sizes, or falls short of
    the position by less than a minimum order.
  */
  lemma TicksConverge(h: History, p: Position, listing: Listing, t: Tick, i: nat)
    requires Happens(h, p, listing) && AllSteady(h, p) && SameRanking(h, p)
    requires i < |h.ticks| == |h.orders| - 1 && t == h.ticks[0] && p.size >= 0
    requires OpenSells(h.orders[0], p.token) == 0
    ensures forall k :: 0 <= k < |Strategies(t, p)| ==> Sized(Strategies(t, p)[k])
    ensures SubmittedAt(h, i, p) == [] || i < |Strategies(t, p)|
    ensures SubmittedAt(h, i, p) == [] ==>
              && (Open(h, i, p) == Min(p.size, TotalEntry(t, p)) || 0 <= p.size - Open(h, i, p) < t.minSize)
              && forall j :: i <= j < |h.ticks| ==> SubmittedAt(h, j, p) == [] && Open(h, j, p) == Open(h, i, p)
  {
    AllSized(t, p);
    OpenIs(h, 0, p);
    hide Steady, NextSlice, Open, Happens, SubmittedAt, Strategies, OpenSells, SameRanking;
    LevelAfter(h, p, listing, t, i);
    RankedAdds(h, p, listing, i);
    hide AllSteady;
    if SubmittedAt(h, i, p) == [] { SilentAfter(h, p, listing, i); }
    if Settled(t, p, Open(h, i, p)) {
      SettledStays(t, p, Open(h, i, p));
    } else {
      SliceAtLevel(t, p, i);
    }
  }

  lemma OpenIs(h: History, i: nat, p: Position)
    requires i < |h.orders|
    ensures Open(h, i, p) == OpenSells(h.orders[i], p.token)
  {
  }

  // ----- steady ticks whose periods rank the strategies anew -----

  /** One plan and minimum throughout; every state may change, and with it the ranking. */
  ghost predicate SamePlan(h: History) {
    forall i :: 0 <= i < |h.ticks| ==>
      h.ticks[i].plan == h.ticks[0].plan && h.ticks[i].minSize == h.ticks[0].minSize
  }

  lemma SameTotal(t: Tick, u: Tick, p: Position)
    requires t.plan == u.plan && Steady(t, p) && Steady(u, p)
    requires forall i :: 0 <= i < |Strategies(t, p)| ==> Sized(Strategies(t, p)[i])
    requires forall i :: 0 <= i < |Strategies(u, p)| ==> Sized(Strategies(u, p)[i])
    ensures TotalEntry(t, p) == TotalEntry(u, p)
  {
    hide PositionStrategies, Lookup, Sized, Prefix, PlainTarget, Considered;
    var ref := RefFor(t, p.token);
    assert ref == RefFor(u, p.token) && ref.Some?;
    TotalIgnoresPeriod(t.plan.strategies, Query(p.token, ref.value.outcome, StateFor(t, ref).period),
                       Query(p.token, ref.value.outcome, StateFor(u, ref).period));
  }

  /**
    The stated level: the smaller of position and combined entries, or short of the position by
    less than a minimum order.
  */
  predicate Reached(t: Tick, p: Position, open: int)
    requires forall i :: 0 <= i < |Strategies(t, p)| ==> Sized(Strategies(t, p)[i])
  {
    open == Min(p.size, TotalEntry(t, p)) || p.size - open < t.minSize
  }

  /** The resting size never passes the position or the combined entries. */
  lemma {:induction false} LevelWithin(h: History, p: Position, listing: Listing, t: Tick, i: nat)
    requires Happens(h, p, listing) && AllSteady(h, p) && SamePlan(h)
    requires i <= |h.ticks| == |h.orders| - 1 && h.ticks != [] && t == h.ticks[0] && Steady(t, p)
    requires forall j :: 0 <= j < |Strategies(t, p)| ==> Sized(Strategies(t, p)[j])
    requires 0 <= Open(h, 0, p) <= Min(p.size, TotalEntry(t, p))
    ensures 0 <= Open(h, i, p) <= Min(p.size, TotalEntry(t, p))
    decreases i
  {
    hide Steady, NextSlice, Open, Happens, SubmittedAt, Strategies, TotalEntry, OwnerLacks;
    if i > 0 {
      LevelWithin(h, p, listing, t, i - 1);
      var u := h.ticks[i - 1];
      AllSized(u, p);
      SameTotal(t, u, p);
      SteadyAdds(h, p, listing, i - 1);
      SliceExactly(u, p, Open(h, i - 1, p));
    }
  }

  /**
    Over ticks whose periods may rank the strategies anew each time.  A tick submits nothing
    exactly when less than a minimum order is uncovered, or the owner of the next slice lacks
    less than one.  Such a tick misses the stated level exactly when a minimum order is
    uncovered, the strategies are not all full, and the owner lacks less than a minimum order.
  */
  lemma TicksUnderChangingPeriods(h: History, p: Position, listing: Listing, t: Tick, i: nat)
    requires Happens(h, p, listing) && AllSteady(h, p) && SamePlan(h)
    requires i < |h.ticks| == |h.orders| - 1 && t == h.ticks[i]
    requires forall j :: 0 <= j < |Strategies(t, p)| ==> Sized(Strategies(t, p)[j])
    requires 0 <= Open(h, 0, p) <= Min(p.size, TotalEntry(t, p))
    ensures Strategies(t, p) != []
    ensures var open := Open(h, i, p);
            var size := Min(p.size - open, OwnerLacks(t, p, open));
            && 0 <= open <= Min(p.size, TotalEntry(t, p))
            && Open(h, i + 1, p) == open + (if size < t.minSize then 0 else size)
            && (SubmittedAt(h, i, p) == [] <==> p.size - open < t.minSize || OwnerLacks(t, p, open) < t.minSize)
            && (SubmittedAt(h, i, p) == [] && !Reached(t, p, open)
                <==> p.size - open >= t.minSize && open < TotalEntry(t, p) && OwnerLacks(t, p, open) < t.minSize)
  {
    hide Steady, NextSlice, Open, Happens, SubmittedAt, Strategies, TotalEntry, OwnerLacks;
    AllSized(h.ticks[0], p);
    SameTotal(h.ticks[0], t, p);
    LevelWithin(h, p, listing, h.ticks[0], i);
    SteadyAdds(h, p, listing, i);
    SliceExactly(t, p, Open(h, i, p));
  }
}
