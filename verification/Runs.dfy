/**
  Whole runs: ticks interleaved with partial fills, cancels and operator buys.

  Every tick sees a fresh snapshot; an order's size is its remaining size.  Each tick may bring
  its own plan, quotes and gates, and the API may reject any order it submits.
*/
module Runs {
  import opened Wrappers
  import opened Plans
  import opened Protection
  import opened TickLaws

  datatype Account = Account(positions: seq<Position>, orders: seq<Order>)

  /** The orders that came to rest, in order; None is an order the exchange did not accept. */
  function Rested(answers: seq<Option<Order>>): seq<Order> {
    if answers == [] then []
    else
      var n := |answers| - 1;
      Rested(answers[..n]) + (if answers[n].Some? then [answers[n].value] else [])
  }

  /**
    An accepted sell rests on the token the exchange lists for its outcome, with the submitted
    size and whatever identifier, slug and status the exchange gives it.
  */
  predicate RestsAs(o: SellOrder, answer: Option<Order>, listing: Listing) {
    answer.Some? ==>
      answer.value.side == "sell" && LandsOn(o, listing, answer.value.token) && answer.value.size == o.size
  }

  ghost predicate AnswersTo(os: seq<SellOrder>, answers: seq<Option<Order>>, listing: Listing) {
    |answers| == |os| && forall i :: 0 <= i < |os| ==> RestsAs(os[i], answers[i], listing)
  }

  datatype Step =
    | TickStep(tick: Tick, answers: seq<Option<Order>>)
    | FillStep(index: nat, quantity: int)
    | CancelStep(index: nat)
    | BuyStep(token: string, quantity: int)

  /** Holdings of every token are unchanged, except `token`'s, which move by `delta`. */
  ghost predicate HoldingsMove(before: seq<Position>, after: seq<Position>, token: string, delta: int) {
    forall x: string :: Holding(after, x) == Holding(before, x) + (if x == token then delta else 0)
  }

  /** What one step may do to the account, whatever plan a tick brings. */
  ghost predicate Moves(a: Account, step: Step, b: Account, listing: Listing) {
    match step
    case TickStep(tick, answers) =>
      && TokensUnambiguous(a.positions, listing)
      && AnswersTo(Submitted(tick, a.orders, a.positions), answers, listing)
      && b.positions == a.positions
      && b.orders == a.orders + Rested(answers)
    case FillStep(i, q) =>
      && i < |a.orders| && 0 <= q <= a.orders[i].size
      && (a.orders[i].side == "buy" || CountedSell(a.orders[i], a.orders[i].token))
      && b.orders == a.orders[i := a.orders[i].(size := a.orders[i].size - q)]
      && HoldingsMove(a.positions, b.positions, a.orders[i].token, if a.orders[i].side == "buy" then q else -q)
    case CancelStep(i) =>
      && i < |a.orders|
      && b.orders == a.orders[..i] + a.orders[i + 1..]
      && b.positions == a.positions
    case BuyStep(token, q) =>
      && q >= 0 && b.orders == a.orders
      && HoldingsMove(a.positions, b.positions, token, q)
  }

  /** A step whose tick, if it is one, pairs outcomes and tokens as the exchange does. */
  ghost predicate Next(a: Account, step: Step, b: Account, listing: Listing) {
    Moves(a, step, b, listing) && (step.TickStep? ==> AgreesWith(step.tick.plan, listing))
  }

  ghost predicate SizesNonNegative(orders: seq<Order>) {
    forall i :: 0 <= i < |orders| ==> orders[i].size >= 0
  }

  /** How far the resting sells on a token exceed what is held of it. */
  function Excess(a: Account, token: string): int {
    Max(0, OpenSells(a.orders, token) - Holding(a.positions, token))
  }

  lemma {:induction false} OpenSellsNonNegative(orders: seq<Order>, token: string)
    requires SizesNonNegative(orders)
    ensures OpenSells(orders, token) >= 0
  {
    if orders != [] {
      OpenSellsNonNegative(orders[..|orders| - 1], token);
    }
  }

  lemma {:induction false} ProposedSizesNonNegative(t: Tick, orders: seq<Order>, ps: seq<Position>, n: nat)
    requires n <= |ps|
    ensures forall o :: o in ProposedRows(t, orders, ps, n) ==> o.size >= 0
  {
    hide RowProposed;
    if n > 0 {
      ProposedSizesNonNegative(t, orders, ps, n - 1);
      forall o | o in RowProposed(t, orders, ps[n - 1])
        ensures o.size >= 0
      {
        ProposalWithinUncovered(t, orders, ps[n - 1], map[], o);
      }
    }
  }

  /** What comes to rest on a token is at most what was submitted for it. */
  lemma {:induction false} RestedWithinSubmitted(
    os: seq<SellOrder>, answers: seq<Option<Order>>, listing: Listing, token: string)
    requires AnswersTo(os, answers, listing)
    requires forall o :: o in os ==> o.size >= 0
    ensures SizesNonNegative(Rested(answers))
    ensures 0 <= OpenSells(Rested(answers), token) <= SoldOn(os, listing, token)
  {
    if os != [] {
      var n := |os| - 1;
      RestedWithinSubmitted(os[..n], answers[..n], listing, token);
      assert os[n] in os && RestsAs(os[n], answers[n], listing);
      hide OpenSells;
      var before := Rested(answers[..n]);
      if answers[n].Some? {
        assert Rested(answers) == before + [answers[n].value];
        OpenSellsOne(before, answers[n].value, token);
      } else {
        assert Rested(answers) == before;
      }
    }
  }

  lemma OpenSellsOne(orders: seq<Order>, o: Order, token: string)
    ensures OpenSells(orders + [o], token) == OpenSells(orders, token) + (if CountedSell(o, token) then o.size else 0)
  {
    assert (orders + [o])[..|orders|] == orders;
  }

  lemma {:induction false} OpenSellsUpdated(orders: seq<Order>, i: nat, size: int, token: string)
    requires i < |orders|
    ensures OpenSells(orders[i := orders[i].(size := size)], token)
         == OpenSells(orders, token) + (if CountedSell(orders[i], token) then size - orders[i].size else 0)
  {
    var n := |orders| - 1;
    var after := orders[i := orders[i].(size := size)];
    if i < n {
      assert after[..n] == orders[..n][i := orders[i].(size := size)];
      OpenSellsUpdated(orders[..n], i, size, token);
    } else {
      assert after[..n] == orders[..n];
    }
  }

  lemma OpenSellsRemoved(orders: seq<Order>, i: nat, token: string)
    requires i < |orders|
    ensures OpenSells(orders, token)
         == OpenSells(orders[..i] + orders[i + 1..], token)
            + (if CountedSell(orders[i], token) then orders[i].size else 0)
  {
    hide CountedSell, OpenSells;
    assert orders == (orders[..i] + [orders[i]]) + orders[i + 1..];
    OpenSellsAppend(orders[..i] + [orders[i]], orders[i + 1..], token);
    OpenSellsAppend(orders[..i], orders[i + 1..], token);
    OpenSellsOne(orders[..i], orders[i], token);
  }

  lemma TickStepKeeps(a: Account, step: Step, b: Account, listing: Listing, token: string)
    requires step.TickStep? && Next(a, step, b, listing) && SizesNonNegative(a.orders)
    ensures SizesNonNegative(b.orders) && Excess(b, token) <= Excess(a, token)
  {
    hide AgreesWith, TokensUnambiguous, Submitted, OpenSells, Holding, Rested, SoldOn, AnswersTo, SubmittingRows;
    var os := Submitted(step.tick, a.orders, a.positions);
    OpenSellsNonNegative(a.orders, token);
    TickNeverOversells(step.tick, a.orders, a.positions, listing, token);
    SubmittedAreProposed(step.tick, a.orders, a.positions);
    ProposedSizesNonNegative(step.tick, a.orders, a.positions, SubmittingRows(step.tick, a.positions));
    RestedWithinSubmitted(os, step.answers, listing, token);
    OpenSellsAppend(a.orders, Rested(step.answers), token);
  }

  /** No step of any kind makes the oversold amount of any token grow. */
  lemma StepNeverOversells(a: Account, step: Step, b: Account, listing: Listing, token: string)
    requires Next(a, step, b, listing) && SizesNonNegative(a.orders)
    ensures SizesNonNegative(b.orders) && Excess(b, token) <= Excess(a, token)
  {
    hide Submitted, OpenSells, Holding, Rested;
    match step {
      case TickStep(_, _) => TickStepKeeps(a, step, b, listing, token);
      case FillStep(i, q) =>
        OpenSellsUpdated(a.orders, i, a.orders[i].size - q, token);
      case CancelStep(i) =>
        OpenSellsRemoved(a.orders, i, token);
      case BuyStep(_, _) =>
    }
  }

  /**
    Why fills are of counted sells: a fill of a sell that does not count leaves the resting sells
    as they are, so they stay within what is held exactly when that much was still uncovered.
  */
  lemma UncountedFill(orders: seq<Order>, i: nat, q: int, before: seq<Position>, after: seq<Position>)
    requires i < |orders| && !CountedSell(orders[i], orders[i].token)
    requires HoldingsMove(before, after, orders[i].token, -q)
    ensures var token := orders[i].token;
            var left := orders[i := orders[i].(size := orders[i].size - q)];
            OpenSells(left, token) <= Holding(after, token) <==> OpenSells(orders, token) + q <= Holding(before, token)
  {
    hide OpenSells, Holding;
    OpenSellsUpdated(orders, i, orders[i].size - q, orders[i].token);
  }

  ghost predicate Run(states: seq<Account>, steps: seq<Step>, listing: Listing) {
    && |states| == |steps| + 1
    && SizesNonNegative(states[0].orders)
    && forall i :: 0 <= i < |steps| ==> Next(states[i], steps[i], states[i + 1], listing)
  }

  lemma {:induction false} ExcessNeverGrows(
    states: seq<Account>, steps: seq<Step>, listing: Listing, token: string, i: nat)
    requires Run(states, steps, listing) && i < |states|
    ensures SizesNonNegative(states[i].orders) && Excess(states[i], token) <= Excess(states[0], token)
  {
    if i > 0 {
      hide Next, SizesNonNegative, Excess;
      ExcessNeverGrows(states, steps, listing, token, i - 1);
      assert Next(states[i - 1], steps[i - 1], states[(i - 1) + 1], listing);
      StepNeverOversells(states[i - 1], steps[i - 1], states[i], listing, token);
    }
  }

  /**
    Never oversell, over any run: from an account whose resting sells are within its holdings,
    every interleaving of ticks, partial fills, cancels and operator buys keeps them within.
  */
  lemma RunNeverOversells(states: seq<Account>, steps: seq<Step>, listing: Listing)
    requires Run(states, steps, listing)
    requires forall token :: OpenSells(states[0].orders, token) <= Holding(states[0].positions, token)
    ensures forall i, token :: 0 <= i < |states| ==>
              OpenSells(states[i].orders, token) <= Holding(states[i].positions, token)
  {
    hide OpenSells, Holding, Next;
    forall i, token | 0 <= i < |states|
      ensures OpenSells(states[i].orders, token) <= Holding(states[i].positions, token)
    {
      ExcessNeverGrows(states, steps, listing, token, i);
    }
  }

  // ----- all resting sells, counted or not -----

  /** Total size of the sells on a token, whatever their status. */
  function AllSells(orders: seq<Order>, token: string): int {
    if orders == [] then 0
    else
      var n := |orders| - 1;
      AllSells(orders[..n], token)
      + (if orders[n].side == "sell" && orders[n].token == token then orders[n].size else 0)
  }

  ghost predicate SellsCount(orders: seq<Order>) {
    forall i :: 0 <= i < |orders| && orders[i].side == "sell" ==>
      orders[i].status == "live" || orders[i].status == "open" || orders[i].status == "submitted"
  }

  /** Whatever is accepted rests as live, open or submitted. */
  ghost predicate RestCounted(answers: seq<Option<Order>>) {
    forall i :: 0 <= i < |answers| && answers[i].Some? ==>
      var status := answers[i].value.status; status == "live" || status == "open" || status == "submitted"
  }

  lemma {:induction false} CountedSellsAreAll(orders: seq<Order>, token: string)
    requires SellsCount(orders)
    ensures AllSells(orders, token) == OpenSells(orders, token)
  {
    if orders != [] {
      CountedSellsAreAll(orders[..|orders| - 1], token);
    }
  }

  lemma {:induction false} RestedCounted(answers: seq<Option<Order>>)
    requires RestCounted(answers)
    ensures SellsCount(Rested(answers))
  {
    if answers != [] {
      RestedCounted(answers[..|answers| - 1]);
    }
  }

  lemma StepKeepsCounted(a: Account, step: Step, b: Account, listing: Listing)
    requires Next(a, step, b, listing) && SellsCount(a.orders)
    requires step.TickStep? ==> RestCounted(step.answers)
    ensures SellsCount(b.orders)
  {
    hide Rested, Submitted, AgreesWith, TokensUnambiguous, AnswersTo, HoldingsMove, OpenSells;
    if step.TickStep? {
      RestedCounted(step.answers);
    }
  }

  lemma {:induction false} SellsKeepCounting(states: seq<Account>, steps: seq<Step>, listing: Listing, i: nat)
    requires Run(states, steps, listing) && i < |states| && SellsCount(states[0].orders)
    requires forall j :: 0 <= j < |steps| && steps[j].TickStep? ==> RestCounted(steps[j].answers)
    ensures SellsCount(states[i].orders)
  {
    if i > 0 {
      hide Next, SizesNonNegative, SellsCount, RestCounted;
      SellsKeepCounting(states, steps, listing, i - 1);
      assert Next(states[i - 1], steps[i - 1], states[(i - 1) + 1], listing);
      StepKeepsCounted(states[i - 1], steps[i - 1], states[i], listing);
    }
  }

  /** Where every accepted sell rests as live, open or submitted, all resting sells stay within what is held. */
  lemma RunKeepsAllSells(states: seq<Account>, steps: seq<Step>, listing: Listing)
    requires Run(states, steps, listing) && SellsCount(states[0].orders)
    requires forall j :: 0 <= j < |steps| && steps[j].TickStep? ==> RestCounted(steps[j].answers)
    requires forall token :: AllSells(states[0].orders, token) <= Holding(states[0].positions, token)
    ensures forall i, token :: 0 <= i < |states| ==>
              AllSells(states[i].orders, token) <= Holding(states[i].positions, token)
  {
    hide OpenSells, AllSells, Holding, Next, SellsCount, RestCounted, SizesNonNegative;
    forall i, token | 0 <= i < |states|
      ensures AllSells(states[i].orders, token) <= Holding(states[i].positions, token)
    {
      SellsKeepCounting(states, steps, listing, i);
      CountedSellsAreAll(states[0].orders, token);
      CountedSellsAreAll(states[i].orders, token);
      ExcessNeverGrows(states, steps, listing, token, i);
    }
  }
}
