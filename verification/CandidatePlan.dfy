/**
  The candidate replacement plan built from what a tick found: it adopts every position, order
  and trade reaction that names a token and disables fresh entries.
*/
module CandidatePlan {
  import opened Wrappers
  import opened Prices
  import opened Plans

  datatype PositionReaction = PositionReaction(
    action: string, token: string, outcomeLabel: string, size: int, openSells: int, uncovered: int,
    avgPrice: Option<real>, skipRevision: bool)

  /** A resting order or a trade the plan does not know. */
  datatype UnknownReaction = UnknownReaction(token: string, outcomeLabel: string, id: string, side: string)

  type OrderReaction = UnknownReaction

  type TradeReaction = UnknownReaction

  datatype Kind = PositionKind | OrderKind | TradeKind

  /** What adoption reads off a reaction of any kind. */
  datatype Item = Item(token: string, outcomeLabel: string, targetRequired: Option<bool>)

  function PositionItems(rs: seq<PositionReaction>): (r: seq<Item>)
    ensures |r| == |rs|
  {
    seq(|rs|, i requires 0 <= i < |rs| => Item(rs[i].token, rs[i].outcomeLabel, Some(rs[i].uncovered > 0)))
  }

  function UnknownItems(rs: seq<UnknownReaction>): (r: seq<Item>)
    ensures |r| == |rs|
  {
    seq(|rs|, i requires 0 <= i < |rs| => Item(rs[i].token, rs[i].outcomeLabel, None))
  }

  // ----- strategy identifiers -----

  function Lower(c: char): char {
    if 'A' <= c <= 'Z' then ((c as int) + 32) as char else c
  }

  predicate Alphanumeric(c: char) { '0' <= c <= '9' || 'a' <= c <= 'z' }

  /** Alphanumeric runs joined by single dashes; `pending` is a dash owed before the next run. */
  function Slugged(s: string, started: bool, pending: bool): string {
    if s == "" then ""
    else
      var c := Lower(s[0]);
      if Alphanumeric(c) then (if started && pending then "-" else "") + [c] + Slugged(s[1..], true, false)
      else Slugged(s[1..], started, true)
  }

  function SafeSlug(name: string): string {
    var slug := Slugged(name, false, false);
    var named := if slug == "" then "position" else slug;
    if |named| > 48 then named[..48] else named
  }

  function Digit(d: nat): char
    requires d < 10
  {
    ('0' as int + d) as char
  }

  function Decimal(n: nat): (s: string)
    ensures s != ""
  {
    if n < 10 then [Digit(n)] else Decimal(n / 10) + [Digit(n % 10)]
  }

  function IdPrefix(kind: Kind): string {
    match kind
    case PositionKind => "operator-position-management-"
    case OrderKind => "operator-open-order-management-"
    case TradeKind => "operator-trade-management-"
  }

  function StrategyId(kind: Kind, slug: string, index: nat): string {
    IdPrefix(kind) + slug + "-" + Decimal(index)
  }

  lemma {:induction false} DecimalInjective(m: nat, n: nat)
    requires Decimal(m) == Decimal(n)
    ensures m == n
  {
    var a, b := Decimal(m), Decimal(n);
    assert a[|a| - 1] == Digit(m % 10) && b[|b| - 1] == Digit(n % 10);
    if m >= 10 && n >= 10 {
      assert a[..|a| - 1] == Decimal(m / 10) && b[..|b| - 1] == Decimal(n / 10);
      DecimalInjective(m / 10, n / 10);
    }
  }

  lemma {:induction false} DecimalHasNoDash(n: nat)
    ensures '-' !in Decimal(n)
  {
    if n >= 10 {
      DecimalHasNoDash(n / 10);
    }
  }

  /** The last dash splits a string in one way only. */
  lemma LastDashSplits(a: string, x: string, b: string, y: string)
    requires '-' !in x && '-' !in y
    requires a + "-" + x == b + "-" + y
    ensures x == y
  {
    var s := a + "-" + x;
    var t := b + "-" + y;
    forall p | |a| < p < |s|
      ensures s[p] != '-'
    {
      assert s[p] == x[p - |a| - 1];
    }
    forall p | |b| < p < |t|
      ensures t[p] != '-'
    {
      assert t[p] == y[p - |b| - 1];
    }
    assert s[|a|] == '-' && t[|b|] == '-';
    assert |a| == |b|;
    assert s[|a| + 1..] == x && t[|b| + 1..] == y;
  }

  lemma StrategyIdInjective(k: Kind, s: string, i: nat, k': Kind, s': string, i': nat)
    requires StrategyId(k, s, i) == StrategyId(k', s', i')
    ensures k == k' && i == i'
  {
    var a, b := StrategyId(k, s, i), StrategyId(k', s', i');
    assert a[9] == IdPrefix(k)[9] && b[9] == IdPrefix(k')[9];
    DecimalHasNoDash(i);
    DecimalHasNoDash(i');
    LastDashSplits(IdPrefix(k) + s, Decimal(i), IdPrefix(k') + s', Decimal(i'));
    DecimalInjective(i, i');
  }

  // ----- adoption -----

  /** A token-bearing reaction with its one-based position among the reactions of its kind. */
  datatype Bearer = Bearer(kind: Kind, index: nat, item: Item)

  function Bearers(kind: Kind, items: seq<Item>, n: nat): (bs: seq<Bearer>)
    requires n <= |items|
    ensures forall b :: b in bs ==>
              b.kind == kind && 1 <= b.index <= n && b.item == items[b.index - 1] && b.item.token != ""
  {
    if n == 0 then []
    else
      Bearers(kind, items, n - 1)
      + (if items[n - 1].token != "" then [Bearer(kind, n, items[n - 1])] else [])
  }

  function AllBearers(ps: seq<PositionReaction>, os: seq<OrderReaction>, ts: seq<TradeReaction>): (bs: seq<Bearer>)
    ensures forall b :: b in bs ==> b.item.token != ""
  {
    Bearers(PositionKind, PositionItems(ps), |ps|)
    + Bearers(OrderKind, UnknownItems(os), |os|)
    + Bearers(TradeKind, UnknownItems(ts), |ts|)
  }

  function OutcomeOf(lookup: map<string, OutcomeRef>, token: string): string {
    if token in lookup then lookup[token].outcome else ""
  }

  function MarketOf(lookup: map<string, OutcomeRef>, token: string, market: string): string {
    if token in lookup && lookup[token].market != "" then lookup[token].market else market
  }

  function LabelOf(lookup: map<string, OutcomeRef>, item: Item): string {
    if item.outcomeLabel != "" then item.outcomeLabel
    else if OutcomeOf(lookup, item.token) != "" then OutcomeOf(lookup, item.token)
    else item.token
  }

  function Family(kind: Kind): string {
    match kind
    case PositionKind => "operator_position_management"
    case OrderKind => "operator_order_management"
    case TradeKind => "operator_trade_management"
  }

  function AdoptAction(kind: Kind): string {
    match kind
    case PositionKind => "adopt"
    case OrderKind => "adopt_open_order"
    case TradeKind => "adopt_trade_fill"
  }

  function StrategyFor(b: Bearer, lookup: map<string, OutcomeRef>, market: string): Strategy {
    var token := b.item.token;
    Strategy(
      StrategyId(b.kind, SafeSlug(LabelOf(lookup, b.item)), b.index), Family(b.kind), LabelOf(lookup, b.item),
      None, 0, 0, true,
      EntryRules(token, "", OutcomeOf(lookup, token), MarketOf(lookup, token, market), Some(0), None, NO_GATE, true, 0),
      ExitRules(b.item.targetRequired, false, NO_RULES), Some(StopRules(None, None, None)))
  }

  function ReconciliationFor(b: Bearer, lookup: map<string, OutcomeRef>): Reconciliation {
    Reconciliation(
      AdoptAction(b.kind), "", "", b.item.token, OutcomeOf(lookup, b.item.token), LabelOf(lookup, b.item), "")
  }

  function StrategiesFor(bs: seq<Bearer>, lookup: map<string, OutcomeRef>, market: string): (r: seq<Strategy>)
    ensures |r| == |bs|
    ensures forall i :: 0 <= i < |bs| ==> r[i] == StrategyFor(bs[i], lookup, market)
  {
    seq(|bs|, i requires 0 <= i < |bs| => StrategyFor(bs[i], lookup, market))
  }

  function ReconciliationsFor(bs: seq<Bearer>, lookup: map<string, OutcomeRef>): (r: seq<Reconciliation>)
    ensures |r| == |bs|
    ensures forall i :: 0 <= i < |bs| ==> r[i] == ReconciliationFor(bs[i], lookup)
  {
    seq(|bs|, i requires 0 <= i < |bs| => ReconciliationFor(bs[i], lookup))
  }

  function Candidate(
    eventId: string, plan: Plan, ps: seq<PositionReaction>, os: seq<OrderReaction>, ts: seq<TradeReaction>)
    : Option<Plan>
  {
    var bs := AllBearers(ps, os, ts);
    if plan.marketId == "" || bs == [] then None
    else
      var lookup := Lookup(plan);
      Some(Plan(plan.marketId, {eventId}, StrategiesFor(bs, lookup, plan.marketId), ReconciliationsFor(bs, lookup)))
  }

  method AdoptReactions(
    kind: Kind, items: seq<Item>, lookup: map<string, OutcomeRef>, market: string,
    ghost before: seq<Bearer>, strategies: seq<Strategy>, reconciliations: seq<Reconciliation>)
    returns (ss: seq<Strategy>, rs: seq<Reconciliation>)
    requires strategies == StrategiesFor(before, lookup, market)
    requires reconciliations == ReconciliationsFor(before, lookup)
    ensures ss == StrategiesFor(before + Bearers(kind, items, |items|), lookup, market)
    ensures rs == ReconciliationsFor(before + Bearers(kind, items, |items|), lookup)
  {
    hide *;
    ss, rs := strategies, reconciliations;
    BearersStart(kind, items, before);
    for i := 0 to |items|
      invariant ss == StrategiesFor(before + Bearers(kind, items, i), lookup, market)
      invariant rs == ReconciliationsFor(before + Bearers(kind, items, i), lookup)
    {
      var item := items[i];
      BearersStep(kind, items, i, before);
      if item.token == "" {
        continue;
      }
      var b := Bearer(kind, i + 1, item);
      ss := ss + [StrategyFor(b, lookup, market)];
      rs := rs + [ReconciliationFor(b, lookup)];
      AdoptOne(before + Bearers(kind, items, i), b, lookup, market);
    }
  }

  lemma BearersStart(kind: Kind, items: seq<Item>, before: seq<Bearer>)
    ensures before + Bearers(kind, items, 0) == before
  {
  }

  lemma BearersStep(kind: Kind, items: seq<Item>, i: nat, before: seq<Bearer>)
    requires i < |items|
    ensures before + Bearers(kind, items, i + 1)
         == (before + Bearers(kind, items, i)) + (if items[i].token == "" then [] else [Bearer(kind, i + 1, items[i])])
  {
    assert Bearers(kind, items, i + 1)
        == Bearers(kind, items, i) + (if items[i].token == "" then [] else [Bearer(kind, i + 1, items[i])]);
  }

  lemma AdoptOne(bs: seq<Bearer>, b: Bearer, lookup: map<string, OutcomeRef>, market: string)
    ensures StrategiesFor(bs + [b], lookup, market)
         == StrategiesFor(bs, lookup, market) + [StrategyFor(b, lookup, market)]
    ensures ReconciliationsFor(bs + [b], lookup) == ReconciliationsFor(bs, lookup) + [ReconciliationFor(b, lookup)]
  {
    hide StrategyFor, ReconciliationFor;
  }

  method OperatorPlanCandidate(
    eventId: string, plan: Plan, ps: seq<PositionReaction>, os: seq<OrderReaction>, ts: seq<TradeReaction>)
    returns (candidate: Option<Plan>)
    ensures candidate == Candidate(eventId, plan, ps, os, ts)
  {
    if ps == [] && os == [] && ts == [] {
      return None;
    }
    if plan.marketId == "" {
      return None;
    }
    var lookup := PlanOutcomeLookup(plan);
    ghost var bp := Bearers(PositionKind, PositionItems(ps), |ps|);
    ghost var bo := Bearers(OrderKind, UnknownItems(os), |os|);
    var ss, rs := AdoptReactions(PositionKind, PositionItems(ps), lookup, plan.marketId, [], [], []);
    assert [] + bp == bp;
    ss, rs := AdoptReactions(OrderKind, UnknownItems(os), lookup, plan.marketId, bp, ss, rs);
    ss, rs := AdoptReactions(TradeKind, UnknownItems(ts), lookup, plan.marketId, bp + bo, ss, rs);
    if ss == [] {
      return None;
    }
    return Some(Plan(plan.marketId, {eventId}, ss, rs));
  }

  // ----- what every candidate plan satisfies -----

  /** Each token-bearing reaction yields its bearer. */
  lemma {:induction false} BearerListed(kind: Kind, items: seq<Item>, n: nat, i: nat) returns (j: nat)
    requires i < n <= |items| && items[i].token != ""
    ensures j < |Bearers(kind, items, n)| && Bearers(kind, items, n)[j] == Bearer(kind, i + 1, items[i])
  {
    if i == n - 1 {
      j := |Bearers(kind, items, n - 1)|;
    } else {
      j := BearerListed(kind, items, n - 1, i);
    }
  }

  /** Bearers keep the order of the reactions. */
  lemma {:induction false} BearersIncreasing(kind: Kind, items: seq<Item>, n: nat, i: nat, j: nat)
    requires n <= |items| && i < j < |Bearers(kind, items, n)|
    ensures Bearers(kind, items, n)[i].index < Bearers(kind, items, n)[j].index
  {
    var before := Bearers(kind, items, n - 1);
    if j < |before| {
      BearersIncreasing(kind, items, n - 1, i, j);
    } else {
      assert before[i] in before;
    }
  }

  ghost predicate KindRun(bs: seq<Bearer>, kind: Kind) {
    && (forall i :: 0 <= i < |bs| ==> bs[i].kind == kind)
    && (forall i, j :: 0 <= i < j < |bs| ==> bs[i].index < bs[j].index)
  }

  lemma BearersAreKindRun(kind: Kind, items: seq<Item>)
    ensures KindRun(Bearers(kind, items, |items|), kind)
  {
    var bs := Bearers(kind, items, |items|);
    forall i, j | 0 <= i < j < |bs|
      ensures bs[i].index < bs[j].index
    {
      BearersIncreasing(kind, items, |items|, i, j);
    }
    assert forall i :: 0 <= i < |bs| ==> bs[i] in bs;
  }

  lemma KindRunsDistinct(bp: seq<Bearer>, bo: seq<Bearer>, bt: seq<Bearer>, i: nat, j: nat)
    requires KindRun(bp, PositionKind) && KindRun(bo, OrderKind) && KindRun(bt, TradeKind)
    requires i < j < |bp + bo + bt|
    ensures var bs := bp + bo + bt; bs[i].kind != bs[j].kind || bs[i].index < bs[j].index
  {
    ThreeParts(bp, bo, bt, i);
    ThreeParts(bp, bo, bt, j);
  }

  lemma AllBearersDistinct(ps: seq<PositionReaction>, os: seq<OrderReaction>, ts: seq<TradeReaction>, i: nat, j: nat)
    requires i < j < |AllBearers(ps, os, ts)|
    ensures var bs := AllBearers(ps, os, ts); bs[i].kind != bs[j].kind || bs[i].index < bs[j].index
  {
    BearersAreKindRun(PositionKind, PositionItems(ps));
    BearersAreKindRun(OrderKind, UnknownItems(os));
    BearersAreKindRun(TradeKind, UnknownItems(ts));
    hide Bearers, KindRun;
    KindRunsDistinct(Bearers(PositionKind, PositionItems(ps), |ps|), Bearers(OrderKind, UnknownItems(os), |os|),
                     Bearers(TradeKind, UnknownItems(ts), |ts|), i, j);
  }

  lemma ThreeParts<T>(a: seq<T>, b: seq<T>, c: seq<T>, i: nat)
    requires i < |a + b + c|
    ensures i < |a| ==> (a + b + c)[i] == a[i]
    ensures |a| <= i < |a| + |b| ==> (a + b + c)[i] == b[i - |a|]
    ensures |a| + |b| <= i ==> (a + b + c)[i] == c[i - |a| - |b|]
  {
  }

  predicate ReduceOnly(s: Strategy) {
    s.budget == 0 && s.maxPositions == 0 && s.entry.maxOpenPositions == 0 && s.entry.disabled && EntrySize(s).None?
  }

  /**
    Every candidate plan is well formed: its strategies only reduce, reconciliations mirror them
    and identifiers are pairwise distinct.
  */
  lemma CandidateWellFormed(
    eventId: string, plan: Plan, ps: seq<PositionReaction>, os: seq<OrderReaction>, ts: seq<TradeReaction>)
    requires Candidate(eventId, plan, ps, os, ts).Some?
    ensures var c := Candidate(eventId, plan, ps, os, ts).value;
            var bs := AllBearers(ps, os, ts);
            && |c.strategies| == |c.reconciliations| == |bs|
            && (forall i :: 0 <= i < |bs| ==>
                  c.strategies[i].entry.tokenId == c.reconciliations[i].token == bs[i].item.token)
            && (forall i, j :: 0 <= i < j < |c.strategies| ==> c.strategies[i].id != c.strategies[j].id)
            && (forall s :: s in c.strategies ==> ReduceOnly(s) && s.shadowOnly)
  {
    var c := Candidate(eventId, plan, ps, os, ts).value;
    var bs := AllBearers(ps, os, ts);
    forall i, j | 0 <= i < j < |c.strategies|
      ensures c.strategies[i].id != c.strategies[j].id
    {
      AllBearersDistinct(ps, os, ts, i, j);
      if c.strategies[i].id == c.strategies[j].id {
        var lookup := Lookup(plan);
        StrategyIdInjective(bs[i].kind, SafeSlug(LabelOf(lookup, bs[i].item)), bs[i].index,
                            bs[j].kind, SafeSlug(LabelOf(lookup, bs[j].item)), bs[j].index);
      }
    }
  }

  /** No reaction's token is the outcome of another reaction's token; it may be its own. */
  ghost predicate NoOtherOutcomes(plan: Plan, bs: seq<Bearer>) {
    forall i, j :: 0 <= i < |bs| && 0 <= j < |bs| ==>
      OutcomeOf(Lookup(plan), bs[i].item.token) == bs[j].item.token ==> bs[i].item.token == bs[j].item.token
  }

  lemma OldRef(plan: Plan, token: string)
    requires token in Lookup(plan)
    ensures Lookup(plan)[token].market != "" && Lookup(plan)[token].outcome != ""
  {
    var i := LookupFrom(plan, |plan.strategies|, token);
  }

  lemma CandidateNames(
    eventId: string, plan: Plan, ps: seq<PositionReaction>, os: seq<OrderReaction>, ts: seq<TradeReaction>, i: nat)
    requires Candidate(eventId, plan, ps, os, ts).Some?
    requires i < |AllBearers(ps, os, ts)|
    ensures var c := Candidate(eventId, plan, ps, os, ts).value;
            var token := AllBearers(ps, os, ts)[i].item.token;
            && (Mapped(c, c.strategies[i]) <==> token in Lookup(plan))
            && (token in Lookup(plan) ==>
                  && RefOf(c, c.strategies[i]) == Lookup(plan)[token].(token := token))
  {
    var token := AllBearers(ps, os, ts)[i].item.token;
    if token in Lookup(plan) {
      OldRef(plan, token);
    }
  }

  /**
    Adopting the candidate keeps the outcome map: a reaction's token is mapped by the candidate
    exactly when the old plan mapped it, and to the same market and outcome.
  */
  lemma CandidateKeepsOutcomes(
    eventId: string, plan: Plan, ps: seq<PositionReaction>, os: seq<OrderReaction>, ts: seq<TradeReaction>, i: nat)
    requires Candidate(eventId, plan, ps, os, ts).Some?
    requires i < |AllBearers(ps, os, ts)|
    requires NoOtherOutcomes(plan, AllBearers(ps, os, ts))
    ensures var c := Candidate(eventId, plan, ps, os, ts).value;
            var token := AllBearers(ps, os, ts)[i].item.token;
            && (token in Lookup(c) <==> token in Lookup(plan))
            && (token in Lookup(plan) ==> Lookup(c)[token] == Lookup(plan)[token].(token := token))
  {
    var c := Candidate(eventId, plan, ps, os, ts).value;
    var bs := AllBearers(ps, os, ts);
    var token := bs[i].item.token;
    CandidateNames(eventId, plan, ps, os, ts, i);
    if token in Lookup(c) {
      var j := LookupFrom(c, |c.strategies|, token);
      CandidateNames(eventId, plan, ps, os, ts, j);
    } else {
      if token in Lookup(plan) {
        NamedIsMapped(c, |c.strategies|, token, i);
      }
    }
  }

  lemma {:induction false} NamedIsMapped(plan: Plan, n: nat, key: string, i: nat)
    requires i < n <= |plan.strategies| && Names(plan, plan.strategies[i], key)
    ensures key in LookupUpTo(plan, n)
  {
    if i < n - 1 {
      NamedIsMapped(plan, n - 1, key, i);
    }
  }

  /** No reconciliation record of a candidate plan names a target order. */
  lemma CandidateExpectsNoTargets(
    eventId: string, plan: Plan, ps: seq<PositionReaction>, os: seq<OrderReaction>, ts: seq<TradeReaction>,
    token: string, openIds: set<string>)
    requires Candidate(eventId, plan, ps, os, ts).Some?
    ensures MissingTargets(Candidate(eventId, plan, ps, os, ts).value, token, openIds) == {}
  {
  }

  // ----- the same in plain fields -----

  lemma BearersEmptyIff(kind: Kind, items: seq<Item>)
    ensures Bearers(kind, items, |items|) != [] <==> exists i :: 0 <= i < |items| && items[i].token != ""
  {
    var bs := Bearers(kind, items, |items|);
    if bs != [] {
      assert bs[0] in bs;
      assert items[bs[0].index - 1].token != "";
    }
    if i :| 0 <= i < |items| && items[i].token != "" {
      var j := BearerListed(kind, items, |items|, i);
    }
  }

  /** A candidate exists exactly when the plan names its market and some reaction of any kind names a token. */
  lemma CandidateExistsIff(
    eventId: string, plan: Plan, ps: seq<PositionReaction>, os: seq<OrderReaction>, ts: seq<TradeReaction>)
    ensures Candidate(eventId, plan, ps, os, ts).Some?
       <==> && plan.marketId != ""
            && (|| (exists i :: 0 <= i < |ps| && ps[i].token != "")
                || (exists i :: 0 <= i < |os| && os[i].token != "")
                || (exists i :: 0 <= i < |ts| && ts[i].token != ""))
  {
    BearersEmptyIff(PositionKind, PositionItems(ps));
    BearersEmptyIff(OrderKind, UnknownItems(os));
    BearersEmptyIff(TradeKind, UnknownItems(ts));
    assert forall i :: 0 <= i < |ps| ==> PositionItems(ps)[i].token == ps[i].token;
    assert forall i :: 0 <= i < |os| ==> UnknownItems(os)[i].token == os[i].token;
    assert forall i :: 0 <= i < |ts| ==> UnknownItems(ts)[i].token == ts[i].token;
    hide Bearers, PositionItems, UnknownItems, Lookup, StrategiesFor, ReconciliationsFor;
  }

  /** The label of an adopted strategy: the reaction's, else the mapped outcome, else the token. */
  function AdoptedLabel(plan: Plan, token: string, name: string): string {
    if name != "" then name
    else if token in Lookup(plan) && Lookup(plan)[token].outcome != "" then Lookup(plan)[token].outcome
    else token
  }

  /** What adoption writes for one reaction, field by field. */
  predicate AdoptedAs(
    s: Strategy, r: Reconciliation, plan: Plan, token: string, name: string,
    prefix: string, index: nat, family: string, action: string, targetRequired: Option<bool>)
  {
    var named := AdoptedLabel(plan, token, name);
    var outcome := if token in Lookup(plan) then Lookup(plan)[token].outcome else "";
    var market := if token in Lookup(plan) && Lookup(plan)[token].market != "" then Lookup(plan)[token].market
                  else plan.marketId;
    && s.id == prefix + SafeSlug(named) + "-" + Decimal(index) && s.family == family && s.side == named
    && s.entry.tokenId == token && s.entry.outcomeId == outcome && s.entry.marketId == market
    && s.exit.targetRequired == targetRequired && !s.exit.coverExcess
    && r.action == action && r.token == token && r.outcome == outcome && r.outcomeLabel == named
  }

  ghost predicate Adopted(
    c: Plan, plan: Plan, token: string, name: string, prefix: string, index: nat, family: string, action: string,
    targetRequired: Option<bool>)
  {
    exists j :: 0 <= j < |c.strategies| && j < |c.reconciliations|
                && AdoptedAs(c.strategies[j], c.reconciliations[j], plan, token, name, prefix, index, family, action,
                             targetRequired)
  }

  lemma BearerAdopted(
    eventId: string, plan: Plan, ps: seq<PositionReaction>, os: seq<OrderReaction>, ts: seq<TradeReaction>, j: nat)
    requires Candidate(eventId, plan, ps, os, ts).Some? && j < |AllBearers(ps, os, ts)|
    ensures var b := AllBearers(ps, os, ts)[j];
            Adopted(Candidate(eventId, plan, ps, os, ts).value, plan, b.item.token, b.item.outcomeLabel,
                    IdPrefix(b.kind), b.index, Family(b.kind), AdoptAction(b.kind), b.item.targetRequired)
  {
    var c := Candidate(eventId, plan, ps, os, ts).value;
    var b := AllBearers(ps, os, ts)[j];
    hide AllBearers, Lookup, SafeSlug, Decimal, IdPrefix, Family, AdoptAction;
    assert c.strategies[j] == StrategyFor(b, Lookup(plan), plan.marketId);
    assert c.reconciliations[j] == ReconciliationFor(b, Lookup(plan));
    assert AdoptedAs(c.strategies[j], c.reconciliations[j], plan, b.item.token, b.item.outcomeLabel, IdPrefix(b.kind),
                     b.index, Family(b.kind), AdoptAction(b.kind), b.item.targetRequired);
  }

  lemma AllBearersAre(ps: seq<PositionReaction>, os: seq<OrderReaction>, ts: seq<TradeReaction>)
    returns (bp: seq<Bearer>, bo: seq<Bearer>, bt: seq<Bearer>)
    ensures bp == Bearers(PositionKind, PositionItems(ps), |PositionItems(ps)|)
    ensures bo == Bearers(OrderKind, UnknownItems(os), |UnknownItems(os)|)
    ensures bt == Bearers(TradeKind, UnknownItems(ts), |UnknownItems(ts)|)
    ensures AllBearers(ps, os, ts) == bp + bo + bt
  {
    bp := Bearers(PositionKind, PositionItems(ps), |ps|);
    bo := Bearers(OrderKind, UnknownItems(os), |os|);
    bt := Bearers(TradeKind, UnknownItems(ts), |ts|);
    hide Bearers;
  }

  /** How reactions of each kind are named and filed. */
  lemma KindsAre()
    ensures IdPrefix(PositionKind) == "operator-position-management-"
    ensures IdPrefix(TradeKind) == "operator-trade-management-"
    ensures IdPrefix(OrderKind) == "operator-open-order-management-"
    ensures Family(PositionKind) == "operator_position_management" && Family(OrderKind) == "operator_order_management"
    ensures Family(TradeKind) == "operator_trade_management"
    ensures AdoptAction(PositionKind) == "adopt" && AdoptAction(OrderKind) == "adopt_open_order"
    ensures AdoptAction(TradeKind) == "adopt_trade_fill"
  {
  }

  /** Adoption files the reaction of a kind, with its one-based place among its own. */
  ghost predicate Files(c: Plan, plan: Plan, kind: Kind, index: nat, item: Item) {
    Adopted(c, plan, item.token, item.outcomeLabel, IdPrefix(kind), index, Family(kind), AdoptAction(kind),
            item.targetRequired)
  }

  lemma BearerFiled(
    eventId: string, plan: Plan, ps: seq<PositionReaction>, os: seq<OrderReaction>, ts: seq<TradeReaction>,
    j: nat, b: Bearer)
    requires Candidate(eventId, plan, ps, os, ts).Some?
    requires j < |AllBearers(ps, os, ts)| && AllBearers(ps, os, ts)[j] == b
    ensures Files(Candidate(eventId, plan, ps, os, ts).value, plan, b.kind, b.index, b.item)
  {
    hide AllBearers, Candidate, Adopted, IdPrefix, Family, AdoptAction;
    BearerAdopted(eventId, plan, ps, os, ts, j);
  }

  lemma PositionFiled(
    eventId: string, plan: Plan, ps: seq<PositionReaction>, os: seq<OrderReaction>, ts: seq<TradeReaction>, i: nat)
    requires Candidate(eventId, plan, ps, os, ts).Some? && i < |PositionItems(ps)| && PositionItems(ps)[i].token != ""
    ensures Files(Candidate(eventId, plan, ps, os, ts).value, plan, PositionKind, i + 1, PositionItems(ps)[i])
  {
    hide *;
    var k := BearerListed(PositionKind, PositionItems(ps), |PositionItems(ps)|, i);
    var bp, bo, bt := AllBearersAre(ps, os, ts);
    ThreeParts(bp, bo, bt, k);
    BearerFiled(eventId, plan, ps, os, ts, k, Bearer(PositionKind, i + 1, PositionItems(ps)[i]));
  }

  lemma OrderFiled(
    eventId: string, plan: Plan, ps: seq<PositionReaction>, os: seq<OrderReaction>, ts: seq<TradeReaction>, i: nat)
    requires Candidate(eventId, plan, ps, os, ts).Some? && i < |UnknownItems(os)| && UnknownItems(os)[i].token != ""
    ensures Files(Candidate(eventId, plan, ps, os, ts).value, plan, OrderKind, i + 1, UnknownItems(os)[i])
  {
    hide *;
    var k := BearerListed(OrderKind, UnknownItems(os), |UnknownItems(os)|, i);
    var bp, bo, bt := AllBearersAre(ps, os, ts);
    ThreeParts(bp, bo, bt, |bp| + k);
    BearerFiled(eventId, plan, ps, os, ts, |bp| + k, Bearer(OrderKind, i + 1, UnknownItems(os)[i]));
  }

  lemma TradeFiled(
    eventId: string, plan: Plan, ps: seq<PositionReaction>, os: seq<OrderReaction>, ts: seq<TradeReaction>, i: nat)
    requires Candidate(eventId, plan, ps, os, ts).Some? && i < |UnknownItems(ts)| && UnknownItems(ts)[i].token != ""
    ensures Files(Candidate(eventId, plan, ps, os, ts).value, plan, TradeKind, i + 1, UnknownItems(ts)[i])
  {
    hide *;
    var k := BearerListed(TradeKind, UnknownItems(ts), |UnknownItems(ts)|, i);
    var bp, bo, bt := AllBearersAre(ps, os, ts);
    ThreeParts(bp, bo, bt, |bp| + |bo| + k);
    BearerFiled(eventId, plan, ps, os, ts, |bp| + |bo| + k, Bearer(TradeKind, i + 1, UnknownItems(ts)[i]));
  }

  lemma CandidateHeader(
    eventId: string, plan: Plan, ps: seq<PositionReaction>, os: seq<OrderReaction>, ts: seq<TradeReaction>)
    requires Candidate(eventId, plan, ps, os, ts).Some?
    ensures var c := Candidate(eventId, plan, ps, os, ts).value; c.marketId == plan.marketId && c.aliases == {eventId}
  {
    hide AllBearers, Lookup, StrategiesFor, ReconciliationsFor;
  }

  /**
    How each reaction that names a token is adopted: positions ask for a target while something
    is uncovered, unknown orders and trades leave that to the family.
  */
  lemma ReactionsAdopted(
    eventId: string, plan: Plan, ps: seq<PositionReaction>, os: seq<OrderReaction>, ts: seq<TradeReaction>)
    requires Candidate(eventId, plan, ps, os, ts).Some?
    ensures var c := Candidate(eventId, plan, ps, os, ts).value;
            && c.marketId == plan.marketId && c.aliases == {eventId}
            && (forall i :: 0 <= i < |ps| && ps[i].token != "" ==>
                  Adopted(c, plan, ps[i].token, ps[i].outcomeLabel, "operator-position-management-", i + 1,
                          "operator_position_management", "adopt", Some(ps[i].uncovered > 0)))
            && (forall i :: 0 <= i < |os| && os[i].token != "" ==>
                  Adopted(c, plan, os[i].token, os[i].outcomeLabel, "operator-open-order-management-", i + 1,
                          "operator_order_management", "adopt_open_order", None))
            && (forall i :: 0 <= i < |ts| && ts[i].token != "" ==>
                  Adopted(c, plan, ts[i].token, ts[i].outcomeLabel, "operator-trade-management-", i + 1,
                          "operator_trade_management", "adopt_trade_fill", None))
  {
    CandidateHeader(eventId, plan, ps, os, ts);
    KindsAre();
    assert forall i :: 0 <= i < |ps| ==>
      PositionItems(ps)[i] == Item(ps[i].token, ps[i].outcomeLabel, Some(ps[i].uncovered > 0));
    assert forall i :: 0 <= i < |os| ==> UnknownItems(os)[i] == Item(os[i].token, os[i].outcomeLabel, None);
    assert forall i :: 0 <= i < |ts| ==> UnknownItems(ts)[i] == Item(ts[i].token, ts[i].outcomeLabel, None);
    var c := Candidate(eventId, plan, ps, os, ts).value;
    hide Candidate, PositionItems, UnknownItems, IdPrefix, Family, AdoptAction, Adopted;
    forall i | 0 <= i < |ps| && ps[i].token != ""
      ensures Files(c, plan, PositionKind, i + 1, Item(ps[i].token, ps[i].outcomeLabel, Some(ps[i].uncovered > 0)))
    {
      PositionFiled(eventId, plan, ps, os, ts, i);
    }
    forall i | 0 <= i < |os| && os[i].token != ""
      ensures Files(c, plan, OrderKind, i + 1, Item(os[i].token, os[i].outcomeLabel, None))
    {
      OrderFiled(eventId, plan, ps, os, ts, i);
    }
    forall i | 0 <= i < |ts| && ts[i].token != ""
      ensures Files(c, plan, TradeKind, i + 1, Item(ts[i].token, ts[i].outcomeLabel, None))
    {
      TradeFiled(eventId, plan, ps, os, ts, i);
    }
  }

  predicate SlugChar(c: char) { 'a' <= c <= 'z' || '0' <= c <= '9' }

  lemma {:induction false} SluggedChars(s: string, started: bool, pending: bool)
    ensures forall c :: c in Slugged(s, started, pending) ==> SlugChar(c) || c == '-'
  {
    if s != "" {
      SluggedChars(s[1..], true, false);
      SluggedChars(s[1..], started, true);
    }
  }

  /** Lower-case letters and digits only. */
  predicate Plain(s: string) { s == "" || (SlugChar(s[0]) && Plain(s[1..])) }

  lemma {:induction false} SluggedPlain(s: string, started: bool)
    requires Plain(s)
    ensures Slugged(s, started, false) == s
  {
    if s != "" {
      assert s == [s[0]] + s[1..];
      SluggedPlain(s[1..], true);
    }
  }

  /** A slug has 1 to 48 lower-case letters, digits and dashes; a short enough name of letters and digits is its own. */
  lemma SafeSlugIs(name: string)
    ensures 1 <= |SafeSlug(name)| <= 48
    ensures forall c :: c in SafeSlug(name) ==> SlugChar(c) || c == '-'
    ensures SafeSlug("") == "position"
    ensures 1 <= |name| <= 48 && Plain(name) ==> SafeSlug(name) == name
  {
    SluggedChars(name, false, false);
    if Plain(name) { SluggedPlain(name, false); }
    hide Slugged;
  }

  lemma {:induction false} SluggedLower(s: string, t: string, started: bool, pending: bool)
    requires |s| == |t| && forall i :: 0 <= i < |s| ==> t[i] == Lower(s[i])
    ensures Slugged(s, started, pending) == Slugged(t, started, pending)
  {
    if s != "" {
      SluggedLower(s[1..], t[1..], true, false);
      SluggedLower(s[1..], t[1..], started, true);
    }
  }

  /** Neither letters nor digits. */
  predicate Gap(s: string) { s == "" || (!SlugChar(s[0]) && !('A' <= s[0] <= 'Z') && Gap(s[1..])) }

  lemma SluggedHead(c: char, s: string, started: bool, pending: bool)
    ensures SlugChar(c) ==>
              Slugged([c] + s, started, pending)
              == (if started && pending then "-" else "") + [c] + Slugged(s, true, false)
    ensures !SlugChar(c) && !('A' <= c <= 'Z') ==> Slugged([c] + s, started, pending) == Slugged(s, started, true)
  {
    assert ([c] + s)[1..] == s;
  }

  lemma {:induction false} SluggedAfterGap(gap: string, b: string, pending: bool)
    requires Gap(gap) && b != "" && Plain(b) && (gap != "" || pending)
    ensures Slugged(gap + b, true, pending) == "-" + b
  {
    hide Slugged;
    if gap == "" {
      assert gap + b == [b[0]] + b[1..] && "-" + [b[0]] + b[1..] == "-" + b;
      SluggedHead(b[0], b[1..], true, pending);
      SluggedPlain(b[1..], true);
    } else {
      assert gap + b == [gap[0]] + (gap[1..] + b);
      SluggedHead(gap[0], gap[1..] + b, true, pending);
      SluggedAfterGap(gap[1..], b, true);
    }
  }

  lemma {:induction false} SluggedJoins(a: string, gap: string, b: string, started: bool)
    requires Plain(a) && (started || a != "") && gap != "" && Gap(gap) && b != "" && Plain(b)
    ensures Slugged(a + gap + b, started, false) == a + "-" + b
  {
    hide Slugged;
    if a == "" {
      assert a + gap + b == gap + b;
      SluggedAfterGap(gap, b, false);
    } else {
      assert a + gap + b == [a[0]] + (a[1..] + gap + b);
      SluggedHead(a[0], a[1..] + gap + b, started, false);
      SluggedJoins(a[1..], gap, b, true);
      assert [a[0]] + (a[1..] + "-" + b) == a + "-" + b;
    }
  }

  /** Two words come out joined by one dash, however they are separated and capitalized. */
  lemma SafeSlugJoins(a: string, gap: string, b: string, name: string)
    requires a != "" && Plain(a) && gap != "" && Gap(gap) && b != "" && Plain(b)
    requires |name| == |a + gap + b| <= 48 && forall i :: 0 <= i < |name| ==> Lower(name[i]) == (a + gap + b)[i]
    ensures SafeSlug(name) == a + "-" + b
  {
    SluggedLower(name, a + gap + b, false, false);
    SluggedJoins(a, gap, b, false);
    hide Slugged, Lower, Plain, Gap;
  }

  function DigitValue(c: char): int { c as int - '0' as int }

  /** The number a string of decimal digits stands for. */
  function NumberOf(s: string): int {
    if s == "" then 0 else 10 * NumberOf(s[..|s| - 1]) + DigitValue(s[|s| - 1])
  }

  lemma {:induction false} DecimalIsNumber(n: nat)
    ensures NumberOf(Decimal(n)) == n
    ensures forall c :: c in Decimal(n) ==> '0' <= c <= '9'
  {
    if n < 10 {
      assert Decimal(n)[..0] == "";
    } else {
      DecimalIsNumber(n / 10);
      assert Decimal(n)[..|Decimal(n)| - 1] == Decimal(n / 10);
    }
  }
}
