/**
  Scoping the account's direct exchange data to one event: everything matched by plan token or
  event slug, and everything sharing a condition with it.
*/
module EventScope {
  import opened Wrappers
  import opened DirectTruth

  /** The plan's token ids and event slugs. */
  datatype Scope = Scope(tokens: set<string>, slugs: set<string>)

  datatype Scoped = Scoped(clob: DirectClob, conditions: set<string>)

  predicate Hit(x: Item, token: string, scope: Scope) {
    (token != "" && token in scope.tokens) || (x.slug != "" && x.slug in scope.slugs)
  }

  /** The token the condition pass reads: the order's, else the position's, else the trade's. */
  function AnyToken(x: Item): string { FirstGiven(OrderToken(x), PositionToken(x), TradeToken(x)) }

  predicate Seed(x: Item, scope: Scope) { Hit(x, AnyToken(x), scope) }

  predicate Matches(x: Item, token: string, scope: Scope, conditions: set<string>) {
    Hit(x, token, scope) || (x.condition != "" && x.condition in conditions)
  }

  function Conditions(items: seq<Item>, scope: Scope): set<string> {
    set x | x in items && Seed(x, scope) && x.condition != "" :: x.condition
  }

  /** The sub-list an item-wise test keeps, in order. */
  function Filter(s: seq<Item>, keep: Item -> bool): (r: seq<Item>)
    ensures forall x :: x in r <==> x in s && keep(x)
  {
    if s == [] then []
    else
      var n := |s| - 1;
      Filter(s[..n], keep) + (if keep(s[n]) then [s[n]] else [])
  }

  function KeepOrder(scope: Scope, conditions: set<string>): Item -> bool {
    x => Matches(x, OrderToken(x), scope, conditions)
  }

  function KeepPosition(scope: Scope, conditions: set<string>): Item -> bool {
    x => Matches(x, PositionToken(x), scope, conditions)
  }

  function KeepTrade(scope: Scope, conditions: set<string>): Item -> bool {
    x => Matches(x, TradeToken(x), scope, conditions)
  }

  /** Every order, position and trade the scoping looks at. */
  function AllItems(clob: DirectClob): seq<Item> {
    clob.orders + clob.positions + TradeRows(clob, false) + TradeRows(clob, true)
  }

  function Replaced(section: Option<seq<Item>>, rows: seq<Item>): Option<seq<Item>> {
    if section.None? then None else Some(rows)
  }

  /** The scoped data before residual positions are removed. */
  function ScopeEvent(clob: DirectClob, scope: Scope): Scoped {
    if scope.tokens == {} then Scoped(clob, {})
    else
      var conditions := Conditions(AllItems(clob), scope);
      var account := Filter(TradeRows(clob, false), KeepTrade(scope, conditions));
      var market := Filter(TradeRows(clob, true), KeepTrade(scope, conditions));
      Scoped(
        DirectClob(Filter(clob.orders, KeepOrder(scope, conditions)),
                   Filter(clob.positions, KeepPosition(scope, conditions)),
                   market, Replaced(clob.trades, account), Replaced(clob.marketTrades, market),
                   Replaced(clob.directTrades, account)),
        conditions)
  }

  method EventScopedClob(clob: DirectClob, scope: Scope) returns (scoped: Scoped)
    ensures scoped == ScopeEvent(clob, scope)
  {
    if scope.tokens == {} {
      return Scoped(clob, {});
    }
    var accountTrades := DirectTradeRows(clob, false);
    var marketTrades := DirectTradeRows(clob, true);
    var all := clob.orders + clob.positions + accountTrades + marketTrades;
    var conditions: set<string> := {};
    for i := 0 to |all|
      invariant conditions == Conditions(all[..i], scope)
    {
      hide Seed;
      var item := all[i];
      assert all[..i + 1] == all[..i] + [item];
      if !Seed(item, scope) {
        continue;
      }
      if item.condition != "" {
        conditions := conditions + {item.condition};
      }
    }
    assert all[..|all|] == all;
    var account := Filter(accountTrades, KeepTrade(scope, conditions));
    var market := Filter(marketTrades, KeepTrade(scope, conditions));
    scoped := Scoped(
      DirectClob(Filter(clob.orders, KeepOrder(scope, conditions)),
                 Filter(clob.positions, KeepPosition(scope, conditions)),
                 market, Replaced(clob.trades, account), Replaced(clob.marketTrades, market),
                 Replaced(clob.directTrades, account)),
      conditions);
  }

  // ----- the least set -----

  /** The token fields an item carries do not contradict each other. */
  predicate FieldsAgree(x: Item) {
    && (x.assetId != "" && x.asset != "" ==> x.assetId == x.asset)
    && (x.assetId != "" && x.tokenId != "" ==> x.assetId == x.tokenId)
    && (x.asset != "" && x.tokenId != "" ==> x.asset == x.tokenId)
  }

  lemma TokensAgree(x: Item)
    requires FieldsAgree(x)
    ensures OrderToken(x) == PositionToken(x) == TradeToken(x) == AnyToken(x)
  {
  }

  predicate ShareCondition(x: Item, y: Item) { x.condition != "" && x.condition == y.condition }

  /** Contains every seed and, with any item, everything sharing its condition. */
  ghost predicate Closed(kept: set<Item>, items: seq<Item>, scope: Scope) {
    && (forall x :: x in items && Seed(x, scope) ==> x in kept)
    && (forall x, y :: x in items && y in items && y in kept && ShareCondition(x, y) ==> x in kept)
  }

  function Kept(items: seq<Item>, scope: Scope): set<Item> {
    set x | x in items && Matches(x, AnyToken(x), scope, Conditions(items, scope))
  }

  lemma ConditionFromSeed(items: seq<Item>, scope: Scope, c: string) returns (y: Item)
    requires c in Conditions(items, scope)
    ensures y in items && Seed(y, scope) && y.condition == c != ""
  {
    y :| y in items && Seed(y, scope) && y.condition == c;
  }

  /** One pass reaches the fixpoint: what is kept is closed, and lies in every closed set. */
  lemma KeptIsLeastClosed(items: seq<Item>, scope: Scope, other: set<Item>)
    ensures Closed(Kept(items, scope), items, scope)
    ensures Closed(other, items, scope) ==> Kept(items, scope) <= other
  {
    var kept := Kept(items, scope);
    forall x, y | x in items && y in items && y in kept && ShareCondition(x, y)
      ensures x in kept
    {
      if Hit(y, AnyToken(y), scope) {
        assert y.condition in Conditions(items, scope);
      }
    }
    if Closed(other, items, scope) {
      forall x | x in kept
        ensures x in other
      {
        if !Seed(x, scope) {
          var y := ConditionFromSeed(items, scope, x.condition);
          assert y in other && ShareCondition(x, y);
        }
      }
    }
  }

  lemma FilterLast(s: seq<Item>, f: Item -> bool)
    requires s != []
    ensures Filter(s, f) == Filter(s[..|s| - 1], f) + (if f(s[|s| - 1]) then [s[|s| - 1]] else [])
  {
  }

  lemma {:induction false} FilterSame(s: seq<Item>, f: Item -> bool, g: Item -> bool)
    requires forall i :: 0 <= i < |s| ==> f(s[i]) == g(s[i])
    ensures Filter(s, f) == Filter(s, g)
  {
    if s != [] {
      FilterLast(s, f);
      FilterLast(s, g);
      hide Filter;
      FilterSame(s[..|s| - 1], f, g);
    }
  }

  lemma {:induction false} FilterAll(s: seq<Item>, f: Item -> bool)
    requires forall i :: 0 <= i < |s| ==> f(s[i])
    ensures Filter(s, f) == s
  {
    if s != [] {
      hide *;
      FilterLast(s, f);
      var front := s[..|s| - 1];
      assert s == front + [s[|s| - 1]];
      FilterAll(front, f);
    }
  }

  function InSet(kept: set<Item>): Item -> bool { x => x in kept }

  /**
    The kept orders and positions are exactly the items, in their original order, of the least
    set that contains every item hit by plan token or event slug and is closed under sharing a
    condition with a kept order, position or trade.
  */
  lemma ScopeIsLeastFixpoint(clob: DirectClob, scope: Scope, other: set<Item>)
    requires scope.tokens != {}
    requires forall x :: x in AllItems(clob) ==> FieldsAgree(x)
    ensures var kept := Kept(AllItems(clob), scope);
            var r := ScopeEvent(clob, scope).clob;
            && Closed(kept, AllItems(clob), scope)
            && (Closed(other, AllItems(clob), scope) ==> kept <= other)
            && r.orders == Filter(clob.orders, InSet(kept))
            && r.positions == Filter(clob.positions, InSet(kept))
  {
    var items := AllItems(clob);
    var kept := Kept(items, scope);
    var conditions := Conditions(items, scope);
    KeptIsLeastClosed(items, scope, other);
    assert forall x :: x in clob.orders || x in clob.positions ==> x in items;
    hide AllItems, Closed, Conditions, Filter, Matches, AnyToken, OrderToken, PositionToken, TradeToken, FieldsAgree;
    forall x | x in items
      ensures KeepOrder(scope, conditions)(x) == InSet(kept)(x) == KeepPosition(scope, conditions)(x)
    {
      TokensAgree(x);
    }
    hide KeepOrder, KeepPosition, InSet, Kept;
    FilterSame(clob.orders, KeepOrder(scope, conditions), InSet(kept));
    FilterSame(clob.positions, KeepPosition(scope, conditions), InSet(kept));
  }

  /**
    Every order and trade hit by plan token or event slug is kept, whatever its fields say.  A
    position is hit through its order-style token but kept through its position-style token, so
    one whose token fields contradict each other is kept exactly when the latter hits too or it
    names a condition.
  */
  lemma SeedsAreKept(clob: DirectClob, scope: Scope)
    requires scope.tokens != {}
    ensures var r := ScopeEvent(clob, scope).clob;
            && (forall x :: x in clob.orders && Seed(x, scope) ==> x in r.orders)
            && (forall x :: x in TradeRows(clob, true) && Seed(x, scope) ==> x in r.currentTokenTrades)
            && (forall x :: x in clob.positions && Seed(x, scope) ==>
                  (x in r.positions <==> Hit(x, PositionToken(x), scope) || x.condition != ""))
  {
    var items := AllItems(clob);
    assert forall x :: x in clob.positions ==> x in items;
    assert forall x :: x in items && Seed(x, scope) && x.condition != "" ==> x.condition in Conditions(items, scope);
    assert forall x: Item :: AnyToken(x) == OrderToken(x) == TradeToken(x);
    hide AllItems, Conditions, TradeRows, PositionToken, OrderToken, TradeToken, AnyToken, Filter;
  }

  /** A seed that is dropped: the order-style token hits, the position's own token does not. */
  lemma ContradictoryPositionDropped(x: Item, scope: Scope)
    requires x.assetId in scope.tokens && x.assetId != ""
    requires x.asset != "" && x.asset !in scope.tokens && x.slug == "" && x.condition == ""
    ensures Seed(x, scope) && ScopeEvent(DirectClob([], [x], [], None, None, None), scope).clob.positions == []
  {
    var clob := DirectClob([], [x], [], None, None, None);
    hide AllItems, Conditions, TradeRows;
    FilterOne(x, KeepPosition(scope, Conditions(AllItems(clob), scope)));
  }

  // ----- scoping twice -----

  ghost predicate DistinctTrades(s: seq<Item>) {
    forall i, j :: 0 <= i < j < |s| ==> KeyOf(s[i]) != KeyOf(s[j])
  }

  lemma DistinctTradesExtend(s: seq<Item>, x: Item)
    requires DistinctTrades(s) && KeyOf(x) !in KeysOf(s)
    ensures DistinctTrades(s + [x])
  {
    forall i | 0 <= i < |s|
      ensures KeyOf(s[i]) != KeyOf(x)
    {
      assert s[i] in s;
    }
  }

  lemma KeysWithin(a: seq<Item>, b: seq<Item>)
    requires forall x :: x in a ==> x in b
    ensures KeysOf(a) <= KeysOf(b)
  {
  }

  lemma KeyOfMember(s: seq<Item>, i: nat)
    requires i < |s|
    ensures KeyOf(s[i]) in KeysOf(s)
  {
    assert s[i] in s;
  }

  lemma {:induction false} DedupeDistinct(s: seq<Item>)
    ensures DistinctTrades(Dedupe(s))
  {
    if s != [] {
      var n := |s| - 1;
      DedupeDistinct(s[..n]);
      KeysWithin(Dedupe(s[..n]), s[..n]);
      DedupeStep(s);
      hide *;
      if KeyOf(s[n]) !in KeysOf(s[..n]) {
        DistinctTradesExtend(Dedupe(s[..n]), s[n]);
      }
    }
  }

  lemma LastKeyNew(s: seq<Item>)
    requires s != [] && DistinctTrades(s)
    ensures KeyOf(s[|s| - 1]) !in KeysOf(s[..|s| - 1]) && DistinctTrades(s[..|s| - 1])
  {
    hide KeyOf, KeysOf;
    KeyListed(s[..|s| - 1], KeyOf(s[|s| - 1]));
  }

  lemma {:induction false} FilterDistinct(s: seq<Item>, f: Item -> bool)
    requires DistinctTrades(s)
    ensures DistinctTrades(Filter(s, f))
  {
    if s != [] {
      var n := |s| - 1;
      LastKeyNew(s);
      FilterDistinct(s[..n], f);
      KeysWithin(Filter(s[..n], f), s[..n]);
      if f(s[n]) { DistinctTradesExtend(Filter(s[..n], f), s[n]); }
    }
  }

  lemma {:induction false} DedupeOfDistinct(s: seq<Item>)
    requires DistinctTrades(s)
    ensures Dedupe(s) == s
  {
    hide *;
    if s == [] {
      ReadStart(s);
    } else {
      var front := s[..|s| - 1];
      LastKeyNew(s);
      DedupeStep(s);
      DedupeOfDistinct(front);
      assert s == front + [s[|s| - 1]];
    }
  }

  lemma DedupeAppendOne(a: seq<Item>, b: seq<Item>)
    requires b != []
    ensures var n := |b| - 1;
            Dedupe(a + b) == Dedupe(a + b[..n]) + (if KeyOf(b[n]) in KeysOf(a + b[..n]) then [] else [b[n]])
  {
    hide KeyOf, KeysOf, Dedupe;
    var n := |b| - 1;
    assert (a + b)[..|a| + n] == a + b[..n];
    DedupeStep(a + b);
  }

  /** Rows read later never displace earlier ones. */
  lemma {:induction false} DedupeKeepsPrefix(a: seq<Item>, b: seq<Item>)
    ensures Dedupe(a) <= Dedupe(a + b)
  {
    hide *;
    if b == [] {
      assert a + b == a;
    } else {
      DedupeKeepsPrefix(a, b[..|b| - 1]);
      DedupeAppendOne(a, b);
    }
  }

  /** Rows of keys already read add nothing. */
  lemma {:induction false} DedupeRepeats(a: seq<Item>, b: seq<Item>)
    requires KeysOf(b) <= KeysOf(a)
    ensures Dedupe(a + b) == Dedupe(a)
  {
    hide *;
    if b == [] {
      assert a + b == a;
    } else {
      var n := |b| - 1;
      KeysWithin(b[..n], b);
      DedupeRepeats(a, b[..n]);
      DedupeAppendOne(a, b);
      KeyOfMember(b, n);
      KeysOfConcat(a, b[..n]);
    }
  }

  lemma PrefixMembers(a: seq<Item>, b: seq<Item>)
    requires a <= b
    ensures forall x :: x in a ==> x in b
  {
    assert b == a + b[|a|..];
  }

  lemma MarketRowsAgain(r: DirectClob)
    requires DistinctTrades(r.currentTokenTrades)
    ensures forall x :: x in r.currentTokenTrades ==> x in TradeRows(r, true)
  {
    hide Dedupe, DistinctTrades, KeyOf;
    var rest := Section(r.trades) + Section(r.marketTrades) + Section(r.directTrades);
    assert AllRows(r, true) == r.currentTokenTrades + rest;
    DedupeOfDistinct(r.currentTokenTrades);
    DedupeKeepsPrefix(r.currentTokenTrades, rest);
    PrefixMembers(r.currentTokenTrades, TradeRows(r, true));
  }

  /** Re-reading the account sections after scoping gives the scoped account rows back. */
  lemma AccountRowsAgain(clob: DirectClob, r: DirectClob, account: seq<Item>)
    requires r.trades == Replaced(clob.trades, account) && r.directTrades == Replaced(clob.directTrades, account)
    requires DistinctTrades(account)
    requires clob.trades.None? && clob.directTrades.None? ==> account == []
    ensures TradeRows(r, false) == account
  {
    hide Dedupe, DistinctTrades, KeyOf;
    DedupeOfDistinct(account);
    if clob.trades.Some? {
      KeysWithin(Section(r.directTrades), account);
      DedupeRepeats(account, Section(r.directTrades));
      assert AllRows(r, false) == account + Section(r.directTrades);
    } else {
      assert AllRows(r, false) == [] + Section(r.directTrades) == account;
    }
  }

  /** The scoped account and market rows, and what a second reading makes of them. */
  lemma ScopedTrades(clob: DirectClob, scope: Scope)
    requires scope.tokens != {}
    ensures var r := ScopeEvent(clob, scope).clob;
            var conditions := ScopeEvent(clob, scope).conditions;
            var account := Filter(TradeRows(clob, false), KeepTrade(scope, conditions));
            var market := Filter(TradeRows(clob, true), KeepTrade(scope, conditions));
            && TradeRows(r, false) == account
            && (forall x :: x in market ==> x in TradeRows(r, true))
            && (forall x :: x in TradeRows(r, true) ==> x in market || x in account)
  {
    hide Conditions, KeepTrade, KeepOrder, KeepPosition, DistinctTrades, Dedupe, AllItems, Filter, AllRows;
    var r := ScopeEvent(clob, scope).clob;
    var conditions := ScopeEvent(clob, scope).conditions;
    var account := Filter(TradeRows(clob, false), KeepTrade(scope, conditions));
    var market := Filter(TradeRows(clob, true), KeepTrade(scope, conditions));
    DedupeDistinct(AllRows(clob, false));
    DedupeDistinct(AllRows(clob, true));
    FilterDistinct(TradeRows(clob, false), KeepTrade(scope, conditions));
    FilterDistinct(TradeRows(clob, true), KeepTrade(scope, conditions));
    if clob.trades.None? && clob.directTrades.None? { NoAccountRows(clob, scope, conditions); }
    AccountRowsAgain(clob, r, account);
    MarketRowsAgain(r);
    ReplacedMembers(clob, r, account, market);
  }

  lemma NoAccountRows(clob: DirectClob, scope: Scope, conditions: set<string>)
    requires clob.trades.None? && clob.directTrades.None?
    ensures Filter(TradeRows(clob, false), KeepTrade(scope, conditions)) == []
  {
    assert AllRows(clob, false) == [];
  }

  lemma ReplacedMembers(clob: DirectClob, r: DirectClob, account: seq<Item>, market: seq<Item>)
    requires r.currentTokenTrades == market && r.trades == Replaced(clob.trades, account)
    requires r.marketTrades == Replaced(clob.marketTrades, market)
    requires r.directTrades == Replaced(clob.directTrades, account)
    ensures forall x :: x in TradeRows(r, true) ==> x in market || x in account
  {
    hide Dedupe;
    assert forall x :: x in AllRows(r, true) ==> x in market || x in account;
  }

  /** What each list of the scoped data contains. */
  lemma ScopedMembers(clob: DirectClob, scope: Scope)
    requires scope.tokens != {}
    requires forall x :: x in AllItems(clob) ==> FieldsAgree(x)
    ensures var r := ScopeEvent(clob, scope).clob;
            var kept := Kept(AllItems(clob), scope);
            && (forall x :: x in r.orders <==> x in clob.orders && x in kept)
            && (forall x :: x in r.positions <==> x in clob.positions && x in kept)
            && (forall x :: x in TradeRows(r, false) <==> x in TradeRows(clob, false) && x in kept)
            && (forall x :: x in TradeRows(r, true) ==> x in kept)
            && (forall x :: x in TradeRows(clob, true) && x in kept ==> x in TradeRows(r, true))
  {
    var items := AllItems(clob);
    var conditions := Conditions(items, scope);
    ScopedTrades(clob, scope);
    assert forall x ::
      (x in clob.orders || x in clob.positions || x in TradeRows(clob, false) || x in TradeRows(clob, true)) ==>
        x in items;
    hide AllItems, Conditions, Matches, AnyToken, OrderToken, PositionToken, TradeToken, FieldsAgree, TradeRows;
    forall x | x in items
      ensures KeepOrder(scope, conditions)(x) == KeepPosition(scope, conditions)(x) == KeepTrade(scope, conditions)(x)
           == (x in Kept(items, scope))
    {
      TokensAgree(x);
    }
    hide KeepOrder, KeepPosition, KeepTrade, Kept;
  }

  /** The items seen by a second scoping are exactly the kept items of the first. */
  lemma ScopedItems(clob: DirectClob, scope: Scope)
    requires scope.tokens != {}
    requires forall x :: x in AllItems(clob) ==> FieldsAgree(x)
    ensures forall x :: x in AllItems(ScopeEvent(clob, scope).clob) <==> x in Kept(AllItems(clob), scope)
  {
    ScopedMembers(clob, scope);
    var r := ScopeEvent(clob, scope).clob;
    var items := AllItems(clob);
    assert forall x :: x in Kept(items, scope) ==> x in items;
    hide Kept, TradeRows, ScopeEvent, FieldsAgree;
  }

  lemma ConditionsAgain(items: seq<Item>, again: seq<Item>, scope: Scope)
    requires forall x :: x in again <==> x in Kept(items, scope)
    ensures Conditions(again, scope) == Conditions(items, scope)
  {
    assert forall x :: x in items && Seed(x, scope) ==> x in again;
    assert forall x :: x in again ==> x in items;
    hide Seed, Kept;
  }

  /**
    No kept account trade has lost its key: for each there is a kept trade of the same stable key
    among all sections.  The first row of that key may sit in another section and fail the match.
  */
  predicate AccountKeysKept(clob: DirectClob, scope: Scope) {
    var keep := KeepTrade(scope, Conditions(AllItems(clob), scope));
    KeysOf(Filter(TradeRows(clob, false), keep)) <= KeysOf(Filter(TradeRows(clob, true), keep))
  }

  /** Reading every section of the scoped data gives the market rows back exactly when they hold every account key. */
  lemma MarketRowsSettle(clob: DirectClob, r: DirectClob, account: seq<Item>, market: seq<Item>)
    requires r.currentTokenTrades == market && r.trades == Replaced(clob.trades, account)
    requires r.marketTrades == Replaced(clob.marketTrades, market)
    requires r.directTrades == Replaced(clob.directTrades, account)
    requires clob.trades.None? && clob.directTrades.None? ==> account == []
    requires DistinctTrades(market)
    ensures TradeRows(r, true) == market <==> KeysOf(account) <= KeysOf(market)
  {
    hide Dedupe, DistinctTrades, KeyOf;
    var rest := Section(r.trades) + Section(r.marketTrades) + Section(r.directTrades);
    assert AllRows(r, true) == market + rest;
    DedupeOfDistinct(market);
    DedupeKeepsKeys(market + rest);
    KeysOfConcat(market, rest);
    RestKeys(r, account, market);
    hide AllRows, KeysOf;
    if KeysOf(account) <= KeysOf(market) {
      DedupeRepeats(market, rest);
    }
  }

  lemma RestKeys(r: DirectClob, account: seq<Item>, market: seq<Item>)
    requires r.trades == None || r.trades == Some(account)
    requires r.marketTrades == None || r.marketTrades == Some(market)
    requires r.directTrades == None || r.directTrades == Some(account)
    requires r.trades.None? && r.directTrades.None? ==> account == []
    ensures KeysOf(Section(r.trades) + Section(r.marketTrades) + Section(r.directTrades)) <= KeysOf(market)
       <==> KeysOf(account) <= KeysOf(market)
  {
    hide KeyOf;
    KeysOfConcat(Section(r.trades) + Section(r.marketTrades), Section(r.directTrades));
    KeysOfConcat(Section(r.trades), Section(r.marketTrades));
    assert KeysOf([]) == {};
    hide KeysOf;
  }

  /** All rows of the scoped data pass the scope's own test again. */
  lemma ScopedRowsMatch(clob: DirectClob, scope: Scope)
    requires scope.tokens != {}
    ensures var once := ScopeEvent(clob, scope);
            var keep := KeepTrade(scope, once.conditions);
            && Filter(TradeRows(once.clob, false), keep) == TradeRows(once.clob, false)
            && Filter(TradeRows(once.clob, true), keep) == TradeRows(once.clob, true)
  {
    hide *;
    ScopedTradesMatch(clob, scope);
    var once := ScopeEvent(clob, scope);
    FilterAll(TradeRows(once.clob, false), KeepTrade(scope, once.conditions));
    FilterAll(TradeRows(once.clob, true), KeepTrade(scope, once.conditions));
  }

  lemma ScopedTradesMatch(clob: DirectClob, scope: Scope)
    requires scope.tokens != {}
    ensures var once := ScopeEvent(clob, scope);
            var keep := KeepTrade(scope, once.conditions);
            && (forall i :: 0 <= i < |TradeRows(once.clob, false)| ==> keep(TradeRows(once.clob, false)[i]))
            && (forall i :: 0 <= i < |TradeRows(once.clob, true)| ==> keep(TradeRows(once.clob, true)[i]))
  {
    ScopedTrades(clob, scope);
    hide *;
    var once := ScopeEvent(clob, scope);
    var keep := KeepTrade(scope, once.conditions);
    forall x | x in TradeRows(once.clob, false) || x in TradeRows(once.clob, true)
      ensures keep(x)
    {
    }
  }

  lemma MarketTradesAgain(clob: DirectClob, scope: Scope)
    requires scope.tokens != {}
    ensures var once := ScopeEvent(clob, scope);
            TradeRows(once.clob, true) == once.clob.currentTokenTrades <==> AccountKeysKept(clob, scope)
  {
    hide Conditions, KeepTrade, KeepOrder, KeepPosition, DistinctTrades, Dedupe, AllItems, Filter, AllRows, KeysOf;
    var once := ScopeEvent(clob, scope);
    var keep := KeepTrade(scope, once.conditions);
    DedupeDistinct(AllRows(clob, true));
    FilterDistinct(TradeRows(clob, true), keep);
    if clob.trades.None? && clob.directTrades.None? { NoAccountRows(clob, scope, once.conditions); }
    MarketRowsSettle(clob, once.clob, Filter(TradeRows(clob, false), keep), Filter(TradeRows(clob, true), keep));
  }

  /** A scoping that finds only what it keeps rewrites nothing but the market sections. */
  lemma ScopeOfScoped(r: DirectClob, scope: Scope, conditions: set<string>)
    requires scope.tokens != {} && Conditions(AllItems(r), scope) == conditions
    requires Filter(r.orders, KeepOrder(scope, conditions)) == r.orders
    requires Filter(r.positions, KeepPosition(scope, conditions)) == r.positions
    requires Filter(TradeRows(r, false), KeepTrade(scope, conditions)) == TradeRows(r, false)
    requires Filter(TradeRows(r, true), KeepTrade(scope, conditions)) == TradeRows(r, true)
    requires r.trades == Replaced(r.trades, TradeRows(r, false))
    requires r.directTrades == Replaced(r.directTrades, TradeRows(r, false))
    ensures var market := TradeRows(r, true);
            ScopeEvent(r, scope)
            == Scoped(r.(currentTokenTrades := market, marketTrades := Replaced(r.marketTrades, market)), conditions)
  {
    hide AllItems, Conditions, TradeRows, KeepOrder, KeepPosition, KeepTrade, Filter;
  }

  lemma ScopedListsMatch(clob: DirectClob, scope: Scope)
    requires scope.tokens != {}
    ensures var once := ScopeEvent(clob, scope);
            && Filter(once.clob.orders, KeepOrder(scope, once.conditions)) == once.clob.orders
            && Filter(once.clob.positions, KeepPosition(scope, once.conditions)) == once.clob.positions
  {
    var once := ScopeEvent(clob, scope);
    hide AllItems, Conditions, TradeRows, KeepOrder, KeepPosition, KeepTrade, Filter;
    FilterAll(once.clob.orders, KeepOrder(scope, once.conditions));
    FilterAll(once.clob.positions, KeepPosition(scope, once.conditions));
  }

  lemma ScopedSettles(clob: DirectClob, scope: Scope)
    requires scope.tokens != {}
    requires forall x :: x in AllItems(clob) ==> FieldsAgree(x)
    ensures var once := ScopeEvent(clob, scope);
            && Conditions(AllItems(once.clob), scope) == once.conditions
            && Filter(once.clob.orders, KeepOrder(scope, once.conditions)) == once.clob.orders
            && Filter(once.clob.positions, KeepPosition(scope, once.conditions)) == once.clob.positions
            && once.clob.trades == Replaced(once.clob.trades, TradeRows(once.clob, false))
            && once.clob.directTrades == Replaced(once.clob.directTrades, TradeRows(once.clob, false))
  {
    var once := ScopeEvent(clob, scope);
    ScopedItems(clob, scope);
    ConditionsAgain(AllItems(clob), AllItems(once.clob), scope);
    ScopedTrades(clob, scope);
    ScopedListsMatch(clob, scope);
    hide AllItems, Conditions, TradeRows, KeepOrder, KeepPosition, KeepTrade, FieldsAgree, Kept, Filter;
  }

  /**
    Scoping scoped data again never changes the orders, positions, account trades or condition
    ids.  It changes nothing at all, the current-token and market trades included, if and only if
    no kept account trade has lost its key.
  */
  lemma ScopeIdempotent(clob: DirectClob, scope: Scope)
    requires forall x :: x in AllItems(clob) ==> FieldsAgree(x)
    ensures var once := ScopeEvent(clob, scope);
            var twice := ScopeEvent(once.clob, scope);
            && twice.clob.orders == once.clob.orders
            && twice.clob.positions == once.clob.positions
            && twice.clob.trades == once.clob.trades && twice.clob.directTrades == once.clob.directTrades
            && twice.conditions == once.conditions
            && (twice == once <==> scope.tokens == {} || AccountKeysKept(clob, scope))
  {
    if scope.tokens != {} {
      var once := ScopeEvent(clob, scope);
      ScopedSettles(clob, scope);
      ScopedRowsMatch(clob, scope);
      MarketTradesAgain(clob, scope);
      ScopeOfScoped(once.clob, scope, once.conditions);
      MarketSection(clob, scope);
      hide *;
    }
  }

  lemma MarketSection(clob: DirectClob, scope: Scope)
    requires scope.tokens != {}
    ensures var r := ScopeEvent(clob, scope).clob; r.marketTrades == Replaced(r.marketTrades, r.currentTokenTrades)
  {
    hide AllItems, Conditions, TradeRows, Filter;
  }

  /** A third scoping never changes anything. */
  lemma TwoScopingsSettle(clob: DirectClob, scope: Scope)
    requires forall x :: x in AllItems(clob) ==> FieldsAgree(x)
    ensures var twice := ScopeEvent(ScopeEvent(clob, scope).clob, scope);
            ScopeEvent(twice.clob, scope) == twice
  {
    if scope.tokens != {} {
      var once := ScopeEvent(clob, scope).clob;
      ScopedItems(clob, scope);
      ScopedSettles(clob, scope);
      ScopedRowsMatch(clob, scope);
      AccountKeysWithinAll(once);
      assert forall x :: x in Kept(AllItems(clob), scope) ==> x in AllItems(clob);
      assert AccountKeysKept(once, scope) by { hide AllItems, TradeRows, Conditions, KeepTrade, Filter, ScopeEvent; }
      hide *;
      ScopeIdempotent(once, scope);
    }
  }

  /** A trade on one token and an account row of the same trade on another. */
  function TwoTokenTrade(x: Item, other: string): DirectClob {
    DirectClob([], [], [x.(tokenId := other)], Some([x]), None, None)
  }

  function AccountTrade(x: Item): DirectClob { DirectClob([], [], [], Some([x]), None, None) }

  predicate PlainTrade(x: Item) {
    x.tradeId != "" && x.condition == "" && x.slug == "" && x.assetId == "" && x.asset == "" && x.tokenId != ""
  }

  lemma TwoTokenRows(x: Item, other: string)
    requires PlainTrade(x)
    ensures var clob := TwoTokenTrade(x, other);
            && TradeRows(clob, false) == [x] && TradeRows(clob, true) == [x.(tokenId := other)]
            && AllItems(clob) == [x, x.(tokenId := other)]
  {
    hide Dedupe, KeyOf;
    var y := x.(tokenId := other);
    assert KeyOf(x) == KeyOf(y) by { SameTrade(x, other); }
    DedupePair(y, x);
    var clob := TwoTokenTrade(x, other);
    assert AllRows(clob, false) == [x] && AllRows(clob, true) == [y, x];
    hide AllRows;
  }

  lemma SameTrade(x: Item, other: string)
    requires PlainTrade(x)
    ensures KeyOf(x) == KeyOf(x.(tokenId := other))
  {
  }

  lemma PlainTradesMatch(x: Item, scope: Scope, other: string)
    requires PlainTrade(x) && x.tokenId in scope.tokens && other !in scope.tokens
    ensures Conditions([x, x.(tokenId := other)], scope) == {}
    ensures forall conditions :: KeepTrade(scope, conditions)(x) && !KeepTrade(scope, conditions)(x.(tokenId := other))
  {
  }

  lemma FirstScopingDrops(x: Item, scope: Scope, other: string)
    requires PlainTrade(x) && x.tokenId in scope.tokens && other !in scope.tokens
    ensures ScopeEvent(TwoTokenTrade(x, other), scope).clob == AccountTrade(x)
  {
    TwoTokenRows(x, other);
    PlainTradesMatch(x, scope, other);
    hide TradeRows, AllItems, Filter, Conditions, KeepTrade, KeepOrder, KeepPosition, PlainTrade;
    FilterOne(x, KeepTrade(scope, {}));
    FilterOne(x.(tokenId := other), KeepTrade(scope, {}));
    FilterNone(KeepOrder(scope, {}));
    FilterNone(KeepPosition(scope, {}));
  }

  lemma SecondScopingKeeps(x: Item, scope: Scope)
    requires PlainTrade(x) && x.tokenId in scope.tokens
    ensures ScopeEvent(AccountTrade(x), scope).clob.currentTokenTrades == [x]
  {
    var clob := AccountTrade(x);
    assert AllRows(clob, false) == [x] && AllRows(clob, true) == [x];
    DedupePair(x, x);
    hide Dedupe, AllRows, Filter;
    FilterOne(x, KeepTrade(scope, Conditions(AllItems(clob), scope)));
  }

  /**
    One trade reported under two tokens, the other event's token first: the first scoping drops
    it from the current-token trades, the second one puts the account's row there.
  */
  lemma SecondScopingAddsTrade(x: Item, scope: Scope, other: string)
    requires PlainTrade(x) && x.tokenId in scope.tokens && other !in scope.tokens
    ensures var clob := TwoTokenTrade(x, other);
            var once := ScopeEvent(clob, scope).clob;
            && (forall y :: y in AllItems(clob) ==> FieldsAgree(y))
            && once.currentTokenTrades == []
            && ScopeEvent(once, scope).clob.currentTokenTrades == [x]
  {
    TwoTokenRows(x, other);
    FirstScopingDrops(x, scope, other);
    SecondScopingKeeps(x, scope);
    hide ScopeEvent, AllItems;
  }

  lemma FilterNone(keep: Item -> bool)
    ensures Filter([], keep) == []
  {
  }

  lemma DedupePair(x: Item, y: Item)
    requires KeyOf(x) == KeyOf(y)
    ensures Dedupe([x]) == [x] && Dedupe([y]) == [y] && Dedupe([x, y]) == [x]
  {
    hide *;
    DedupeSingle(x);
    DedupeSingle(y);
    DedupeRepeats([x], [y]);
    assert [x] + [y] == [x, y];
  }

  lemma DedupeSingle(x: Item)
    ensures Dedupe([x]) == [x] && KeysOf([x]) == {KeyOf(x)}
  {
    hide KeyOf;
    assert [x][..0] == [];
  }

  lemma FilterOne(x: Item, keep: Item -> bool)
    ensures Filter([x], keep) == if keep(x) then [x] else []
  {
    assert [x][..0] == [];
  }

  // ----- the same in plain fields -----

  /** Named by a plan token or an event slug of the scope. */
  predicate Named(token: string, slug: string, scope: Scope) {
    (token != "" && token in scope.tokens) || (slug != "" && slug in scope.slugs)
  }

  function PositionFirstToken(x: Item): string {
    if x.asset != "" then x.asset else if x.assetId != "" then x.assetId else x.tokenId
  }

  /** Shares a condition with some order, position or trade that is named. */
  ghost predicate Related(clob: DirectClob, scope: Scope, x: Item) {
    x.condition != "" && exists y :: y in AllItems(clob) && y.condition == x.condition
                                     && Named(FirstToken(y), y.slug, scope)
  }

  lemma RelatedIff(clob: DirectClob, scope: Scope, x: Item)
    ensures Related(clob, scope, x) <==> x.condition != "" && x.condition in Conditions(AllItems(clob), scope)
  {
    hide AllItems;
    assert forall y: Item :: AnyToken(y) == FirstToken(y);
  }

  /** All that scoping looks at. */
  lemma AllItemsAre(clob: DirectClob, x: Item)
    ensures x in AllItems(clob)
       <==> x in clob.orders || x in clob.positions || x in TradeRows(clob, false) || x in TradeRows(clob, true)
  {
    hide TradeRows;
  }

  /**
    What is kept, section by section: an order, position or trade that is named by its token or
    slug, or shares a condition with anything that is.
  */
  lemma KeptExactly(clob: DirectClob, scope: Scope, x: Item)
    requires scope.tokens != {}
    ensures var r := ScopeEvent(clob, scope).clob;
            && (x in r.orders <==> x in clob.orders && (Named(FirstToken(x), x.slug, scope) || Related(clob, scope, x)))
            && (x in r.positions
                <==> x in clob.positions && (Named(PositionFirstToken(x), x.slug, scope) || Related(clob, scope, x)))
            && (x in r.currentTokenTrades
                <==> x in TradeRows(clob, true) && (Named(FirstToken(x), x.slug, scope) || Related(clob, scope, x)))
            && (clob.trades.Some? ==>
                  && r.trades.Some?
                  && (x in r.trades.value
                      <==> && x in TradeRows(clob, false)
                           && (Named(FirstToken(x), x.slug, scope) || Related(clob, scope, x))))
  {
    RelatedIff(clob, scope, x);
    hide AllItems, Conditions, TradeRows, Filter, Related;
  }

  /** The replaced sections: current-token and market trades alike, trades and direct trades alike. */
  lemma SectionsReplaced(clob: DirectClob, scope: Scope)
    requires scope.tokens != {}
    ensures var r := ScopeEvent(clob, scope).clob;
            && r.marketTrades == (if clob.marketTrades.Some? then Some(r.currentTokenTrades) else None)
            && (r.trades.Some? <==> clob.trades.Some?) && (r.directTrades.Some? <==> clob.directTrades.Some?)
            && (r.trades.Some? && r.directTrades.Some? ==> r.trades == r.directTrades)
  {
    hide AllItems, Conditions, TradeRows, Filter;
  }

  /** An order whose slug names the event is kept whatever its token, and without plan tokens nothing is dropped. */
  lemma NamedSlugKept(clob: DirectClob, scope: Scope, x: Item)
    requires x in clob.orders && x.slug != "" && x.slug in scope.slugs
    ensures x in ScopeEvent(clob, scope).clob.orders
    ensures scope.tokens == {} ==> ScopeEvent(clob, scope).clob == clob
  {
    if scope.tokens != {} {
      KeptExactly(clob, scope, x);
    }
    hide ScopeEvent;
  }
}
