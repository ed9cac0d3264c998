/**
  The account's direct exchange data: trade de-duplication, the accounting of pending local
  orders against it, and its scoping to one event.
*/
module DirectTruth {
  import opened Wrappers
  import Plans

  /**
    One order, position or trade as the exchange reports it.  All three are untyped records and
    the same accessors are applied to each; alias keys are resolved to the first one given.
  */
  datatype Item = Item(
    assetId: string, asset: string, tokenId: string, condition: string, slug: string,
    externalId: string, tradeId: string, orderIds: set<string>, side: string, price: string, size: string, time: string)

  datatype DirectClob = DirectClob(
    orders: seq<Item>, positions: seq<Item>,
    currentTokenTrades: seq<Item>, trades: Option<seq<Item>>,
    marketTrades: Option<seq<Item>>, directTrades: Option<seq<Item>>)

  function FirstGiven(a: string, b: string, c: string): string {
    if a != "" then a else if b != "" then b else c
  }

  function OrderToken(x: Item): string { FirstGiven(x.assetId, x.asset, x.tokenId) }

  function PositionToken(x: Item): string { FirstGiven(x.asset, x.assetId, x.tokenId) }

  function TradeToken(x: Item): string { FirstGiven(x.assetId, x.asset, x.tokenId) }

  // ----- trade de-duplication -----

  datatype StableKey =
    | IdKey(id: string)
    | FieldsKey(orderIds: set<string>, token: string, side: string, price: string, size: string, time: string)

  function KeyOf(x: Item): StableKey {
    if x.tradeId != "" then IdKey(x.tradeId)
    else FieldsKey(x.orderIds, TradeToken(x), x.side, x.price, x.size, x.time)
  }

  function KeysOf(s: seq<Item>): set<StableKey> {
    set x | x in s :: KeyOf(x)
  }

  function Dedupe(s: seq<Item>): (r: seq<Item>)
    ensures forall x :: x in r ==> x in s
  {
    if s == [] then []
    else
      var n := |s| - 1;
      Dedupe(s[..n]) + (if KeyOf(s[n]) in KeysOf(s[..n]) then [] else [s[n]])
  }

  function Section(s: Option<seq<Item>>): seq<Item> { s.GetOr([]) }

  /** All trade rows, in the order the sections are read. */
  function AllRows(clob: DirectClob, includeMarket: bool): seq<Item> {
    if includeMarket then
      clob.currentTokenTrades + Section(clob.trades) + Section(clob.marketTrades) + Section(clob.directTrades)
    else Section(clob.trades) + Section(clob.directTrades)
  }

  function TradeRows(clob: DirectClob, includeMarket: bool): seq<Item> {
    Dedupe(AllRows(clob, includeMarket))
  }

  method DirectTradeRows(clob: DirectClob, includeMarket: bool) returns (rows: seq<Item>)
    ensures rows == TradeRows(clob, includeMarket)
  {
    rows := [];
    var seen: set<StableKey> := {};
    var all := AllRows(clob, includeMarket);
    ReadStart(all);
    assert TradeRows(clob, includeMarket) == Dedupe(all[..|all|]);
    hide *;
    for i := 0 to |all|
      invariant rows == Dedupe(all[..i])
      invariant seen == KeysOf(all[..i])
    {
      var trade := all[i];
      ReadOne(all, i);
      var key := KeyOf(trade);
      if key in seen {
        continue;
      }
      seen := seen + {key};
      rows := rows + [trade];
    }
  }

  lemma ReadStart(all: seq<Item>)
    ensures Dedupe(all[..0]) == [] && KeysOf(all[..0]) == {}
    ensures all[..|all|] == all
  {
  }

  lemma ReadOne(all: seq<Item>, i: nat)
    requires i < |all|
    ensures Dedupe(all[..i + 1]) == Dedupe(all[..i]) + (if KeyOf(all[i]) in KeysOf(all[..i]) then [] else [all[i]])
    ensures KeysOf(all[..i + 1]) == KeysOf(all[..i]) + {KeyOf(all[i])}
  {
    hide *;
    assert all[..i + 1] == all[..i] + [all[i]] && all[..i + 1][..i] == all[..i];
    DedupeStep(all[..i + 1]);
    KeysOfExtend(all[..i], all[i]);
  }

  ghost predicate IsFirstOfKey(s: seq<Item>, i: int) {
    0 <= i < |s| && forall h :: 0 <= h < i ==> KeyOf(s[h]) != KeyOf(s[i])
  }

  lemma KeyListed(s: seq<Item>, k: StableKey)
    ensures k in KeysOf(s) <==> exists h :: 0 <= h < |s| && KeyOf(s[h]) == k
  {
    if k in KeysOf(s) {
      var x :| x in s && KeyOf(x) == k;
      var h :| 0 <= h < |s| && s[h] == x;
      assert KeyOf(s[h]) == k;
    }
  }

  /** `at` lists, in order, exactly the positions of first rows. */
  ghost predicate FirstPositions(s: seq<Item>, at: seq<nat>) {
    && (forall i, j :: 0 <= i < j < |at| ==> at[i] < at[j])
    && (forall i :: i in at <==> IsFirstOfKey(s, i))
  }

  lemma FirstPositionsStep(s: seq<Item>, before: seq<nat>)
    requires s != [] && FirstPositions(s[..|s| - 1], before)
    ensures FirstPositions(s, if KeyOf(s[|s| - 1]) in KeysOf(s[..|s| - 1]) then before else before + [|s| - 1])
  {
    var n := |s| - 1;
    LastIsFirst(s);
    var repeated := KeyOf(s[n]) in KeysOf(s[..n]);
    var at := if repeated then before else before + [n];
    PositionsWithin(s[..n], before);
    FirstsOfPrefix(s);
    hide KeysOf, KeyOf, IsFirstOfKey;
    assert forall i :: i in at <==> i in before || (!repeated && i == n);
  }

  lemma LastIsFirst(s: seq<Item>)
    requires s != []
    ensures IsFirstOfKey(s, |s| - 1) <==> KeyOf(s[|s| - 1]) !in KeysOf(s[..|s| - 1])
  {
    hide KeysOf;
    KeyListed(s[..|s| - 1], KeyOf(s[|s| - 1]));
  }

  lemma PositionsWithin(s: seq<Item>, at: seq<nat>)
    requires FirstPositions(s, at)
    ensures forall i :: i in at ==> i < |s|
    ensures forall j :: 0 <= j < |at| ==> at[j] < |s|
  {
    assert forall j :: 0 <= j < |at| ==> at[j] in at;
    assert forall i :: i in at ==> IsFirstOfKey(s, i);
  }

  lemma FirstsOfPrefix(s: seq<Item>)
    requires s != []
    ensures forall i :: IsFirstOfKey(s, i) && i != |s| - 1 ==> IsFirstOfKey(s[..|s| - 1], i)
    ensures forall i :: IsFirstOfKey(s[..|s| - 1], i) ==> IsFirstOfKey(s, i)
  {
  }

  lemma DedupeStep(s: seq<Item>)
    requires s != []
    ensures var n := |s| - 1; Dedupe(s) == Dedupe(s[..n]) + (if KeyOf(s[n]) in KeysOf(s[..n]) then [] else [s[n]])
  {
  }

  /** `r` lists the elements of `s` at the given positions. */
  ghost predicate ReadsOff<T>(s: seq<T>, at: seq<nat>, r: seq<T>) {
    |at| == |r| && forall j :: 0 <= j < |at| ==> at[j] < |s| && s[at[j]] == r[j]
  }

  lemma ReadsOffStep<T>(s: seq<T>, at: seq<nat>, r: seq<T>)
    requires s != [] && ReadsOff(s[..|s| - 1], at, r)
    ensures ReadsOff(s, at, r + []) && ReadsOff(s, at + [|s| - 1], r + [s[|s| - 1]])
  {
    var front := s[..|s| - 1];
    assert forall j :: 0 <= j < |at| ==> at[j] < |front| && front[at[j]] == s[at[j]];
  }

  /** De-duplication keeps exactly the first row of each stable key, in order. */
  lemma {:induction false} DedupeKeepsFirsts(s: seq<Item>) returns (at: seq<nat>)
    ensures FirstPositions(s, at) && ReadsOff(s, at, Dedupe(s))
  {
    if s == [] {
      at := [];
    } else {
      hide *;
      var n := |s| - 1;
      var before := DedupeKeepsFirsts(s[..n]);
      FirstPositionsStep(s, before);
      ReadsOffStep(s, before, Dedupe(s[..n]));
      DedupeStep(s);
      at := if KeyOf(s[n]) in KeysOf(s[..n]) then before else before + [n];
    }
  }

  /** A key's rows are all represented: de-duplication loses no key. */
  lemma {:induction false} DedupeKeepsKeys(s: seq<Item>)
    ensures KeysOf(Dedupe(s)) == KeysOf(s)
  {
    if s != [] {
      var n := |s| - 1;
      DedupeKeepsKeys(s[..n]);
      assert s == s[..n] + [s[n]];
      KeysOfConcat(s[..n], [s[n]]);
      KeysOfConcat(Dedupe(s[..n]), [s[n]]);
      assert Dedupe(s[..n]) + [] == Dedupe(s[..n]);
    }
  }

  lemma KeysOfConcat(a: seq<Item>, b: seq<Item>)
    ensures KeysOf(a + b) == KeysOf(a) + KeysOf(b)
  {
  }

  lemma KeysOfExtend(a: seq<Item>, x: Item)
    ensures KeysOf(a + [x]) == KeysOf(a) + {KeyOf(x)}
  {
    hide KeyOf;
    KeysOfConcat(a, [x]);
    assert KeysOf([x]) == {KeyOf(x)};
  }

  /** Every trade key known from the account sections is known from all sections together. */
  lemma AccountKeysWithinAll(clob: DirectClob)
    ensures KeysOf(TradeRows(clob, false)) <= KeysOf(TradeRows(clob, true))
  {
    DedupeKeepsKeys(AllRows(clob, false));
    DedupeKeepsKeys(AllRows(clob, true));
    forall k | k in KeysOf(AllRows(clob, false))
      ensures k in KeysOf(AllRows(clob, true))
    {
      var x :| x in AllRows(clob, false) && KeyOf(x) == k;
      assert x in AllRows(clob, true);
    }
  }

  // ----- filled and open order identifiers -----

  function IdsOf(s: seq<Item>): set<string> {
    set x, id | x in s && id in x.orderIds :: id
  }

  function FilledIds(clob: DirectClob): set<string> { IdsOf(TradeRows(clob, true)) }

  function OpenIds(clob: DirectClob): set<string> {
    set x | x in clob.orders && x.externalId != "" :: x.externalId
  }

  /** Some row names the order, but no first row of a key does. */
  ghost predicate FillForgotten(rows: seq<Item>, id: string) {
    && (exists i :: 0 <= i < |rows| && id in rows[i].orderIds)
    && (forall h :: IsFirstOfKey(rows, h) ==> id !in rows[h].orderIds)
  }

  lemma DedupeMembers(rows: seq<Item>)
    ensures forall x :: x in Dedupe(rows) <==> exists h :: IsFirstOfKey(rows, h) && rows[h] == x
  {
    var at := DedupeKeepsFirsts(rows);
    hide IsFirstOfKey, Dedupe;
    forall x | x in Dedupe(rows)
      ensures exists h :: IsFirstOfKey(rows, h) && rows[h] == x
    {
      var j :| 0 <= j < |at| && Dedupe(rows)[j] == x;
      assert at[j] in at;
    }
    forall h | IsFirstOfKey(rows, h)
      ensures rows[h] in Dedupe(rows)
    {
      assert h in at;
      var j :| 0 <= j < |at| && at[j] == h;
    }
  }

  /** Exactly the forgotten fills are missing from the de-duplicated rows. */
  lemma FilledIdLostIff(rows: seq<Item>, id: string)
    ensures id in IdsOf(rows) && id !in IdsOf(Dedupe(rows)) <==> FillForgotten(rows, id)
  {
    DedupeMembers(rows);
    hide Dedupe;
    if id in IdsOf(rows) {
      var x :| x in rows && id in x.orderIds;
      assert exists i :: 0 <= i < |rows| && id in rows[i].orderIds;
    }
    if i :| 0 <= i < |rows| && id in rows[i].orderIds {
      assert rows[i] in rows;
    }
    forall h | IsFirstOfKey(rows, h) && id in rows[h].orderIds
      ensures id in IdsOf(Dedupe(rows))
    {
      assert rows[h] in Dedupe(rows);
    }
  }

  /** Rows reported under one trade identifier carry the same order identifiers. */
  ghost predicate ConsistentTrades(rows: seq<Item>) {
    forall x, y :: x in rows && y in rows && x.tradeId != "" && x.tradeId == y.tradeId ==> x.orderIds == y.orderIds
  }

  /**
    De-duplication loses no filled order identifier if and only if every order a row names is
    named by the first row of some key; rows that agree within each trade never lose one.
  */
  lemma NoFilledIdLost(rows: seq<Item>)
    ensures IdsOf(Dedupe(rows)) == IdsOf(rows) <==> forall id :: !FillForgotten(rows, id)
    ensures ConsistentTrades(rows) ==> forall id :: !FillForgotten(rows, id)
  {
    forall id
      ensures id in IdsOf(rows) && id !in IdsOf(Dedupe(rows)) <==> FillForgotten(rows, id)
    {
      FilledIdLostIff(rows, id);
    }
    assert forall x :: x in Dedupe(rows) ==> x in rows;
    if ConsistentTrades(rows) {
      ConsistentTradesKeepIds(rows);
    }
    hide FillForgotten, Dedupe;
  }

  lemma ConsistentTradesKeepIds(rows: seq<Item>)
    requires ConsistentTrades(rows)
    ensures IdsOf(Dedupe(rows)) == IdsOf(rows)
  {
    DedupeKeepsKeys(rows);
    forall id | id in IdsOf(rows)
      ensures id in IdsOf(Dedupe(rows))
    {
      var x :| x in rows && id in x.orderIds;
      assert KeyOf(x) in KeysOf(Dedupe(rows));
      var y :| y in Dedupe(rows) && KeyOf(y) == KeyOf(x);
      assert y.orderIds == x.orderIds;
    }
  }

  /** Two rows of one trade that name different orders: the second order's fill is forgotten. */
  lemma InconsistentTradeLosesFill(x: Item, other: string)
    requires x.tradeId != "" && other !in x.orderIds
    ensures var y := x.(orderIds := {other});
            other in IdsOf([x, y]) && other !in IdsOf(Dedupe([x, y])) && FillForgotten([x, y], other)
  {
    var y := x.(orderIds := {other});
    var rows := [x, y];
    assert rows[1] == y && other in rows[1].orderIds;
    assert KeyOf(rows[0]) == KeyOf(rows[1]);
    FilledIdLostIff(rows, other);
  }

  // ----- pending local orders -----

  datatype LocalOrder = LocalOrder(slug: string, orderId: string, externalId: string, side: string, status: string)

  datatype ExpiryReason = MissingAfterStart | NeverSentBeforeStart

  datatype ExpiredOrder = ExpiredOrder(order: LocalOrder, reason: ExpiryReason)

  const PENDING_STATUSES := {"pending_submit", "submitted", "open", "working", "pending", "partially_filled", "partial"}

  /** A local buy of the event still awaiting the exchange: neither resting nor filled there. */
  predicate Awaiting(o: LocalOrder, aliases: set<string>, clob: DirectClob) {
    && Plans.OneOf(o.slug, aliases) && o.side == "buy" && o.status in PENDING_STATUSES
    && (o.externalId == "" || (o.externalId !in FilledIds(clob) && o.externalId !in OpenIds(clob)))
  }

  function AwaitingOf(items: seq<LocalOrder>, aliases: set<string>, clob: DirectClob): seq<LocalOrder> {
    if items == [] then []
    else
      var n := |items| - 1;
      AwaitingOf(items[..n], aliases, clob) + (if Awaiting(items[n], aliases, clob) then [items[n]] else [])
  }

  function Expire(o: LocalOrder): ExpiredOrder {
    ExpiredOrder(o, if o.externalId != "" then MissingAfterStart else NeverSentBeforeStart)
  }

  function ExpireAll(items: seq<LocalOrder>): (r: seq<ExpiredOrder>)
    ensures |r| == |items|
    ensures forall i :: 0 <= i < |items| ==> r[i] == Expire(items[i])
  {
    seq(|items|, i requires 0 <= i < |items| => Expire(items[i]))
  }

  /** `answer` is the portfolio's order list, or None when the query failed. */
  method PendingIntentSummary(answer: Option<seq<LocalOrder>>, aliases: set<string>, clob: DirectClob, started: bool)
    returns (ok: bool, pending: seq<LocalOrder>, expired: seq<ExpiredOrder>)
    ensures ok == answer.Some?
    ensures pending == if ok && !started then AwaitingOf(answer.value, aliases, clob) else []
    ensures expired == if ok && started then ExpireAll(AwaitingOf(answer.value, aliases, clob)) else []
  {
    if answer.None? {
      return false, [], [];
    }
    ok := true;
    var items := answer.value;
    var rows := DirectTradeRows(clob, true);
    var filled := IdsOf(rows);
    var open := OpenIds(clob);
    pending, expired := [], [];
    AwaitingStart(items, aliases, clob);
    hide TradeRows, IdsOf, OpenIds, AwaitingOf, ExpireAll, Expire;
    for i := 0 to |items|
      invariant pending == if started then [] else AwaitingOf(items[..i], aliases, clob)
      invariant expired == if started then ExpireAll(AwaitingOf(items[..i], aliases, clob)) else []
    {
      var item := items[i];
      AwaitingStep(items, aliases, clob, i);
      if !Plans.OneOf(item.slug, aliases) {
        continue;
      }
      if item.side != "buy" {
        continue;
      }
      if item.status !in PENDING_STATUSES {
        continue;
      }
      if item.externalId != "" && item.externalId in filled {
        continue;
      }
      if item.externalId != "" && item.externalId in open {
        continue;
      }
      if started {
        expired := expired + [Expire(item)];
        continue;
      }
      pending := pending + [item];
    }
    assert items[..|items|] == items;
  }

  lemma AwaitingStart(items: seq<LocalOrder>, aliases: set<string>, clob: DirectClob)
    ensures AwaitingOf(items[..0], aliases, clob) == [] && ExpireAll([]) == []
  {
  }

  lemma AwaitingStep(items: seq<LocalOrder>, aliases: set<string>, clob: DirectClob, i: nat)
    requires i < |items|
    ensures var before, after := AwaitingOf(items[..i], aliases, clob), AwaitingOf(items[..i + 1], aliases, clob);
            if Awaiting(items[i], aliases, clob) then
              after == before + [items[i]] && ExpireAll(after) == ExpireAll(before) + [Expire(items[i])]
            else after == before
  {
    assert items[..i + 1][..i] == items[..i];
    hide Awaiting, Expire;
  }

  lemma {:induction false} AwaitingExactly(
    items: seq<LocalOrder>, aliases: set<string>, clob: DirectClob, o: LocalOrder)
    ensures multiset(AwaitingOf(items, aliases, clob))[o]
         == if Awaiting(o, aliases, clob) then multiset(items)[o] else 0
  {
    if items == [] {
      assert items[..0] == items;
      AwaitingStart(items, aliases, clob);
    } else {
      hide *;
      var n := |items| - 1;
      AwaitingExactly(items[..n], aliases, clob, o);
      AwaitingStep(items, aliases, clob, n);
      assert items[..n + 1] == items == items[..n] + [items[n]];
      CountAppend(items[..n], items[n], o);
      CountAppend(AwaitingOf(items[..n], aliases, clob), items[n], o);
    }
  }

  lemma CountAppend<T>(s: seq<T>, x: T, y: T)
    ensures multiset(s + [x])[y] == multiset(s)[y] + (if x == y then 1 else 0)
  {
  }

  /** A local order of the event that could still be pending, by everything but the exchange's fills. */
  predicate Unrested(o: LocalOrder, aliases: set<string>, clob: DirectClob) {
    && Plans.OneOf(o.slug, aliases) && o.side == "buy" && o.status in PENDING_STATUSES
    && o.externalId != "" && o.externalId !in OpenIds(clob)
  }

  /** The order neither rests on the exchange nor appears on any trade row of any section. */
  ghost predicate AbsentFromExchange(o: LocalOrder, clob: DirectClob) {
    && (forall x :: x in clob.orders ==> x.externalId != o.externalId)
    && (forall x :: x in AllRows(clob, true) ==> o.externalId !in x.orderIds)
  }

  /**
    No order is counted twice.  Every order still awaiting the exchange is reported, once for
    each time it is listed, and none of them rests there.  Those reported with an identifier are
    absent from every trade row of every section if and only if no listed order's fill is
    forgotten by the de-duplication.
  */
  lemma PendingNotDoubleCounted(items: seq<LocalOrder>, aliases: set<string>, clob: DirectClob)
    ensures forall o :: multiset(AwaitingOf(items, aliases, clob))[o]
                     == if Awaiting(o, aliases, clob) then multiset(items)[o] else 0
    ensures forall o, x :: o in AwaitingOf(items, aliases, clob) && o.externalId != "" && x in clob.orders ==>
              x.externalId != o.externalId
    ensures (forall o :: o in AwaitingOf(items, aliases, clob) && o.externalId != "" ==> AbsentFromExchange(o, clob))
        <==> (forall o :: o in items && Unrested(o, aliases, clob) ==>
                !FillForgotten(AllRows(clob, true), o.externalId))
  {
    hide AllRows, Dedupe, FillForgotten, IsFirstOfKey;
    forall o
      ensures multiset(AwaitingOf(items, aliases, clob))[o]
           == if Awaiting(o, aliases, clob) then multiset(items)[o] else 0
      ensures o in AwaitingOf(items, aliases, clob) <==> o in items && Awaiting(o, aliases, clob)
    {
      AwaitingExactly(items, aliases, clob, o);
      assert o in AwaitingOf(items, aliases, clob) <==> o in multiset(AwaitingOf(items, aliases, clob));
      assert o in items <==> o in multiset(items);
    }
    hide AwaitingOf;
    forall o | o in items && Unrested(o, aliases, clob)
      ensures Awaiting(o, aliases, clob) && !AbsentFromExchange(o, clob)
         <==> FillForgotten(AllRows(clob, true), o.externalId)
    {
      AwaitingFill(o, aliases, clob);
    }
    hide AbsentFromExchange;
    assert forall o :: Awaiting(o, aliases, clob) && o.externalId != "" ==> Unrested(o, aliases, clob);
  }

  /** An unrested order is reported in spite of a fill exactly when that fill is forgotten. */
  lemma AwaitingFill(o: LocalOrder, aliases: set<string>, clob: DirectClob)
    requires Unrested(o, aliases, clob)
    ensures Awaiting(o, aliases, clob) && !AbsentFromExchange(o, clob)
        <==> FillForgotten(AllRows(clob, true), o.externalId)
  {
    hide AllRows, Dedupe, FillForgotten;
    FilledIdLostIff(AllRows(clob, true), o.externalId);
  }

  /** A fill forgotten by the de-duplication leaves its order reported as pending. */
  lemma FilledOrderReportedPending(x: Item, o: LocalOrder, aliases: set<string>)
    requires x.tradeId != "" && o.externalId !in x.orderIds
    requires Plans.OneOf(o.slug, aliases) && o.side == "buy" && o.status in PENDING_STATUSES && o.externalId != ""
    ensures var clob := DirectClob([], [], [x], Some([x.(orderIds := {o.externalId})]), None, None);
            && AwaitingOf([o], aliases, clob) == [o]
            && o.externalId in IdsOf(AllRows(clob, true))
  {
    var y := x.(orderIds := {o.externalId});
    var clob := DirectClob([], [], [x], Some([y]), None, None);
    assert AllRows(clob, true) == [x, y];
    InconsistentTradeLosesFill(x, o.externalId);
    hide Dedupe;
    assert Awaiting(o, aliases, clob);
    assert [o][..0] == [];
    assert AwaitingOf([], aliases, clob) == [];
  }

  // ----- the same in plain fields -----

  function FirstToken(x: Item): string {
    if x.assetId != "" then x.assetId else if x.asset != "" then x.asset else x.tokenId
  }

  /**
    Two trade rows share a stable key exactly when they carry the same trade identifier or, both
    without one, agree in orders, token, side, price, size and time.
  */
  lemma SameKeyIff(x: Item, y: Item)
    ensures KeyOf(x) == KeyOf(y)
       <==> && x.tradeId == y.tradeId
            && (x.tradeId == "" ==>
                  && x.orderIds == y.orderIds && FirstToken(x) == FirstToken(y) && x.side == y.side
                  && x.price == y.price && x.size == y.size && x.time == y.time)
  {
  }

  /** Which sections are read: trades and direct trades always, the other two only with the market's observations. */
  lemma SectionsRead(clob: DirectClob, x: Item)
    ensures var inTrades := clob.trades.Some? && x in clob.trades.value;
            var inDirect := clob.directTrades.Some? && x in clob.directTrades.value;
            var inMarket := clob.marketTrades.Some? && x in clob.marketTrades.value;
            && (x in AllRows(clob, false) <==> inTrades || inDirect)
            && (x in AllRows(clob, true) <==> x in clob.currentTokenTrades || inTrades || inMarket || inDirect)
    ensures clob.currentTokenTrades <= AllRows(clob, true)
  {
  }

  /** A local order still awaits the exchange exactly when these fields say so. */
  lemma AwaitingIff(o: LocalOrder, aliases: set<string>, clob: DirectClob)
    ensures Awaiting(o, aliases, clob)
       <==> && (o.slug == "" || o.slug in aliases) && o.side == "buy"
            && (|| o.status == "pending_submit" || o.status == "submitted" || o.status == "open"
                || o.status == "working" || o.status == "pending" || o.status == "partially_filled"
                || o.status == "partial")
            && (o.externalId == ""
                || ((forall x :: x in clob.orders ==> x.externalId != o.externalId)
                    && (forall x :: x in TradeRows(clob, true) ==> o.externalId !in x.orderIds)))
  {
    hide TradeRows;
  }

  /** An order never sent expires as such; one the exchange no longer shows, as missing. */
  lemma ExpireIs(o: LocalOrder)
    ensures Expire(o).order == o
    ensures Expire(o).reason == NeverSentBeforeStart <==> o.externalId == ""
    ensures Expire(o).reason == MissingAfterStart <==> o.externalId != ""
  {
  }
}
