/**
  The greedy ultra-low rebound probe over one team's rows: buy the first eligible row, leave at
  the first target, stop or late-flatten row, and start again after it.
*/
module ProbeScan {
  import opened Wrappers

  /** One state row, in state order; a missing or non-numeric cell is None. */
  datatype Row = Row(price: Option<real>, scoreDiff: Option<real>, secondsLeft: Option<real>, stateIndex: Option<int>)

  datatype Reason = TargetHit | StopHit | LateFlatten | End

  datatype Trade = Trade(
    entryPrice: real, exitPrice: Option<real>, target: real, stop: real, reason: Reason,
    gross: Option<real>, net: Option<real>, favorable: real, adverse: real,
    entryStateIndex: int, exitStateIndex: int)

  predicate Eligible(r: Row) {
    && r.price.Some? && 0.003 <= r.price.value <= 0.05
    && r.secondsLeft.Some? && r.secondsLeft.value >= 180.0
    && (r.scoreDiff.Some? ==> Abs(r.scoreDiff.value) <= 35.0)
  }

  function Target(entry: real): real { MinReal(0.25, MaxReal(entry + 0.003, entry * 1.5)) }

  function Stop(entry: real): real { MaxReal(0.001, entry - 0.02) }

  /** Why a row ends a trade entered at `entry`, if it does; a row without a price never does. */
  function ExitReason(r: Row, entry: real): Option<Reason> {
    if r.price.None? then None
    else if r.price.value >= Target(entry) then Some(TargetHit)
    else if r.price.value <= Stop(entry) then Some(StopHit)
    else if r.secondsLeft.Some? && r.secondsLeft.value <= 90.0 then Some(LateFlatten)
    else None
  }

  // ----- absolute-index specification -----

  /** First eligible row at or after `from`, or the row count. */
  function FirstEligible(rows: seq<Row>, from: nat): (a: nat)
    requires from <= |rows|
    ensures from <= a <= |rows|
    ensures a < |rows| ==> Eligible(rows[a]) && rows[a].price.Some?
    decreases |rows| - from
  {
    if from == |rows| || Eligible(rows[from]) then from else FirstEligible(rows, from + 1)
  }

  /** First row at or after `from` that ends a trade entered at `entry`, or the row count. */
  function FirstExit(rows: seq<Row>, entry: real, from: nat): (x: nat)
    requires from <= |rows|
    ensures from <= x <= |rows|
    ensures x < |rows| ==> ExitReason(rows[x], entry).Some?
    decreases |rows| - from
  {
    if from == |rows| || ExitReason(rows[from], entry).Some? then from else FirstExit(rows, entry, from + 1)
  }

  /** The exit row of a trade entered at row `a`: the first that ends it, else the last row. */
  function ExitRow(rows: seq<Row>, a: nat): (x: nat)
    requires a < |rows| && rows[a].price.Some?
    ensures a <= x < |rows|
  {
    var x := FirstExit(rows, rows[a].price.value, a + 1);
    if x < |rows| then x else |rows| - 1
  }

  function ReasonAt(rows: seq<Row>, a: nat): Reason
    requires a < |rows| && rows[a].price.Some?
  {
    var x := FirstExit(rows, rows[a].price.value, a + 1);
    if x < |rows| then ExitReason(rows[x], rows[a].price.value).value else End
  }

  /** One pass of the scan: where it started looking, where it bought and where it left. */
  datatype Interval = Interval(start: nat, entry: nat, exit: nat)

  function Scan(rows: seq<Row>, start: nat, budget: nat): seq<Interval>
    requires start <= |rows|
    decreases budget
  {
    if budget == 0 then []
    else
      var a := FirstEligible(rows, start);
      if a == |rows| then []
      else
        var x := ExitRow(rows, a);
        [Interval(start, a, x)] + Scan(rows, x + 1, budget - 1)
  }

  predicate WellPlaced(rows: seq<Row>, iv: Interval) {
    iv.start <= iv.entry <= iv.exit < |rows| && Eligible(rows[iv.entry])
  }

  /** The trade is bought at the first eligible row from `start` on. */
  ghost predicate EntersFirst(rows: seq<Row>, iv: Interval)
    requires WellPlaced(rows, iv)
  {
    forall j :: iv.start <= j < iv.entry ==> !Eligible(rows[j])
  }

  /** The trade is left at the first later row that ends it, else at the last row. */
  ghost predicate LeavesFirst(rows: seq<Row>, iv: Interval)
    requires WellPlaced(rows, iv)
  {
    var entry := rows[iv.entry].price.value;
    || (iv.entry < iv.exit && ExitReason(rows[iv.exit], entry).Some?
        && forall j :: iv.entry < j < iv.exit ==> ExitReason(rows[j], entry).None?)
    || (iv.exit == |rows| - 1 && forall j :: iv.entry < j < |rows| ==> ExitReason(rows[j], entry).None?)
  }

  lemma {:induction false} FirstEligibleIsFirst(rows: seq<Row>, from: nat)
    requires from <= |rows|
    ensures forall j :: from <= j < FirstEligible(rows, from) ==> !Eligible(rows[j])
    decreases |rows| - from
  {
    if from < |rows| && !Eligible(rows[from]) {
      FirstEligibleIsFirst(rows, from + 1);
    }
  }

  lemma {:induction false} FirstExitIsFirst(rows: seq<Row>, entry: real, from: nat)
    requires from <= |rows|
    ensures forall j :: from <= j < FirstExit(rows, entry, from) ==> ExitReason(rows[j], entry).None?
    decreases |rows| - from
  {
    if from < |rows| && ExitReason(rows[from], entry).None? {
      FirstExitIsFirst(rows, entry, from + 1);
    }
  }

  /** Where the scan is after its trades: just past the last exit. */
  function ScanEnd(ivs: seq<Interval>, start: nat): nat {
    if ivs == [] then start else ivs[|ivs| - 1].exit + 1
  }

  lemma FirstInterval(rows: seq<Row>, start: nat)
    requires start <= |rows| && FirstEligible(rows, start) < |rows|
    ensures var a := FirstEligible(rows, start);
            var iv := Interval(start, a, ExitRow(rows, a));
            WellPlaced(rows, iv) && EntersFirst(rows, iv) && LeavesFirst(rows, iv)
  {
    var a := FirstEligible(rows, start);
    FirstEligibleIsFirst(rows, start);
    FirstExitIsFirst(rows, rows[a].price.value, a + 1);
    hide Eligible, ExitReason, FirstEligible, FirstExit;
  }

  /** Each pass starts just past the previous exit, enters first and leaves first. */
  ghost predicate Greedy(rows: seq<Row>, start: nat, ivs: seq<Interval>) {
    forall i :: 0 <= i < |ivs| ==>
      && ivs[i].start == (if i == 0 then start else ivs[i - 1].exit + 1)
      && WellPlaced(rows, ivs[i]) && EntersFirst(rows, ivs[i]) && LeavesFirst(rows, ivs[i])
  }

  lemma GreedyCons(rows: seq<Row>, iv: Interval, rest: seq<Interval>)
    requires WellPlaced(rows, iv) && EntersFirst(rows, iv) && LeavesFirst(rows, iv)
    requires Greedy(rows, iv.exit + 1, rest)
    ensures Greedy(rows, iv.start, [iv] + rest)
    ensures ScanEnd([iv] + rest, iv.start) == ScanEnd(rest, iv.exit + 1)
  {
    hide WellPlaced, EntersFirst, LeavesFirst;
    var ivs := [iv] + rest;
    forall i | 0 <= i < |ivs|
      ensures ivs[i].start == (if i == 0 then iv.start else ivs[i - 1].exit + 1)
      ensures WellPlaced(rows, ivs[i]) && EntersFirst(rows, ivs[i]) && LeavesFirst(rows, ivs[i])
    {
      if i > 0 {
        var k := i - 1;
        assert ivs[i] == rest[k] && rest[k].start == (if k == 0 then iv.exit + 1 else rest[k - 1].exit + 1);
        assert ivs[k] == if k == 0 then iv else rest[k - 1];
      }
    }
  }

  lemma ScanUnfold(rows: seq<Row>, start: nat, budget: nat)
    requires start <= |rows| && budget > 0
    ensures var a := FirstEligible(rows, start);
            Scan(rows, start, budget)
            == if a == |rows| then []
               else [Interval(start, a, ExitRow(rows, a))] + Scan(rows, ExitRow(rows, a) + 1, budget - 1)
  {
    hide FirstEligible, ExitRow, Eligible;
  }

  lemma NothingScanned(rows: seq<Row>, start: nat)
    ensures Greedy(rows, start, []) && ScanEnd([], start) == start
    ensures start <= |rows| ==> Scan(rows, start, 0) == []
  {
  }

  /**
    The greedy scan: each trade enters at the first eligible row after the previous exit and
    leaves at the first row that ends it, else at the last row; there are at most `budget`
    trades, and if fewer, no eligible row is left after the last exit.
  */
  lemma {:induction false} ScanIsGreedy(rows: seq<Row>, start: nat, budget: nat)
    requires start <= |rows|
    ensures var ivs := Scan(rows, start, budget);
            && Greedy(rows, start, ivs)
            && |ivs| <= budget
            && ScanEnd(ivs, start) <= |rows|
            && (|ivs| < budget ==> forall j :: ScanEnd(ivs, start) <= j < |rows| ==> !Eligible(rows[j]))
    decreases budget
  {
    hide *;
    NothingScanned(rows, start);
    if budget > 0 {
      var a := FirstEligible(rows, start);
      ScanUnfold(rows, start, budget);
      if a < |rows| {
        FirstInterval(rows, start);
        var x := ExitRow(rows, a);
        ScanIsGreedy(rows, x + 1, budget - 1);
        GreedyCons(rows, Interval(start, a, x), Scan(rows, x + 1, budget - 1));
      } else {
        FirstEligibleIsFirst(rows, start);
      }
    }
  }

  // ----- the trade record -----

  function MaxPrice(rows: seq<Row>): Option<real> {
    if rows == [] then None
    else
      var rest := MaxPrice(rows[1..]);
      if rows[0].price.None? then rest
      else if rest.None? then rows[0].price
      else Some(MaxReal(rows[0].price.value, rest.value))
  }

  function MinPrice(rows: seq<Row>): Option<real> {
    if rows == [] then None
    else
      var rest := MinPrice(rows[1..]);
      if rows[0].price.None? then rest
      else if rest.None? then rows[0].price
      else Some(MinReal(rows[0].price.value, rest.value))
  }

  function Slippage(cents: int): real { Max(0, cents) as real / 100.0 }

  function EntryFill(entry: real, cents: int): real { MinReal(0.999999, entry + Slippage(cents)) }

  function ExitFill(exit: real, cents: int): real { MaxReal(0.0, exit - Slippage(cents)) }

  function Return(exit: real, entry: real): real {
    if entry > 0.0 then (exit - entry) / entry else 0.0
  }

  function Gross(entry: real, exit: Option<real>): Option<real> {
    if exit.None? then None else Some(Return(exit.value, entry))
  }

  function Net(entry: real, exit: Option<real>, cents: int): Option<real> {
    if exit.None? then None else Some(Return(ExitFill(exit.value, cents), EntryFill(entry, cents)))
  }

  /** The recorded index of a row: its state index unless missing or zero, else its place in the window. */
  function RecordedIndex(r: Row, inWindow: int): int {
    if r.stateIndex.Some? && r.stateIndex.value != 0 then r.stateIndex.value else inWindow
  }

  /** The record of a trade; `segment` runs from the entry row to the end of the data. */
  function Record(segment: seq<Row>, exitRow: Row, reason: Reason, entryIndex: int, exitIndex: int, cents: int): Trade
    requires segment != [] && segment[0].price.Some?
  {
    var entry := segment[0].price.value;
    var exit := exitRow.price;
    Trade(entry, exit, Target(entry), Stop(entry), reason, Gross(entry, exit), Net(entry, exit, cents),
          MaxPrice(segment).GetOr(entry) - entry, entry - MinPrice(segment).GetOr(entry),
          RecordedIndex(segment[0], entryIndex), RecordedIndex(exitRow, exitIndex))
  }

  function TradeAt(rows: seq<Row>, iv: Interval, cents: int): Trade
    requires WellPlaced(rows, iv) && iv.exit == ExitRow(rows, iv.entry)
  {
    Record(rows[iv.entry..], rows[iv.exit], ReasonAt(rows, iv.entry), iv.entry - iv.start, iv.exit - iv.start, cents)
  }

  function Trades(rows: seq<Row>, start: nat, budget: nat, cents: int): (r: seq<Trade>)
    requires start <= |rows|
    decreases budget
  {
    if budget == 0 then []
    else
      var a := FirstEligible(rows, start);
      if a == |rows| then []
      else
        [TradeAt(rows, Interval(start, a, ExitRow(rows, a)), cents)]
        + Trades(rows, ExitRow(rows, a) + 1, budget - 1, cents)
  }

  ghost predicate Records(rows: seq<Row>, ivs: seq<Interval>, trades: seq<Trade>, cents: int) {
    && |trades| == |ivs|
    && forall i :: 0 <= i < |ivs| ==>
         && WellPlaced(rows, ivs[i]) && ivs[i].exit == ExitRow(rows, ivs[i].entry)
         && trades[i] == TradeAt(rows, ivs[i], cents)
  }

  lemma TradesUnfold(rows: seq<Row>, start: nat, budget: nat, cents: int)
    requires start <= |rows| && budget > 0
    ensures var a := FirstEligible(rows, start);
            Trades(rows, start, budget, cents)
            == if a == |rows| then []
               else [TradeAt(rows, Interval(start, a, ExitRow(rows, a)), cents)]
                    + Trades(rows, ExitRow(rows, a) + 1, budget - 1, cents)
  {
    hide FirstEligible, ExitRow, Eligible, TradeAt;
  }

  lemma RecordsCons(rows: seq<Row>, iv: Interval, rest: seq<Interval>, trades: seq<Trade>, cents: int)
    requires WellPlaced(rows, iv) && iv.exit == ExitRow(rows, iv.entry) && Records(rows, rest, trades, cents)
    ensures Records(rows, [iv] + rest, [TradeAt(rows, iv, cents)] + trades, cents)
  {
    hide WellPlaced, ExitRow, TradeAt;
  }

  lemma NothingRecorded(rows: seq<Row>, start: nat, cents: int)
    ensures Records(rows, [], [], cents)
    ensures start <= |rows| ==> Trades(rows, start, 0, cents) == []
  {
  }

  /** The trade records are those of the scanned intervals, one for one. */
  lemma {:induction false} TradesFollowScan(rows: seq<Row>, start: nat, budget: nat, cents: int)
    requires start <= |rows|
    ensures Records(rows, Scan(rows, start, budget), Trades(rows, start, budget, cents), cents)
    decreases budget
  {
    hide *;
    NothingScanned(rows, start);
    NothingRecorded(rows, start, cents);
    if budget > 0 {
      var a := FirstEligible(rows, start);
      ScanUnfold(rows, start, budget);
      TradesUnfold(rows, start, budget, cents);
      if a < |rows| {
        var x := ExitRow(rows, a);
        TradesFollowScan(rows, x + 1, budget - 1, cents);
        FirstInterval(rows, start);
        RecordsCons(rows, Interval(start, a, x), Scan(rows, x + 1, budget - 1), Trades(rows, x + 1, budget - 1, cents),
                    cents);
      }
    }
  }

  // ----- the sliced loop -----

  lemma {:induction false} EligibleInWindow(rows: seq<Row>, start: nat, k: nat)
    requires start + k <= |rows|
    ensures FirstEligible(rows[start..], k) + start == FirstEligible(rows, start + k)
    decreases |rows| - start - k
  {
    if start + k < |rows| && !Eligible(rows[start + k]) {
      EligibleInWindow(rows, start, k + 1);
    }
  }

  lemma {:induction false} ExitInWindow(rows: seq<Row>, start: nat, entry: real, k: nat)
    requires start + k <= |rows|
    ensures FirstExit(rows[start..], entry, k) + start == FirstExit(rows, entry, start + k)
    decreases |rows| - start - k
  {
    if start + k < |rows| && ExitReason(rows[start + k], entry).None? {
      ExitInWindow(rows, start, entry, k + 1);
    }
  }

  /** The entry loop over a window. */
  method FindEntry(window: seq<Row>) returns (index: Option<nat>)
    ensures index == if FirstEligible(window, 0) < |window| then Some(FirstEligible(window, 0)) else None
  {
    for i := 0 to |window|
      invariant FirstEligible(window, 0) == FirstEligible(window, i)
    {
      var r := window[i];
      if r.price.None? || !(0.003 <= r.price.value <= 0.05) {
        continue;
      }
      if r.secondsLeft.None? || r.secondsLeft.value < 180.0 {
        continue;
      }
      if r.scoreDiff.Some? && Abs(r.scoreDiff.value) > 35.0 {
        continue;
      }
      return Some(i);
    }
    return None;
  }

  /** The exit loop over a window. */
  method FindExit(window: seq<Row>, entryIndex: nat, target: real, stop: real) returns (index: nat, reason: Reason)
    requires entryIndex < |window| && window[entryIndex].price.Some?
    requires target == Target(window[entryIndex].price.value) && stop == Stop(window[entryIndex].price.value)
    ensures index == ExitRow(window, entryIndex) && reason == ReasonAt(window, entryIndex)
  {
    ghost var entry := window[entryIndex].price.value;
    index, reason := |window| - 1, End;
    for i := entryIndex + 1 to |window|
      invariant FirstExit(window, entry, entryIndex + 1) == FirstExit(window, entry, i)
    {
      var r := window[i];
      if r.price.None? {
        continue;
      }
      if r.price.value >= target {
        return i, TargetHit;
      }
      if r.price.value <= stop {
        return i, StopHit;
      }
      if r.secondsLeft.Some? && r.secondsLeft.value <= 90.0 {
        return i, LateFlatten;
      }
    }
  }

  lemma WindowPass(rows: seq<Row>, start: nat)
    requires start <= |rows|
    ensures FirstEligible(rows[start..], 0) + start == FirstEligible(rows, start)
    ensures var e := FirstEligible(rows[start..], 0);
            e < |rows| - start ==>
              && rows[start..][e] == rows[start + e]
              && ExitRow(rows[start..], e) + start == ExitRow(rows, start + e)
              && ReasonAt(rows[start..], e) == ReasonAt(rows, start + e)
              && rows[start..][e..] == rows[start + e..]
  {
    EligibleInWindow(rows, start, 0);
    var e := FirstEligible(rows[start..], 0);
    if e < |rows| - start {
      ExitInWindow(rows, start, rows[start + e].price.value, e + 1);
      hide Eligible, ExitReason, FirstEligible, FirstExit;
    }
  }

  /** One pass over the rows from `start` on, working on the re-sliced window. */
  method OnePass(rows: seq<Row>, start: nat, cents: int) returns (trade: Option<Trade>, next: nat)
    requires start < |rows|
    ensures var a := FirstEligible(rows, start);
            if a == |rows| then trade == None
            else
              trade == Some(TradeAt(rows, Interval(start, a, ExitRow(rows, a)), cents)) && next == ExitRow(rows, a) + 1
  {
    hide Eligible, FirstEligible, ExitRow, ReasonAt, FirstExit, Record;
    next := start;
    var window := rows[start..];
    var found := FindEntry(window);
    WindowPass(rows, start);
    if found.None? {
      return None, next;
    }
    var e := found.value;
    var entry := window[e].price.value;
    var target := MinReal(0.25, MaxReal(entry + 0.003, entry * 1.5));
    var stop := MaxReal(0.001, entry - 0.02);
    var x, reason := FindExit(window, e, target, stop);
    trade := Some(Record(window[e..], window[x], reason, e, x, cents));
    next := start + (x + 1);
  }

  /** `rest` is what is still to come after `done` out of `all`. */
  ghost predicate Remains(all: seq<Trade>, done: seq<Trade>, rest: seq<Trade>) { all == done + rest }

  lemma RemainsAll(all: seq<Trade>)
    ensures Remains(all, [], all)
  {
  }

  lemma NothingRemains(rows: seq<Row>, start: nat, budget: nat, cents: int, all: seq<Trade>, done: seq<Trade>)
    requires start <= |rows| && Remains(all, done, Trades(rows, start, budget, cents))
    requires start == |rows| || budget == 0 || FirstEligible(rows, start) == |rows|
    ensures done == all
  {
    hide TradeAt, Eligible, ExitRow;
    assert Trades(rows, start, budget, cents) == [];
  }

  lemma RemainsStep(rows: seq<Row>, start: nat, budget: nat, cents: int, all: seq<Trade>, done: seq<Trade>)
    requires start <= |rows| && budget > 0 && Remains(all, done, Trades(rows, start, budget, cents))
    requires FirstEligible(rows, start) < |rows|
    ensures var a := FirstEligible(rows, start);
            var trade := TradeAt(rows, Interval(start, a, ExitRow(rows, a)), cents);
            Remains(all, done + [trade], Trades(rows, ExitRow(rows, a) + 1, budget - 1, cents))
  {
    TradesUnfold(rows, start, budget, cents);
    hide FirstEligible, ExitRow, Eligible, TradeAt, Trades;
  }

  /** The re-slicing scan refines the absolute-index specification. */
  method UltraLowProbe(rows: seq<Row>, cents: int, maxTrades: int) returns (trades: seq<Trade>)
    ensures trades == Trades(rows, 0, Max(0, maxTrades), cents)
  {
    trades := [];
    var start: nat := 0;
    var count := 0;
    ghost var left: nat := Max(0, maxTrades);
    ghost var all := Trades(rows, 0, left, cents);
    assert left == if maxTrades < 0 then 0 else maxTrades;
    hide *;
    RemainsAll(all);
    while start < |rows| && count < maxTrades
      invariant start <= |rows| && (count < maxTrades ==> left > 0) && (left > 0 ==> left == maxTrades - count)
      invariant Remains(all, trades, Trades(rows, start, left, cents))
      decreases |rows| - start
    {
      var trade, next := OnePass(rows, start, cents);
      if trade.None? {
        break;
      }
      RemainsStep(rows, start, left, cents, all, trades);
      trades := trades + [trade.value];
      count := count + 1;
      start := next;
      left := left - 1;
    }
    NothingRemains(rows, start, left, cents, all, trades);
  }

  // ----- per-trade arithmetic -----

  lemma ReturnTimes(exit: real, entry: real)
    requires entry > 0.0
    ensures Return(exit, entry) * entry == exit - entry
  {
  }

  lemma ReturnAtLeast(exit: real, entry: real, r: real)
    requires entry > 0.0
    ensures Return(exit, entry) >= r <==> exit - entry >= r * entry
  {
    var u := Return(exit, entry);
    ReturnTimes(exit, entry);
    hide Return;
    assert (u - r) * entry == (exit - entry) - r * entry;
    if u < r { assert (r - u) * entry > 0.0; }
  }

  lemma PositiveFactor(d: real, c: real)
    requires c > 0.0 && d * c >= 0.0
    ensures d >= 0.0
  {
  }

  /** A cheaper exit against a dearer entry never returns more. */
  lemma ReturnMonotone(exit: real, entry: real, exit': real, entry': real)
    requires 0.0 <= exit' <= exit && 0.0 < entry <= entry'
    ensures Return(exit', entry') <= Return(exit, entry)
  {
    hide Return;
    var r, r' := Return(exit, entry), Return(exit', entry');
    ReturnTimes(exit, entry);
    ReturnTimes(exit', entry');
    ReturnAtLeast(exit, entry, -1.0);
    StretchEntry(r, entry, entry');
    Distribute(r, r', entry');
    PositiveFactor(r - r', entry');
  }

  lemma Distribute(a: real, b: real, c: real)
    ensures (a - b) * c == a * c - b * c
  {
  }

  lemma StretchEntry(r: real, entry: real, entry': real)
    requires r >= -1.0 && entry <= entry'
    ensures r * entry' >= r * entry - (entry' - entry)
  {
    var d := entry' - entry;
    assert (r + 1.0) * d >= 0.0;
    Distribute(r, -1.0, d);
    Distribute(entry', entry, r);
  }

  lemma {:induction false} PriceInRange(rows: seq<Row>, i: nat)
    requires i < |rows| && rows[i].price.Some?
    ensures MaxPrice(rows).Some? && MinPrice(rows).Some?
    ensures MinPrice(rows).value <= rows[i].price.value <= MaxPrice(rows).value
  {
    if i > 0 {
      PriceInRange(rows[1..], i - 1);
    }
  }

  lemma EntryBounds(rows: seq<Row>, iv: Interval)
    requires WellPlaced(rows, iv) && iv.exit == ExitRow(rows, iv.entry)
    ensures var e := rows[iv.entry].price.value;
            var x := rows[iv.exit].price;
            && 0.003 <= e <= 0.05 && Stop(e) < e < Target(e)
            && match ReasonAt(rows, iv.entry)
               case TargetHit => x.Some? && x.value >= e * 1.5 && x.value >= e + 0.003
               case StopHit => x.Some? && x.value < e && (x.value <= 0.001 || x.value <= e - 0.02)
               case LateFlatten => x.Some? && Stop(e) < x.value < Target(e)
               case End => iv.exit == |rows| - 1
  {
    var e := rows[iv.entry].price.value;
    assert e * 1.5 <= 0.25 && e + 0.003 <= 0.25;
    assert Target(e) >= e * 1.5 && Target(e) >= e + 0.003;
    hide FirstExit, Target;
  }

  /**
    What holds of every trade: the stop lies below and the target above the entry; a target exit
    returns at least half of the entry and 0.3 cents, a stop exit loses two cents or ends at 0.1
    cents, a late exit lies strictly between them; the exit lies within the recorded excursions;
    and with non-negative prices the net return is between a total loss and the gross return.
  */
  lemma TradeArithmetic(rows: seq<Row>, iv: Interval, cents: int)
    requires WellPlaced(rows, iv) && iv.exit == ExitRow(rows, iv.entry)
    requires rows[iv.exit].price.Some? && rows[iv.exit].price.value >= 0.0
    ensures var trade := TradeAt(rows, iv, cents);
            && trade.stop < trade.entryPrice < trade.target
            && trade.gross.Some? && trade.net.Some?
            && (trade.reason == TargetHit ==>
                  trade.gross.value >= 0.5 && trade.exitPrice.value >= trade.entryPrice + 0.003)
            && (trade.reason == StopHit ==>
                  trade.gross.value < 0.0
                  && (trade.exitPrice.value <= 0.001 || trade.exitPrice.value <= trade.entryPrice - 0.02))
            && (trade.reason == LateFlatten ==> trade.stop < trade.exitPrice.value < trade.target)
            && trade.entryPrice - trade.adverse <= trade.exitPrice.value <= trade.entryPrice + trade.favorable
            && -1.0 <= trade.net.value <= trade.gross.value
  {
    var e, x := rows[iv.entry].price.value, rows[iv.exit].price.value;
    hide WellPlaced, ExitRow, ReasonAt, Return, MaxPrice, MinPrice, Target, Stop, ExitFill, EntryFill, RecordedIndex;
    EntryBounds(rows, iv);
    PriceInRange(rows[iv.entry..], iv.exit - iv.entry);
    FillBounds(e, x, 0, cents);
    ReturnAtLeast(x, e, 0.5);
    ReturnAtLeast(x, e, 0.0);
    ReturnAtLeast(ExitFill(x, cents), EntryFill(e, cents), -1.0);
    ReturnMonotone(x, e, ExitFill(x, cents), EntryFill(e, cents));
  }

  lemma FillBounds(e: real, x: real, less: int, more: int)
    requires 0.003 <= e <= 0.05 && 0.0 <= x
    ensures 0.0 <= ExitFill(x, more) <= x && 0.0 < e <= EntryFill(e, more)
    ensures less <= more ==> ExitFill(x, more) <= ExitFill(x, less) && EntryFill(e, less) <= EntryFill(e, more)
  {
  }

  /** More slippage never improves the net return. */
  lemma SlippageNeverHelps(rows: seq<Row>, iv: Interval, less: int, more: int)
    requires WellPlaced(rows, iv) && iv.exit == ExitRow(rows, iv.entry) && less <= more
    requires rows[iv.exit].price.Some? && rows[iv.exit].price.value >= 0.0
    ensures TradeAt(rows, iv, more).net.value <= TradeAt(rows, iv, less).net.value
  {
    var e, x := rows[iv.entry].price.value, rows[iv.exit].price.value;
    hide WellPlaced, ExitRow, ReasonAt, Return, MaxPrice, MinPrice, Target, Stop, ExitFill, EntryFill, RecordedIndex;
    EntryBounds(rows, iv);
    FillBounds(e, x, less, more);
    FillBounds(e, x, less, less);
    ReturnMonotone(ExitFill(x, less), EntryFill(e, less), ExitFill(x, more), EntryFill(e, more));
  }

  /** When every row's state index is its position, trades record the absolute entry and exit positions. */
  lemma RecordedIndexIsPosition(rows: seq<Row>, iv: Interval, cents: int)
    requires WellPlaced(rows, iv) && iv.exit == ExitRow(rows, iv.entry)
    requires forall i :: 0 <= i < |rows| ==> rows[i].stateIndex == Some(i)
    ensures TradeAt(rows, iv, cents).entryStateIndex == iv.entry
    ensures TradeAt(rows, iv, cents).exitStateIndex == iv.exit
  {
  }

  // ----- the same in plain cells -----

  /** A row that can be bought: 0.3 to 5 cents, three minutes or more left, a known score gap of at most 35. */
  predicate Buyable(r: Row) {
    && r.price.Some? && r.price.value >= 0.003 && r.price.value <= 0.05
    && r.secondsLeft.Some? && r.secondsLeft.value >= 180.0
    && (r.scoreDiff.Some? ==> r.scoreDiff.value <= 35.0 && r.scoreDiff.value >= -35.0)
  }

  /** Half as much again and at least 0.3 cents more. */
  predicate Gained(r: Row, entry: real) {
    r.price.Some? && r.price.value >= entry * 1.5 && r.price.value >= entry + 0.003
  }

  /** Two cents less, or a tenth of a cent. */
  predicate Lost(r: Row, entry: real) { r.price.Some? && (r.price.value <= entry - 0.02 || r.price.value <= 0.001) }

  /** A minute and a half or less to go. */
  predicate Late(r: Row) { r.price.Some? && r.secondsLeft.Some? && r.secondsLeft.value <= 90.0 }

  lemma BuyableIsEligible(r: Row)
    ensures Eligible(r) <==> Buyable(r)
  {
  }

  /** Why a row ends a trade: the target first, then the stop, then the clock. */
  lemma ExitReasonIs(r: Row, entry: real)
    requires 0.003 <= entry <= 0.05
    ensures ExitReason(r, entry)
         == if Gained(r, entry) then Some(TargetHit)
            else if Lost(r, entry) then Some(StopHit)
            else if Late(r) then Some(LateFlatten)
            else None
  {
  }

  predicate Ends(r: Row, entry: real) { Gained(r, entry) || Lost(r, entry) || Late(r) }

  /** One trade of the scan, read off the cells of its rows. */
  ghost predicate FollowsCells(rows: seq<Row>, iv: Interval, trade: Trade) {
    && iv.start <= iv.entry <= iv.exit < |rows|
    && Buyable(rows[iv.entry]) && trade.entryPrice == rows[iv.entry].price.value
    && (forall j :: iv.start <= j < iv.entry ==> !Buyable(rows[j]))
    && (forall j :: iv.entry < j < iv.exit ==> !Ends(rows[j], trade.entryPrice))
    && trade.exitPrice == rows[iv.exit].price
    && (if iv.entry < iv.exit && Ends(rows[iv.exit], trade.entryPrice)
        then trade.reason == (if Gained(rows[iv.exit], trade.entryPrice) then TargetHit
                              else if Lost(rows[iv.exit], trade.entryPrice) then StopHit
                              else LateFlatten)
        else iv.exit == |rows| - 1 && trade.reason == End)
  }

  lemma TradeFollowsCells(rows: seq<Row>, iv: Interval, cents: int)
    requires WellPlaced(rows, iv) && EntersFirst(rows, iv) && LeavesFirst(rows, iv)
    requires iv.exit == ExitRow(rows, iv.entry)
    ensures FollowsCells(rows, iv, TradeAt(rows, iv, cents))
  {
    var entry := rows[iv.entry].price.value;
    forall j | iv.start <= j < iv.entry
      ensures !Buyable(rows[j])
    {
      BuyableIsEligible(rows[j]);
    }
    forall j | iv.entry < j < |rows|
      ensures ExitReason(rows[j], entry).Some? <==> Ends(rows[j], entry)
    {
      ExitReasonIs(rows[j], entry);
    }
    ExitReasonIs(rows[iv.exit], entry);
    FirstExitIsFirst(rows, entry, iv.entry + 1);
    hide ExitReason, Eligible, Ends, Gained, Lost, Late, Buyable, FirstExit, Target, Stop, Return, MaxPrice, MinPrice;
    BuyableIsEligible(rows[iv.entry]);
  }

  /**
    The whole scan in plain cells.  Every trade starts looking just past the previous exit, buys
    the first row that can be bought, and leaves at the first later row that gained, lost or ran
    late, in this order, else at the last row; there are at most `budget` trades, and if fewer, no
    row after the last exit can be bought.
  */
  lemma ScanInCells(rows: seq<Row>, budget: nat, cents: int)
    ensures var ivs := Scan(rows, 0, budget);
            var trades := Trades(rows, 0, budget, cents);
            && |trades| == |ivs| <= budget
            && (forall i :: 0 <= i < |ivs| ==>
                  FollowsCells(rows, ivs[i], trades[i]) && ivs[i].start == (if i == 0 then 0 else ivs[i - 1].exit + 1))
            && (|ivs| < budget ==> forall j :: ScanEnd(ivs, 0) <= j < |rows| ==> !Buyable(rows[j]))
  {
    var ivs := Scan(rows, 0, budget);
    ScanIsGreedy(rows, 0, budget);
    TradesFollowScan(rows, 0, budget, cents);
    hide Scan, Trades, WellPlaced, EntersFirst, LeavesFirst, FollowsCells, ExitRow, TradeAt, Eligible, Buyable;
    forall i | 0 <= i < |ivs|
      ensures FollowsCells(rows, ivs[i], TradeAt(rows, ivs[i], cents))
    {
      TradeFollowsCells(rows, ivs[i], cents);
    }
    if |ivs| < budget {
      forall j | ScanEnd(ivs, 0) <= j < |rows|
        ensures !Buyable(rows[j])
      {
        BuyableIsEligible(rows[j]);
      }
    }
  }

  /** The largest and the smallest price from the entry on are attained and bound all others. */
  lemma {:induction false} PricesReached(rows: seq<Row>) returns (high: nat, low: nat)
    requires rows != [] && rows[0].price.Some?
    ensures MaxPrice(rows).Some? && MinPrice(rows).Some?
    ensures high < |rows| && rows[high].price == MaxPrice(rows)
    ensures low < |rows| && rows[low].price == MinPrice(rows)
    ensures forall i :: 0 <= i < |rows| && rows[i].price.Some? ==>
              MinPrice(rows).value <= rows[i].price.value <= MaxPrice(rows).value
  {
    high, low := 0, 0;
    assert MaxPrice(rows).Some? && MinPrice(rows).Some?;
    high := HighAt(rows);
    low := LowAt(rows);
    forall i | 0 <= i < |rows| && rows[i].price.Some?
      ensures MinPrice(rows).value <= rows[i].price.value <= MaxPrice(rows).value
    {
      PriceInRange(rows, i);
    }
  }

  lemma {:induction false} HighAt(rows: seq<Row>) returns (i: nat)
    requires MaxPrice(rows).Some?
    ensures i < |rows| && rows[i].price == MaxPrice(rows)
  {
    if rows[0].price == MaxPrice(rows) {
      i := 0;
    } else {
      var k := HighAt(rows[1..]);
      i := k + 1;
    }
  }

  lemma {:induction false} LowAt(rows: seq<Row>) returns (i: nat)
    requires MinPrice(rows).Some?
    ensures i < |rows| && rows[i].price == MinPrice(rows)
  {
    if rows[0].price == MinPrice(rows) {
      i := 0;
    } else {
      var k := LowAt(rows[1..]);
      i := k + 1;
    }
  }

  /** The price bought and the price sold at, after slippage. */
  function Bought(entry: real, cents: int): real {
    var raised := if cents > 0 then entry + cents as real / 100.0 else entry;
    if raised < 0.999999 then raised else 0.999999
  }

  function Sold(exit: real, cents: int): real {
    var lowered := if cents > 0 then exit - cents as real / 100.0 else exit;
    if lowered > 0.0 then lowered else 0.0
  }

  lemma FillsAre(entry: real, exit: real, cents: int)
    ensures EntryFill(entry, cents) == Bought(entry, cents) && ExitFill(exit, cents) == Sold(exit, cents)
  {
  }

  lemma ExitPricesAre(entry: real)
    requires 0.003 <= entry <= 0.05
    ensures Target(entry) == if entry * 1.5 >= entry + 0.003 then entry * 1.5 else entry + 0.003
    ensures Stop(entry) == if entry - 0.02 >= 0.001 then entry - 0.02 else 0.001
  {
  }

  /** The extremes of a trade's excursions are prices of rows from its entry to the end of the data. */
  lemma ExcursionsReached(rows: seq<Row>, iv: Interval, cents: int) returns (high: nat, low: nat)
    requires WellPlaced(rows, iv) && iv.exit == ExitRow(rows, iv.entry)
    ensures iv.entry <= high < |rows| && iv.entry <= low < |rows|
    ensures rows[high].price.Some? && rows[low].price.Some?
    ensures var trade := TradeAt(rows, iv, cents);
            && trade.favorable == rows[high].price.value - trade.entryPrice
            && trade.adverse == trade.entryPrice - rows[low].price.value
    ensures forall i :: iv.entry <= i < |rows| && rows[i].price.Some? ==>
              rows[low].price.value <= rows[i].price.value <= rows[high].price.value
  {
    var segment := rows[iv.entry..];
    var h, l := PricesReached(segment);
    high, low := iv.entry + h, iv.entry + l;
    hide MaxPrice, MinPrice, ReasonAt, ExitRow, Return;
    forall i | iv.entry <= i < |rows| && rows[i].price.Some?
      ensures rows[low].price.value <= rows[i].price.value <= rows[high].price.value
    {
      assert segment[i - iv.entry] == rows[i];
    }
  }

  /**
    The figures of a trade, from its prices: target and stop; the gross return on the entry price;
    and the net return on the fills, the entry raised and the exit lowered by the slippage.
  */
  lemma TradeFigures(rows: seq<Row>, iv: Interval, cents: int)
    requires WellPlaced(rows, iv) && iv.exit == ExitRow(rows, iv.entry) && rows[iv.exit].price.Some?
    ensures var trade := TradeAt(rows, iv, cents);
            var e, x := rows[iv.entry].price.value, rows[iv.exit].price.value;
            && trade.target == (if e * 1.5 >= e + 0.003 then e * 1.5 else e + 0.003)
            && trade.stop == (if e - 0.02 >= 0.001 then e - 0.02 else 0.001)
            && trade.gross.Some? && GainsOn(trade.gross.value, e, x)
            && trade.net.Some? && GainsOn(trade.net.value, Bought(e, cents), Sold(x, cents))
  {
    var e, x := rows[iv.entry].price.value, rows[iv.exit].price.value;
    RecordIs(rows, iv, cents);
    hide *;
    ExitPricesAre(e);
    FillsAre(e, x, cents);
    ReturnGains(x, e);
    ReturnGains(Sold(x, cents), Bought(e, cents));
  }

  /** `rate` times what was paid is what was received less what was paid. */
  predicate GainsOn(rate: real, paid: real, received: real) { rate * paid == received - paid }

  lemma ReturnGains(exit: real, entry: real)
    requires entry > 0.0
    ensures GainsOn(Return(exit, entry), entry, exit)
  {
    ReturnTimes(exit, entry);
  }

  lemma RecordIs(rows: seq<Row>, iv: Interval, cents: int)
    requires WellPlaced(rows, iv) && iv.exit == ExitRow(rows, iv.entry) && rows[iv.exit].price.Some?
    ensures var trade := TradeAt(rows, iv, cents);
            var e, x := rows[iv.entry].price.value, rows[iv.exit].price.value;
            && 0.003 <= e <= 0.05 && Bought(e, cents) > 0.0
            && trade.target == Target(e) && trade.stop == Stop(e)
            && trade.gross == Some(Return(x, e))
            && trade.net == Some(Return(ExitFill(x, cents), EntryFill(e, cents)))
  {
    hide MaxPrice, MinPrice, ReasonAt, ExitRow, Return, Target, Stop, EntryFill, ExitFill, RecordedIndex;
  }

  /** A record's indexes: the row's own, or its place in the window when that is missing or zero. */
  lemma IndexesAre(rows: seq<Row>, iv: Interval, cents: int)
    requires WellPlaced(rows, iv) && iv.exit == ExitRow(rows, iv.entry)
    ensures var trade := TradeAt(rows, iv, cents);
            var atEntry, atExit := rows[iv.entry].stateIndex, rows[iv.exit].stateIndex;
            && trade.entryStateIndex
               == (if atEntry == None || atEntry == Some(0) then iv.entry - iv.start else atEntry.value)
            && trade.exitStateIndex
               == (if atExit == None || atExit == Some(0) then iv.exit - iv.start else atExit.value)
  {
    hide MaxPrice, MinPrice, ReasonAt, ExitRow, Return, Target, Stop, EntryFill, ExitFill;
  }
}
