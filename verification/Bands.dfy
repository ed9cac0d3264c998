/** First touches of a low price band and the rebounds after them, for one team's rows in time order. */
module Bands {
  import opened Wrappers

  /** A row with a price; rows without one are dropped before grouping. */
  datatype Row = Row(price: real, time: Option<int>)

  datatype BandRow = BandRow(
    threshold: real, firstPrice: real, futureMax: real, futureMin: real, gain: real, target: real,
    rebounded: bool, seconds: Option<int>)

  const GAINS: seq<real> := [0.005, 0.01, 0.02, 0.05, 0.10]

  const THRESHOLDS: seq<real> := [
    0.005, 0.01, 0.015, 0.02, 0.03, 0.04, 0.05, 0.075, 0.10, 0.125, 0.15, 0.175, 0.19, 0.20, 0.225, 0.25, 0.30, 0.35]

  function MinPrice(rows: seq<Row>): real
    requires rows != []
  {
    if |rows| == 1 then rows[0].price else MinReal(rows[0].price, MinPrice(rows[1..]))
  }

  function MaxPrice(rows: seq<Row>): real
    requires rows != []
  {
    if |rows| == 1 then rows[0].price else MaxReal(rows[0].price, MaxPrice(rows[1..]))
  }

  /** A favourite whose price never fell near the bands is skipped. */
  predicate NeverLow(rows: seq<Row>, opening: Option<real>)
    requires rows != []
  {
    opening.Some? && opening.value > 0.45 && MinPrice(rows) > 0.35
  }

  /** First row at or below the threshold, or the row count. */
  function FirstTouch(rows: seq<Row>, threshold: real, from: nat): (i: nat)
    requires from <= |rows|
    ensures from <= i <= |rows|
    ensures i < |rows| ==> rows[i].price <= threshold
    ensures forall j :: from <= j < i ==> rows[j].price > threshold
    decreases |rows| - from
  {
    if from == |rows| || rows[from].price <= threshold then from else FirstTouch(rows, threshold, from + 1)
  }

  /** First row at or above the target, or the row count. */
  function FirstHit(rows: seq<Row>, target: real, from: nat): (i: nat)
    requires from <= |rows|
    ensures from <= i <= |rows|
    ensures i < |rows| ==> rows[i].price >= target
    ensures forall j :: from <= j < i ==> rows[j].price < target
    decreases |rows| - from
  {
    if from == |rows| || rows[from].price >= target then from else FirstHit(rows, target, from + 1)
  }

  /** A zero counts as missing and is replaced. */
  function NonzeroOr(x: real, default: real): real { if x != 0.0 then x else default }

  function ReboundTarget(firstPrice: real, gain: real): real { MinReal(0.99, firstPrice + gain) }

  function SecondsToHit(rows: seq<Row>, first: nat, target: real): Option<int>
    requires first < |rows|
  {
    var hit := FirstHit(rows, target, first);
    if hit == |rows| || rows[first].time.None? || rows[hit].time.None? then None
    else Some(Max(0, rows[hit].time.value - rows[first].time.value))
  }

  function RowFor(rows: seq<Row>, threshold: real, first: nat, gain: real): BandRow
    requires first < |rows|
  {
    var firstPrice := NonzeroOr(rows[first].price, threshold);
    var futureMax := NonzeroOr(MaxPrice(rows[first..]), firstPrice);
    var target := ReboundTarget(firstPrice, gain);
    BandRow(threshold, firstPrice, futureMax, NonzeroOr(MinPrice(rows[first..]), firstPrice), gain, target,
            futureMax >= target, SecondsToHit(rows, first, target))
  }

  function RowsFor(rows: seq<Row>, threshold: real, first: nat, gains: seq<real>): (r: seq<BandRow>)
    requires first < |rows|
    ensures |r| == |gains|
    ensures forall i :: 0 <= i < |gains| ==> r[i] == RowFor(rows, threshold, first, gains[i])
  {
    seq(|gains|, i requires 0 <= i < |gains| => RowFor(rows, threshold, first, gains[i]))
  }

  function Band(rows: seq<Row>, opening: Option<real>, threshold: real): seq<BandRow>
    requires rows != []
  {
    var first := FirstTouch(rows, threshold, 0);
    if NeverLow(rows, opening) || first == |rows| then [] else RowsFor(rows, threshold, first, GAINS)
  }

  method BandRowsForGroup(rows: seq<Row>, opening: Option<real>, threshold: real) returns (result: seq<BandRow>)
    requires rows != []
    ensures result == Band(rows, opening, threshold)
  {
    if opening.Some? && opening.value > 0.45 && MinPrice(rows) > 0.35 {
      return [];
    }
    var first := FirstTouch(rows, threshold, 0);
    if first == |rows| {
      return [];
    }
    result := GainRows(rows, threshold, first, GAINS);
  }

  /** One row per rebound gain, after the first touch. */
  method GainRows(rows: seq<Row>, threshold: real, first: nat, gains: seq<real>) returns (result: seq<BandRow>)
    requires first < |rows|
    ensures result == RowsFor(rows, threshold, first, gains)
  {
    var future := rows[first..];
    var firstPrice := NonzeroOr(rows[first].price, threshold);
    var futureMax := NonzeroOr(MaxPrice(future), firstPrice);
    var futureMin := NonzeroOr(MinPrice(future), firstPrice);
    hide MaxPrice, MinPrice, FirstHit;
    result := [];
    for i := 0 to |gains|
      invariant |result| == i && forall k :: 0 <= k < i ==> result[k] == RowFor(rows, threshold, first, gains[k])
    {
      var target := MinReal(0.99, firstPrice + gains[i]);
      var seconds: Option<int> := None;
      var hit := FirstHit(rows, target, first);
      if hit < |rows| {
        if rows[first].time.Some? && rows[hit].time.Some? {
          seconds := Some(Max(0, rows[hit].time.value - rows[first].time.value));
        }
      }
      var row := BandRow(threshold, firstPrice, futureMax, futureMin, gains[i], target, futureMax >= target, seconds);
      assert row == RowFor(rows, threshold, first, gains[i]);
      result := result + [row];
    }
  }

  function BandsUpTo(rows: seq<Row>, opening: Option<real>, thresholds: seq<real>, n: nat): seq<BandRow>
    requires rows != [] && n <= |thresholds|
  {
    if n == 0 then [] else BandsUpTo(rows, opening, thresholds, n - 1) + Band(rows, opening, thresholds[n - 1])
  }

  /** All thresholds of one team's group. */
  method AnalyzeGroup(rows: seq<Row>, opening: Option<real>, thresholds: seq<real>) returns (result: seq<BandRow>)
    requires rows != []
    ensures result == BandsUpTo(rows, opening, thresholds, |thresholds|)
  {
    result := [];
    for i := 0 to |thresholds|
      invariant result == BandsUpTo(rows, opening, thresholds, i)
    {
      var band := BandRowsForGroup(rows, opening, thresholds[i]);
      result := result + band;
    }
  }

  // ----- consistency -----

  lemma {:induction false} MinPriceIsLeast(rows: seq<Row>, i: nat)
    requires i < |rows|
    ensures MinPrice(rows) <= rows[i].price
  {
    if i > 0 {
      MinPriceIsLeast(rows[1..], i - 1);
    }
  }

  lemma {:induction false} MaxPriceIsReached(rows: seq<Row>) returns (i: nat)
    requires rows != []
    ensures i < |rows| && rows[i].price == MaxPrice(rows)
    ensures forall j :: 0 <= j < |rows| ==> rows[j].price <= MaxPrice(rows)
  {
    if |rows| == 1 {
      i := 0;
    } else {
      var k := MaxPriceIsReached(rows[1..]);
      i := if rows[0].price < MaxPrice(rows[1..]) then k + 1 else 0;
      forall j | 0 <= j < |rows|
        ensures rows[j].price <= MaxPrice(rows)
      {
        if j > 0 { assert rows[j] == rows[1..][j - 1]; }
      }
    }
  }

  /**
    A band is reported exactly when some row touches it, for every threshold the early exit
    cannot hide; above 0.35 the early exit drops exactly the touches of a favourite whose prices
    all stay above 0.35.
  */
  lemma BandReportedIffTouched(rows: seq<Row>, opening: Option<real>, threshold: real)
    requires rows != []
    ensures threshold <= 0.35 ==>
              (Band(rows, opening, threshold) != [] <==> exists i :: 0 <= i < |rows| && rows[i].price <= threshold)
    ensures Band(rows, opening, threshold) != []
            <==> (exists i :: 0 <= i < |rows| && rows[i].price <= threshold) && !NeverLow(rows, opening)
  {
    var first := FirstTouch(rows, threshold, 0);
    hide MinPrice, FirstTouch, RowFor;
    if first < |rows| {
      assert rows[first].price <= threshold;
      MinPriceIsLeast(rows, first);
    }
  }

  /** Every threshold the analysis uses is one the early exit cannot hide. */
  lemma DefaultThresholdsNeverHidden(rows: seq<Row>, opening: Option<real>, k: nat)
    requires rows != [] && k < |THRESHOLDS|
    ensures Band(rows, opening, THRESHOLDS[k]) != [] <==> exists i :: 0 <= i < |rows| && rows[i].price <= THRESHOLDS[k]
  {
    hide Band;
    BandReportedIffTouched(rows, opening, THRESHOLDS[k]);
  }

  /** A higher threshold never touches later. */
  lemma HigherThresholdTouchesNoLater(rows: seq<Row>, low: real, high: real)
    requires low <= high
    ensures FirstTouch(rows, high, 0) <= FirstTouch(rows, low, 0)
  {
    hide FirstTouch;
  }

  /**
    The flag read off the future maximum agrees with the scan for a hit row unless the maximum is
    zero, counts as missing, and its replacement reaches a target that zero does not reach, or the
    reverse.  Non-negative prices with a threshold and a gain as in the panels always agree.
  */
  lemma ReboundedIffHit(rows: seq<Row>, threshold: real, first: nat, gain: real)
    requires first < |rows|
    ensures var row := RowFor(rows, threshold, first, gain);
            (row.rebounded <==> FirstHit(rows, row.target, first) < |rows|)
            <==> MaxPrice(rows[first..]) != 0.0 || (row.firstPrice >= row.target <==> 0.0 >= row.target)
    ensures gain > 0.0 && 0.0 < threshold < 0.99 && (forall i :: 0 <= i < |rows| ==> rows[i].price >= 0.0) ==>
              MaxPrice(rows[first..]) != 0.0
              || var row := RowFor(rows, threshold, first, gain); (row.firstPrice >= row.target <==> 0.0 >= row.target)
  {
    hide MaxPrice, MinPrice, FirstHit;
    var row := RowFor(rows, threshold, first, gain);
    var future := rows[first..];
    var at := MaxPriceIsReached(future);
    assert rows[first + at].price == MaxPrice(future);
    var hit := FirstHit(rows, row.target, first);
    if hit < |rows| {
      assert rows[hit] == future[hit - first];
    }
    assert future[0] == rows[first];
  }

  lemma LowerTargetHitsNoLater(rows: seq<Row>, low: real, high: real, first: nat)
    requires first <= |rows| && low <= high
    ensures FirstHit(rows, low, first) <= FirstHit(rows, high, first)
  {
    hide FirstHit;
  }

  /** Rows in time order, rows without a time last. */
  ghost predicate InTimeOrder(rows: seq<Row>) {
    forall i, j :: 0 <= i <= j < |rows| && rows[j].time.Some? ==>
      rows[i].time.Some? && rows[i].time.value <= rows[j].time.value
  }

  /** Rebounding by more implies rebounding by less, and no sooner. */
  lemma LargerGainReboundsNoSooner(rows: seq<Row>, threshold: real, first: nat, less: real, more: real)
    requires first < |rows| && less <= more && InTimeOrder(rows)
    ensures var small, large := RowFor(rows, threshold, first, less), RowFor(rows, threshold, first, more);
            && (large.rebounded ==> small.rebounded)
            && (large.seconds.Some? ==> small.seconds.Some? && small.seconds.value <= large.seconds.value)
  {
    hide MaxPrice, MinPrice, FirstHit;
    var small, large := RowFor(rows, threshold, first, less), RowFor(rows, threshold, first, more);
    LowerTargetHitsNoLater(rows, small.target, large.target, first);
  }

  // ----- the same in plain cells -----

  /** The gains looked for after a touch. */
  lemma GainsAre()
    ensures GAINS == [0.005, 0.01, 0.02, 0.05, 0.10]
  {
  }

  /** A group is skipped when it opened above 0.45 and every price stayed above 0.35. */
  lemma NeverLowIff(rows: seq<Row>, opening: Option<real>)
    requires rows != []
    ensures NeverLow(rows, opening)
       <==> opening.Some? && opening.value > 0.45 && forall i :: 0 <= i < |rows| ==> rows[i].price > 0.35
  {
    var low := MinPriceIsReached(rows);
    forall i | 0 <= i < |rows|
      ensures MinPrice(rows) <= rows[i].price
    {
      MinPriceIsLeast(rows, i);
    }
    hide MinPrice;
  }

  lemma {:induction false} MinPriceIsReached(rows: seq<Row>) returns (i: nat)
    requires rows != []
    ensures i < |rows| && rows[i].price == MinPrice(rows)
  {
    if |rows| == 1 || rows[0].price == MinPrice(rows) {
      i := 0;
    } else {
      var k := MinPriceIsReached(rows[1..]);
      i := k + 1;
    }
  }

  /**
    One band row, from the prices: the first touch, the target the gain above it but at most
    0.99, the highest and lowest price from the touch on, and the time to the first row at the
    target.  A price of zero counts as missing, and the threshold or the first touch stands in.
  */
  lemma BandRowIs(rows: seq<Row>, threshold: real, first: nat, gain: real) returns (high: nat, low: nat)
    requires first < |rows|
    ensures first <= high < |rows| && first <= low < |rows|
    ensures forall i :: first <= i < |rows| ==> rows[low].price <= rows[i].price <= rows[high].price
    ensures var row := RowFor(rows, threshold, first, gain);
            var touch := if rows[first].price == 0.0 then threshold else rows[first].price;
            && row.threshold == threshold && row.gain == gain && row.firstPrice == touch
            && row.target == (if touch + gain < 0.99 then touch + gain else 0.99)
            && row.futureMax == (if rows[high].price == 0.0 then touch else rows[high].price)
            && row.futureMin == (if rows[low].price == 0.0 then touch else rows[low].price)
            && (row.rebounded <==> row.futureMax >= row.target)
  {
    var future := rows[first..];
    var h := MaxPriceIsReached(future);
    var l := MinPriceIsReached(future);
    high, low := first + h, first + l;
    forall i | first <= i < |rows|
      ensures rows[low].price <= rows[i].price <= rows[high].price
    {
      MinPriceIsLeast(future, i - first);
      assert future[i - first] == rows[i];
    }
    hide MaxPrice, MinPrice;
  }

  /** The seconds to the rebound run from the touch to the first row at the target, when both times are known. */
  lemma SecondsAre(rows: seq<Row>, first: nat, target: real, hit: nat)
    requires first <= hit < |rows| && rows[hit].price >= target
    requires forall i :: first <= i < hit ==> rows[i].price < target
    ensures var seconds := SecondsToHit(rows, first, target);
            if rows[first].time.None? || rows[hit].time.None? then seconds == None
            else
              var d := rows[hit].time.value - rows[first].time.value;
              seconds == Some(if d > 0 then d else 0)
  {
    assert FirstHit(rows, target, first) == hit;
    hide FirstHit;
  }
}
