/**
  Target-price arithmetic of the live tick: tick-size rounding, the protective sell-price
  normalizer and the scaled micro-grid target.  Prices are exact reals.
*/
module Prices {
  import opened Wrappers

  /** The slack the source subtracts before every ceiling. */
  const SLACK: real := 0.000000000001

  const CAP: real := 0.95
  const CENT: real := 0.01

  function Pow10(d: nat): (r: int)
    ensures r > 0
  {
    if d == 0 then 1 else 10 * Pow10(d - 1)
  }

  function Ceil(x: real): (k: int)
    ensures k as real - 1.0 < x <= k as real
  {
    -((-x).Floor)
  }

  /** Nearest integer, ties to even. */
  function RoundHalfEven(x: real): (n: int)
    ensures n as real - 0.5 <= x <= n as real + 0.5
  {
    var f := x.Floor;
    var part := x - f as real;
    if part < 0.5 then f
    else if part > 0.5 then f + 1
    else if f % 2 == 0 then f
    else f + 1
  }

  function Product(x: real, y: real): real { x * y }

  function Quotient(x: real, y: real): real
    requires y > 0.0
  {
    x / y
  }

  /** Rounds to the nearest multiple of `1 / scale`. */
  function RoundAt(x: real, scale: int): real
    requires scale > 0
  {
    Quotient(RoundHalfEven(Product(x, scale as real)) as real, scale as real)
  }

  function RoundTo(x: real, digits: nat): real {
    RoundAt(x, Pow10(digits))
  }

  /** How many of the last `width` decimal digits of `n` remain once trailing zeros are dropped. */
  function FractionDigits(n: int, width: nat): (d: nat)
    ensures d <= width
    decreases width
  {
    if width == 0 then 0
    else if n % 10 != 0 then width
    else FractionDigits(n / 10, width - 1)
  }

  /** The rounding precision read off a tick printed with eight decimals, capped at six. */
  function TickDecimals(tick: real): (d: nat)
    ensures d <= 6
  {
    var d := FractionDigits(RoundHalfEven(tick * 100000000.0), 8);
    if d <= 6 then d else 6
  }

  /** A tick size with at most six decimals. */
  predicate MicroTick(tick: real) {
    tick > 0.0 && (tick * 1000000.0).Floor as real == tick * 1000000.0
  }

  function Clamp(price: real, floor: Option<real>): real {
    MinReal(CAP, MaxReal(floor.GetOr(CENT), price))
  }

  function TickMultiple(k: int, tick: real): real {
    k as real * tick
  }

  function TickCeiling(price: real, tick: real): real
    requires tick > 0.0
  {
    RoundTo(TickMultiple(Ceil(Quotient(price - SLACK, tick)), tick), TickDecimals(tick))
  }

  function CentCeiling(price: real): real {
    RoundTo(Ceil((price - SLACK) * 100.0) as real / 100.0, 2)
  }

  /** The protective sell-price normalizer. */
  function Normalize(price: real, tick: Option<real>, floor: Option<real>): real {
    var bounded := Clamp(price, floor);
    if tick.Some? && tick.value > 0.0 then TickCeiling(bounded, tick.value)
    else if bounded < 0.10 then CentCeiling(bounded)
    else RoundTo(bounded, 4)
  }

  // ----- rounding -----

  lemma RoundHalfEvenMonotone(x: real, y: real)
    requires x <= y
    ensures RoundHalfEven(x) <= RoundHalfEven(y)
  {
    assert x.Floor <= y.Floor;
  }

  lemma RoundHalfEvenWhole(n: int)
    ensures RoundHalfEven(n as real) == n
  {
  }

  lemma ProductMonotone(x: real, y: real, c: real)
    requires x <= y && c > 0.0
    ensures Product(x, c) <= Product(y, c)
  {
    assert (y - x) * c >= 0.0;
  }

  lemma QuotientUnique(v: real, x: real, c: real)
    requires c > 0.0
    ensures Product(v, c) == x <==> v == Quotient(x, c)
  {
  }

  lemma QuotientMonotone(x: real, y: real, c: real)
    requires x <= y && c > 0.0
    ensures Quotient(x, c) <= Quotient(y, c)
  {
    hide Quotient;
    var u, v := Quotient(x, c), Quotient(y, c);
    QuotientUnique(u, x, c);
    QuotientUnique(v, y, c);
    if u > v {
      assert (u - v) * c > 0.0;
    }
  }

  lemma RoundAtMonotone(x: real, y: real, scale: int)
    requires x <= y && scale > 0
    ensures RoundAt(x, scale) <= RoundAt(y, scale)
  {
    hide RoundHalfEven, Product, Quotient;
    var c := scale as real;
    ProductMonotone(x, y, c);
    RoundHalfEvenMonotone(Product(x, c), Product(y, c));
    QuotientMonotone(RoundHalfEven(Product(x, c)) as real, RoundHalfEven(Product(y, c)) as real, c);
  }

  /** Rounding leaves a value that is already a multiple of `1 / scale` alone. */
  lemma RoundAtGrid(x: real, scale: int, n: int)
    requires scale > 0 && Product(x, scale as real) == n as real
    ensures RoundAt(x, scale) == x
  {
    hide RoundHalfEven, Product, Quotient;
    RoundHalfEvenWhole(n);
    QuotientUnique(x, n as real, scale as real);
  }

  // ----- ticks -----

  lemma {:induction false} FractionDigitsDivides(n: int, width: nat)
    ensures n % Pow10(width - FractionDigits(n, width)) == 0
    decreases width
  {
    if width > 0 && n % 10 == 0 {
      var d := FractionDigits(n / 10, width - 1);
      FractionDigitsDivides(n / 10, width - 1);
      TenfoldDivides(n, Pow10(width - 1 - d));
    }
  }

  lemma TenfoldDivides(n: int, p: int)
    requires p > 0 && n % 10 == 0 && (n / 10) % p == 0
    ensures n % (10 * p) == 0
  {
    var q := n / 10 / p;
    assert n / 10 == q * p;
    assert n == q * (10 * p);
    MultipleHasNoRemainder(q, 10 * p);
  }

  lemma ProductAtLeast(q: int, p: int)
    requires q >= 1 && p > 0
    ensures q * p >= p
  {
  }

  lemma MultipleHasNoRemainder(q: int, p: int)
    requires p > 0
    ensures (q * p) % p == 0
  {
    var r := (q * p) % p;
    var d := (q * p) / p;
    assert q * p == d * p + r;
    assert (q - d) * p == r && (d - q) * p == -r;
    if q - d >= 1 {
      ProductAtLeast(q - d, p);
    } else if q - d <= -1 {
      ProductAtLeast(d - q, p);
    }
  }

  lemma Pow10Split(d: nat)
    requires d <= 6
    ensures Pow10(6 - d) * Pow10(d) == 1000000
  {
    assert Pow10(0) == 1 && Pow10(1) == 10 && Pow10(2) == 100 && Pow10(3) == 1000;
    assert Pow10(4) == 10000 && Pow10(5) == 100000 && Pow10(6) == 1000000;
  }

  lemma ScaleDown(tick: real, u: int, m: int, p: int, c: int)
    requires p > 0 && c > 0
    requires tick * 1000000.0 == u as real && u == m * p && p * c == 1000000
    ensures Product(tick, c as real) == m as real
  {
    assert u as real == m as real * p as real;
    assert p as real * c as real == 1000000.0;
    assert (tick * c as real) * p as real == tick * (p as real * c as real);
    assert (tick * c as real - m as real) * p as real == 0.0;
  }

  lemma MicroTickPrinted(tick: real, u: int)
    requires tick * 1000000.0 == u as real
    ensures TickDecimals(tick) == FractionDigits(u, 6)
  {
    hide RoundHalfEven;
    assert tick * 100000000.0 == (100 * u) as real;
    RoundHalfEvenWhole(100 * u);
    assert FractionDigits(100 * u, 8) == FractionDigits(10 * u, 7) by {
      assert (100 * u) / 10 == 10 * u && (100 * u) % 10 == 0;
    }
    assert FractionDigits(10 * u, 7) == FractionDigits(u, 6) by {
      assert (10 * u) / 10 == u && (10 * u) % 10 == 0;
    }
  }

  /** With at most six decimals, the precision read off the tick is enough to write it exactly. */
  lemma MicroTickDecimals(tick: real) returns (m: int)
    requires MicroTick(tick)
    ensures Product(tick, Pow10(TickDecimals(tick)) as real) == m as real
  {
    hide TickDecimals, RoundHalfEven, Product;
    var u := (tick * 1000000.0).Floor;
    MicroTickPrinted(tick, u);
    var d := FractionDigits(u, 6);
    FractionDigitsDivides(u, 6);
    var p := Pow10(6 - d);
    m := u / p;
    Pow10Split(d);
    ScaleDown(tick, u, m, p, Pow10(d));
  }

  lemma QuotientOrder(x: real, tick: real, k: int)
    requires tick > 0.0
    ensures Quotient(x, tick) <= k as real <==> x <= TickMultiple(k, tick)
  {
    hide Quotient;
    var u, v := Quotient(x, tick), k as real;
    QuotientUnique(u, x, tick);
    if u <= v {
      assert (v - u) * tick >= 0.0;
    } else {
      assert (u - v) * tick > 0.0;
    }
  }

  /** `k` ticks is the ceiling of `x` exactly when `x` lies in the tick below it. */
  lemma CeilOnGrid(x: real, tick: real, k: int)
    requires tick > 0.0
    ensures Ceil(Quotient(x, tick)) == k <==> TickMultiple(k - 1, tick) < x <= TickMultiple(k, tick)
  {
    hide Quotient, TickMultiple;
    QuotientOrder(x, tick, k);
    QuotientOrder(x, tick, k - 1);
  }

  lemma ProductRegroups(k: int, tick: real, c: int, m: int)
    requires Product(tick, c as real) == m as real
    ensures Product(TickMultiple(k, tick), c as real) == (k * m) as real
  {
    assert (k as real * tick) * c as real == k as real * (tick * c as real);
  }

  /** For a tick of at most six decimals the final rounding changes nothing. */
  lemma TickMultipleIsExact(k: int, tick: real)
    requires MicroTick(tick)
    ensures RoundTo(TickMultiple(k, tick), TickDecimals(tick)) == TickMultiple(k, tick)
  {
    hide RoundAt, TickDecimals, Pow10, MicroTick, Product, TickMultiple;
    var m := MicroTickDecimals(tick);
    var d := TickDecimals(tick);
    ProductRegroups(k, tick, Pow10(d), m);
    RoundAtGrid(TickMultiple(k, tick), Pow10(d), k * m);
  }

  predicate InTickBelow(price: real, tick: real, k: int) {
    TickMultiple(k - 1, tick) < price - SLACK <= TickMultiple(k, tick)
  }

  /** A tick ceiling is the first tick multiple not below the price less the slack. */
  lemma TickCeilingSpec(price: real, tick: real) returns (k: int)
    requires MicroTick(tick)
    ensures TickCeiling(price, tick) == TickMultiple(k, tick)
    ensures InTickBelow(price, tick, k)
  {
    hide RoundTo, TickDecimals, Ceil, Quotient, TickMultiple;
    k := Ceil(Quotient(price - SLACK, tick));
    CeilOnGrid(price - SLACK, tick, k);
    TickMultipleIsExact(k, tick);
  }

  lemma TickStep(k: int, tick: real)
    ensures TickMultiple(k - 1, tick) == TickMultiple(k, tick) - tick
  {
  }

  lemma CeilQuotientMonotone(x: real, y: real, tick: real)
    requires x <= y && tick > 0.0
    ensures TickMultiple(Ceil(Quotient(x, tick)), tick) <= TickMultiple(Ceil(Quotient(y, tick)), tick)
  {
    QuotientMonotone(x, y, tick);
    TickOrder(Ceil(Quotient(x, tick)), Ceil(Quotient(y, tick)), tick);
  }

  lemma TickOrder(j: int, k: int, tick: real)
    requires j <= k && tick > 0.0
    ensures TickMultiple(j, tick) <= TickMultiple(k, tick)
  {
    assert (k - j) as real * tick >= 0.0;
  }

  // ----- the two branches without a tick -----

  lemma CentCeilingSpec(price: real) returns (j: int)
    ensures CentCeiling(price) == j as real / 100.0
    ensures (j - 1) as real / 100.0 < price - SLACK <= j as real / 100.0
  {
    hide RoundAt, RoundHalfEven;
    j := Ceil((price - SLACK) * 100.0);
    assert Pow10(0) == 1 && Pow10(1) == 10 && Pow10(2) == 100;
    RoundAtGrid(j as real / 100.0, 100, j);
  }

  lemma CentCeilingIs(price: real, j: int)
    requires (j - 1) as real / 100.0 < price - SLACK <= j as real / 100.0
    ensures CentCeiling(price) == j as real / 100.0
  {
    hide CentCeiling;
    var i := CentCeilingSpec(price);
    assert i == j;
  }

  lemma FourDecimals(price: real) returns (n: int)
    ensures RoundTo(price, 4) == n as real / 10000.0
    ensures n as real - 0.5 <= price * 10000.0 <= n as real + 0.5
  {
    assert Pow10(0) == 1 && Pow10(1) == 10 && Pow10(2) == 100 && Pow10(3) == 1000 && Pow10(4) == 10000;
    n := RoundHalfEven(price * 10000.0);
  }

  lemma FourDecimalsFixed(n: int)
    ensures RoundTo(n as real / 10000.0, 4) == n as real / 10000.0
  {
    hide RoundAt, RoundHalfEven;
    assert Pow10(0) == 1 && Pow10(1) == 10 && Pow10(2) == 100 && Pow10(3) == 1000 && Pow10(4) == 10000;
    RoundAtGrid(n as real / 10000.0, 10000, n);
  }

  lemma FourDecimalsMonotone(x: real, y: real)
    requires x <= y
    ensures RoundTo(x, 4) <= RoundTo(y, 4)
  {
    hide RoundAt, Pow10;
    RoundAtMonotone(x, y, Pow10(4));
  }

  // ----- the normalizer -----

  /** A usable tick is absent, ignored because it is not positive, or has at most six decimals. */
  predicate TickUsable(tick: Option<real>) {
    tick.Some? && tick.value > 0.0 ==> MicroTick(tick.value)
  }

  /** The tick count a price is raised to. */
  function TicksAbove(price: real, tick: real): int
    requires tick > 0.0
  {
    Ceil(Quotient(price - SLACK, tick))
  }

  /** The tick multiple a price is raised to, before the final rounding. */
  function RaisedTo(price: real, tick: real): (up: real)
    requires tick > 0.0
    ensures up - tick < price - SLACK <= up
  {
    var k := TicksAbove(price, tick);
    RaisedBounds(price, tick);
    TickMultiple(k, tick)
  }

  lemma RaisedBounds(price: real, tick: real)
    requires tick > 0.0
    ensures var up := TickMultiple(TicksAbove(price, tick), tick); up - tick < price - SLACK <= up
  {
    hide Ceil, Quotient, TickMultiple;
    CeilOnGrid(price - SLACK, tick, TicksAbove(price, tick));
    TickStep(TicksAbove(price, tick), tick);
  }

  /**
    When a second normalization leaves the first one's result alone: the tick multiple is not
    rounded up past the slack, or it already reaches the cap, or the next multiple rounds to the
    same price.
  */
  predicate SettlesAtOnce(clamped: real, tick: real)
    requires tick > 0.0
  {
    var up := RaisedTo(clamped, tick);
    var digits := TickDecimals(tick);
    || RoundTo(up, digits) <= up + SLACK
    || CAP <= up + SLACK
    || RoundTo(up + tick, digits) == RoundTo(up, digits)
  }

  lemma ScaleBounds(digits: nat)
    requires digits <= 6
    ensures 1 <= Pow10(digits) <= 1000000
  {
    assert Pow10(0) == 1 && Pow10(1) == 10 && Pow10(2) == 100 && Pow10(3) == 1000;
    assert Pow10(4) == 10000 && Pow10(5) == 100000 && Pow10(6) == 1000000;
  }

  /** Whatever is not below a rounded value less the slack rounds to at least that value. */
  lemma RoundsNoLower(x: real, y: real, scale: int)
    requires 1 <= scale <= 1000000
    requires y >= RoundAt(x, scale) - SLACK
    ensures RoundAt(y, scale) >= RoundAt(x, scale)
  {
    hide RoundHalfEven, Quotient;
    var s := scale as real;
    var n := RoundHalfEven(Product(x, s));
    var r := RoundAt(x, scale);
    QuotientUnique(r, n as real, s);
    assert (y - r + SLACK) * s >= 0.0;
    assert y * s >= r * s - SLACK * s;
    var m := RoundHalfEven(Product(y, s));
    assert m >= n;
    QuotientMonotone(n as real, m as real, s);
  }

  /** Whatever is less than half a unit above a rounded value rounds to at most that value. */
  lemma RoundsNoHigher(x: real, y: real, scale: int)
    requires scale >= 1
    requires Product(y - RoundAt(x, scale), scale as real) < 0.5
    ensures RoundAt(y, scale) <= RoundAt(x, scale)
  {
    hide RoundHalfEven, Quotient;
    var s := scale as real;
    var n := RoundHalfEven(Product(x, s));
    var r := RoundAt(x, scale);
    QuotientUnique(r, n as real, s);
    assert (y - r) * s == y * s - r * s;
    var m := RoundHalfEven(Product(y, s));
    assert m <= n;
    QuotientMonotone(m as real, n as real, s);
  }

  /** Rounding moves a value by at most half a unit. */
  lemma RoundingError(x: real, scale: int)
    requires scale >= 1
    ensures -0.5 <= Product(x - RoundAt(x, scale), scale as real) <= 0.5
  {
    hide RoundHalfEven, Quotient;
    var s := scale as real;
    var n := RoundHalfEven(Product(x, s));
    var r := RoundAt(x, scale);
    QuotientUnique(r, n as real, s);
    assert (x - r) * s == x * s - r * s;
  }

  lemma TickCeilingRounds(price: real, tick: real)
    requires tick > 0.0
    ensures TickCeiling(price, tick) == RoundAt(RaisedTo(price, tick), Pow10(TickDecimals(tick)))
    ensures 1 <= Pow10(TickDecimals(tick)) <= 1000000
  {
    hide RoundAt, Ceil, Quotient, TickMultiple, TickDecimals, Pow10;
    ScaleBounds(TickDecimals(tick));
  }

  /** Raising a lower price reaches no higher tick multiple; what a multiple covers is raised no further. */
  lemma RaisedOrder(x: real, y: real, tick: real)
    requires tick > 0.0
    ensures x <= y ==> RaisedTo(x, tick) <= RaisedTo(y, tick)
    ensures x - SLACK <= RaisedTo(y, tick) ==> RaisedTo(x, tick) <= RaisedTo(y, tick)
    ensures RaisedTo(y, tick) < x - SLACK ==> RaisedTo(y, tick) + tick <= RaisedTo(x, tick)
    ensures x - SLACK <= RaisedTo(y, tick) + tick ==> RaisedTo(x, tick) <= RaisedTo(y, tick) + tick
  {
    hide Ceil, Quotient, TickMultiple;
    var j, k := TicksAbove(x, tick), TicksAbove(y, tick);
    TickStep(k + 1, tick);
    if j <= k { TickOrder(j, k, tick); } else { TickOrder(k + 1, j, tick); }
    if j <= k + 1 { TickOrder(j, k + 1, tick); } else { TickOrder(k + 1, j - 1, tick); TickStep(j, tick); }
    if j < k { TickOrder(j, k - 1, tick); TickStep(k, tick); }
  }

  /** Normalizing again never lowers a price, for any tick and floor. */
  lemma TickBranchNeverFalls(price: real, tick: real, floor: Option<real>)
    requires tick > 0.0
    ensures var r := TickCeiling(Clamp(price, floor), tick); TickCeiling(Clamp(r, floor), tick) >= r
  {
    hide TickCeiling, RaisedTo, TickDecimals, Pow10, RoundAt;
    var b := Clamp(price, floor);
    var r := TickCeiling(b, tick);
    var c := Clamp(r, floor);
    TickCeilingRounds(b, tick);
    TickCeilingRounds(c, tick);
    if c >= r {
      RoundsNoLower(RaisedTo(b, tick), RaisedTo(c, tick), Pow10(TickDecimals(tick)));
    } else {
      TickCeilingMonotone(b, c, tick);
    }
  }

  /** Where the second normalization starts: within the first multiple's reach, or above it at the result or the cap. */
  lemma SecondStart(price: real, tick: real, floor: Option<real>)
    requires tick > 0.0
    ensures var b := Clamp(price, floor);
            var r := TickCeiling(b, tick);
            var c := Clamp(r, floor);
            var up := RaisedTo(b, tick);
            if r <= up + SLACK || CAP <= up + SLACK then c <= up + SLACK else up + SLACK < c <= r
  {
    hide TickCeiling, RaisedTo;
  }

  /** A next multiple within reach of the rounded price, or rounding to it, keeps the second result there. */
  lemma NextRoundsAlike(c: real, up: real, next: real, tick: real, scale: int)
    requires 1 <= scale <= 1000000 && tick > 0.0
    requires c <= RoundAt(up, scale) && next < c - SLACK + tick
    requires c - SLACK <= up + tick ==> next <= up + tick
    requires RoundAt(up + tick, scale) == RoundAt(up, scale)
    ensures RoundAt(next, scale) <= RoundAt(up, scale)
  {
    hide RoundAt;
    var s := scale as real;
    var r := RoundAt(up, scale);
    RoundingError(up, scale);
    if Product(tick, s) <= 0.5 {
      assert (r - SLACK + tick - next) * s > 0.0;
      assert (next - r) * s < tick * s - SLACK * s;
      RoundsNoHigher(up, next, scale);
    } else {
      assert (up - r) * s + tick * s > 0.0;
      assert up + tick > r by {
        if up + tick <= r { ProductMonotone(up + tick - r, 0.0, s); }
      }
      RoundAtMonotone(next, up + tick, scale);
    }
  }

  /** The exact condition, for every positive tick, of however many decimals. */
  lemma TickBranchSettles(price: real, tick: real, floor: Option<real>)
    requires tick > 0.0
    ensures var r := TickCeiling(Clamp(price, floor), tick);
            TickCeiling(Clamp(r, floor), tick) == r <==> SettlesAtOnce(Clamp(price, floor), tick)
  {
    hide TickCeiling, RaisedTo, TickDecimals, Pow10, RoundAt, Clamp;
    var b := Clamp(price, floor);
    var r := TickCeiling(b, tick);
    var c := Clamp(r, floor);
    var up, next := RaisedTo(b, tick), RaisedTo(c, tick);
    var scale := Pow10(TickDecimals(tick));
    TickCeilingRounds(b, tick);
    TickCeilingRounds(c, tick);
    TickBranchNeverFalls(price, tick, floor);
    SecondStart(price, tick, floor);
    RaisedOrder(c, b, tick);
    if r <= up + SLACK || CAP <= up + SLACK {
      RoundAtMonotone(next, up, scale);
    } else if RoundAt(up + tick, scale) == r {
      NextRoundsAlike(c, up, next, tick, scale);
    } else {
      RoundAtMonotone(up, up + tick, scale);
      RoundAtMonotone(up + tick, next, scale);
    }
  }

  /**
    The third case sorted by size: a tick of at most half a unit of the rounding always settles,
    and for a tick above the unit only the first two cases can.
  */
  lemma SettlingByTickSize(clamped: real, tick: real)
    requires tick > 0.0
    ensures var s := Pow10(TickDecimals(tick)) as real;
            var up := RaisedTo(clamped, tick);
            && (Product(tick, s) <= 0.5 ==> SettlesAtOnce(clamped, tick))
            && (Product(tick, s) > 1.0 ==>
                  (SettlesAtOnce(clamped, tick) <==> TickCeiling(clamped, tick) <= up + SLACK || CAP <= up + SLACK))
  {
    hide TickCeiling, RaisedTo, TickDecimals, Pow10, RoundAt;
    TickCeilingRounds(clamped, tick);
    var scale := Pow10(TickDecimals(tick));
    var s := scale as real;
    var up := RaisedTo(clamped, tick);
    var r := RoundAt(up, scale);
    RoundingError(up, scale);
    RoundingError(up + tick, scale);
    RoundAtMonotone(up, up + tick, scale);
    assert (up + tick - r) * s == (up - r) * s + tick * s;
    if r > up + SLACK && Product(tick, s) <= 0.5 {
      assert (r - up) * s > 0.0;
      RoundsNoHigher(up, up + tick, scale);
    }
  }

  /** A tick of at most six decimals always settles. */
  lemma MicroTickSettles(clamped: real, tick: real)
    requires MicroTick(tick)
    ensures SettlesAtOnce(clamped, tick)
  {
    hide RoundTo, TickDecimals, Ceil, Quotient, TickMultiple;
    TickMultipleIsExact(TicksAbove(clamped, tick), tick);
  }

  lemma CentBranchIdempotent(price: real, floor: Option<real>)
    requires Clamp(price, floor) < 0.10
    ensures var r := CentCeiling(Clamp(price, floor)); Normalize(r, None, floor) == r
  {
    hide CentCeiling, RoundTo;
    var b := Clamp(price, floor);
    var j := CentCeilingSpec(b);
    var r := j as real / 100.0;
    if j >= 10 {
      assert Clamp(r, floor) == 0.10;
      FourDecimalsFixed(1000);
      assert 1000 as real / 10000.0 == 0.10 == r;
    } else {
      CentCeilingIs(Clamp(r, floor), j);
    }
  }

  lemma FourDecimalBranchIdempotent(price: real, floor: Option<real>)
    requires Clamp(price, floor) >= 0.10
    ensures var r := RoundTo(Clamp(price, floor), 4); Normalize(r, None, floor) == r
  {
    hide CentCeiling, RoundTo;
    var b := Clamp(price, floor);
    var n := FourDecimals(b);
    var r := n as real / 10000.0;
    assert 0.10 <= r <= CAP;
    var again := Clamp(r, floor);
    FourDecimalsFixed(n);
    FourDecimalsMonotone(r, again);
    if again > r { FourDecimalsMonotone(again, b); }
  }

  /** The only prices a second normalization moves are those of ticks that do not settle at once. */
  predicate Settles(price: real, tick: Option<real>, floor: Option<real>) {
    tick.Some? && tick.value > 0.0 ==> SettlesAtOnce(Clamp(price, floor), tick.value)
  }

  /**
    Normalizing a normalized price never lowers it, and changes nothing if and only if its tick
    settles at once: always without a tick, across the 0.10 boundary, and for every tick of at
    most six decimals.
  */
  lemma NormalizeIdempotent(price: real, tick: Option<real>, floor: Option<real>)
    ensures var r := Normalize(price, tick, floor);
            && Normalize(r, tick, floor) >= r
            && (Normalize(r, tick, floor) == r <==> Settles(price, tick, floor))
    ensures TickUsable(tick) ==> Settles(price, tick, floor)
  {
    hide Clamp, TickCeiling, CentCeiling, RoundTo, MicroTick, SettlesAtOnce;
    if tick.Some? && tick.value > 0.0 {
      TickBranchSettles(price, tick.value, floor);
      TickBranchNeverFalls(price, tick.value, floor);
      if MicroTick(tick.value) { MicroTickSettles(Clamp(price, floor), tick.value); }
    } else if Clamp(price, floor) < 0.10 {
      CentBranchIdempotent(price, floor);
    } else {
      FourDecimalBranchIdempotent(price, floor);
    }
  }

  /** With a seven-decimal tick the six-decimal rounding can step over a tick, and the price climbs again. */
  lemma SevenDecimalTickNotIdempotent()
    ensures Normalize(0.012, Some(0.0123457), None) == 0.012346
    ensures Normalize(0.012346, Some(0.0123457), None) == 0.024691
  {
    hide RoundTo, Quotient, TickMultiple;
    var tick := 0.0123457;
    assert TickDecimals(tick) == 6;
    assert Pow10(0) == 1 && Pow10(1) == 10 && Pow10(2) == 100 && Pow10(3) == 1000
        && Pow10(4) == 10000 && Pow10(5) == 100000 && Pow10(6) == 1000000;
    TickMultipleValue(0, tick, 0.0);
    TickMultipleValue(1, tick, 0.0123457);
    TickMultipleValue(2, tick, 0.0246914);
    CeilOnGrid(0.012 - SLACK, tick, 1);
    CeilOnGrid(0.012346 - SLACK, tick, 2);
    SixDecimals(0.0123457, 12346);
    SixDecimals(0.0246914, 24691);
  }

  lemma TickMultipleValue(k: int, tick: real, v: real)
    requires k as real * tick == v
    ensures TickMultiple(k, tick) == v
  {
  }

  lemma SixDecimals(x: real, n: int)
    requires n as real - 0.5 < x * 1000000.0 < n as real + 0.5
    ensures RoundTo(x, 6) == n as real / 1000000.0
  {
    var m := RoundHalfEven(x * 1000000.0);
    hide RoundHalfEven;
    assert m == n;
    assert Pow10(0) == 1 && Pow10(1) == 10 && Pow10(2) == 100 && Pow10(3) == 1000
        && Pow10(4) == 10000 && Pow10(5) == 100000 && Pow10(6) == 1000000;
  }

  lemma ClampMonotone(p: real, q: real, floor: Option<real>)
    requires p <= q
    ensures Clamp(p, floor) <= Clamp(q, floor)
  {
  }

  lemma TickCeilingMonotone(x: real, y: real, tick: real)
    requires x <= y && tick > 0.0
    ensures TickCeiling(x, tick) <= TickCeiling(y, tick)
  {
    hide RoundAt, Ceil, Quotient, TickMultiple, TickDecimals, Pow10;
    CeilQuotientMonotone(x - SLACK, y - SLACK, tick);
    RoundAtMonotone(TickMultiple(Ceil(Quotient(x - SLACK, tick)), tick),
                    TickMultiple(Ceil(Quotient(y - SLACK, tick)), tick), Pow10(TickDecimals(tick)));
  }

  lemma CentCeilingMonotone(x: real, y: real)
    requires x <= y
    ensures CentCeiling(x) <= CentCeiling(y)
  {
    hide CentCeiling;
    var i := CentCeilingSpec(x);
    var j := CentCeilingSpec(y);
    hide *;
    assert (i - 1) as real / 100.0 < j as real / 100.0;
    assert i <= j;
  }

  /** The cent ceiling below 0.10 and the four-decimal rounding above it meet at 0.10. */
  lemma TenCentsSeparates(x: real, y: real)
    requires x < 0.10 <= y
    ensures CentCeiling(x) <= 0.10 <= RoundTo(y, 4)
  {
    hide CentCeiling, RoundTo;
    var j := CentCeilingSpec(x);
    var n := FourDecimals(y);
    assert j <= 10;
    assert n >= 1000;
  }

  lemma NoTickMonotone(x: real, y: real)
    requires x <= y
    ensures (if x < 0.10 then CentCeiling(x) else RoundTo(x, 4)) <= (if y < 0.10 then CentCeiling(y) else RoundTo(y, 4))
  {
    hide CentCeiling, RoundTo;
    if x >= 0.10 {
      FourDecimalsMonotone(x, y);
    } else if y >= 0.10 {
      TenCentsSeparates(x, y);
    } else {
      CentCeilingMonotone(x, y);
    }
  }

  /** A dearer ask never normalizes to a cheaper one, for any tick and floor. */
  lemma NormalizeMonotone(p: real, q: real, tick: Option<real>, floor: Option<real>)
    requires p <= q
    ensures Normalize(p, tick, floor) <= Normalize(q, tick, floor)
  {
    hide Clamp, TickCeiling, CentCeiling, RoundTo;
    ClampMonotone(p, q, floor);
    if tick.Some? && tick.value > 0.0 {
      TickCeilingMonotone(Clamp(p, floor), Clamp(q, floor), tick.value);
    } else {
      NoTickMonotone(Clamp(p, floor), Clamp(q, floor));
    }
  }

  /** A price with no more decimals than the tick is printed with. */
  predicate OnGrid(price: real, scale: int) {
    Product(price, scale as real).Floor as real == Product(price, scale as real)
  }

  predicate MicroPrice(price: real) { OnGrid(price, 1000000) }

  predicate RaisesToTick(tick: Option<real>) { tick.Some? && tick.value > 0.0 }

  /** Half of the last decimal a tick is rounded to. */
  function HalfUnit(tick: real): real {
    Quotient(0.5, Pow10(TickDecimals(tick)) as real)
  }

  /** A price that exceeds a multiple of the step by no more than the slack. */
  predicate WithinSlackAbove(price: real, k: int, step: real) {
    TickMultiple(k, step) < price <= TickMultiple(k, step) + SLACK
  }

  ghost predicate SlackHides(price: real, step: real) {
    exists k :: WithinSlackAbove(price, k, step)
  }

  /**
    The tick multiple a price is raised to rounds below the price: it lies below the midpoint
    under the first rounded value not below the price, or on it when ties go down.
  */
  predicate MultipleRoundsBelow(price: real, tick: real)
    requires tick > 0.0
  {
    var scale := Pow10(TickDecimals(tick)) as real;
    var first := Ceil(Product(price, scale));
    var scaled := Product(RaisedTo(price, tick), scale);
    scaled < first as real - 0.5 || (scaled == first as real - 0.5 && first % 2 == 1)
  }

  /** For every positive tick: exactly when the tick ceiling falls below the price. */
  lemma TickCeilingLowersIff(price: real, tick: real)
    requires tick > 0.0
    ensures TickCeiling(price, tick) < price <==> MultipleRoundsBelow(price, tick)
    ensures OnGrid(price, Pow10(TickDecimals(tick))) ==> price <= TickCeiling(price, tick)
    ensures -HalfUnit(tick) <= TickCeiling(price, tick) - RaisedTo(price, tick) <= HalfUnit(tick)
  {
    hide RaisedTo, TickDecimals, Pow10, TickCeiling, Quotient, Ceil, RoundHalfEven;
    TickCeilingRounds(price, tick);
    var s := Pow10(TickDecimals(tick)) as real;
    var x := Product(RaisedTo(price, tick), s);
    LowersIff(price, RaisedTo(price, tick), Pow10(TickDecimals(tick)));
    RoundingUnit(RaisedTo(price, tick), Pow10(TickDecimals(tick)));
    RoundsUnder(x, Ceil(Product(price, s)));
  }

  lemma RoundsUnder(x: real, n: int)
    ensures RoundHalfEven(x) < n <==> x < n as real - 0.5 || (x == n as real - 0.5 && n % 2 == 1)
  {
  }

  lemma LowersIff(price: real, up: real, scale: int)
    requires 1 <= scale <= 1000000 && price - SLACK <= up
    ensures RoundAt(up, scale) < price
       <==> RoundHalfEven(Product(up, scale as real)) < Ceil(Product(price, scale as real))
    ensures OnGrid(price, scale) ==> price <= RoundAt(up, scale)
  {
    var s := scale as real;
    var x, y := Product(up, s), Product(price, s);
    var r := RoundAt(up, scale);
    ProductMonotone(price, up + SLACK, s);
    SlackScaled(up, s);
    QuotientUnique(r, RoundHalfEven(x) as real, s);
    hide RoundHalfEven, Quotient, Ceil, Product;
    assert OnGrid(price, scale) ==> y.Floor as real == y;
    hide *;
    if r < price { ProductStrict(r, price, s); } else { ProductMonotone(price, r, s); }
    RoundingOrder(x, y);
  }

  lemma RoundingOrder(x: real, y: real)
    ensures RoundHalfEven(x) as real < y <==> RoundHalfEven(x) < Ceil(y)
    ensures y.Floor as real == y <= x + 0.000001 ==> y <= RoundHalfEven(x) as real
  {
    hide RoundHalfEven, Ceil;
    BelowCeiling(RoundHalfEven(x), y, Ceil(y));
    if y.Floor as real == y <= x + 0.000001 { WholeBelow(y.Floor, RoundHalfEven(x)); }
  }

  lemma BelowCeiling(n: int, y: real, c: int)
    requires c as real - 1.0 < y <= c as real
    ensures n as real < y <==> n < c
  {
    if n < c { assert n as real <= (c - 1) as real; } else { assert n as real >= c as real; }
  }

  lemma WholeBelow(m: int, n: int)
    requires m as real <= n as real + 0.6
    ensures m <= n
  {
  }

  lemma ProductStrict(x: real, y: real, c: real)
    requires x < y && c > 0.0
    ensures Product(x, c) < Product(y, c)
  {
    assert (y - x) * c > 0.0;
  }

  lemma SlackScaled(x: real, s: real)
    requires s <= 1000000.0
    ensures Product(x + SLACK, s) <= Product(x, s) + 0.000001
  {
  }

  lemma RoundingUnit(x: real, scale: int)
    requires scale >= 1
    ensures var half := Quotient(0.5, scale as real); -half <= RoundAt(x, scale) - x <= half
  {
    hide RoundAt, Quotient;
    RoundingError(x, scale);
    QuotientMagnitude(x - RoundAt(x, scale), scale as real);
  }

  lemma QuotientMagnitude(error: real, s: real)
    requires s > 0.0 && -0.5 <= Product(error, s) <= 0.5
    ensures -Quotient(0.5, s) <= error <= Quotient(0.5, s)
  {
    hide Quotient;
    var half := Quotient(0.5, s);
    QuotientUnique(half, 0.5, s);
    QuotientUnique(error, Product(error, s), s);
    QuotientMonotone(Product(error, s), 0.5, s);
    assert Product(-half, s) == -0.5;
    QuotientUnique(-half, -0.5, s);
    QuotientMonotone(-0.5, Product(error, s), s);
  }

  /** For a step whose multiples are kept exactly, only the slack lowers a price. */
  lemma SlackLowers(price: real, k: int, step: real)
    requires step > SLACK && InTickBelow(price, step, k)
    ensures TickMultiple(k, step) < price <==> SlackHides(price, step)
  {
    hide TickMultiple;
    if TickMultiple(k, step) < price {
      assert WithinSlackAbove(price, k, step);
    }
    forall j | WithinSlackAbove(price, j, step)
      ensures j == k
    {
      TickStep(k, step);
      if j < k { TickOrder(j, k - 1, step); }
      if j > k { TickOrder(k + 1, j, step); TickStep(k + 1, step); }
    }
  }

  /**
    The ceiling branches raise the clamped price by less than one step and lower it by at most
    the slack, each give or take half of the last decimal rounded to; a tick of at most six
    decimals and the cent are kept exactly.  A clamped price with no more decimals than its tick
    is never lowered, nor one of at most six under such a tick.  The third branch stays within
    half of the fourth decimal.
  */
  lemma CeilingNeverLowers(price: real, tick: Option<real>, floor: Option<real>)
    ensures var b := Clamp(price, floor);
            var r := Normalize(price, tick, floor);
            if RaisesToTick(tick) then
              && b - SLACK - HalfUnit(tick.value) <= r < b - SLACK + tick.value + HalfUnit(tick.value)
              && (OnGrid(b, Pow10(TickDecimals(tick.value))) ==> b <= r)
              && (MicroTick(tick.value) ==> b - SLACK <= r < b - SLACK + tick.value && (MicroPrice(b) ==> b <= r))
            else if b < 0.10 then
              b - SLACK <= r < b - SLACK + CENT && (MicroPrice(b) ==> b <= r)
            else b - 0.00005 <= r <= b + 0.00005
  {
    hide TickCeiling, CentCeiling, RoundTo, Clamp, RaisedTo, HalfUnit, OnGrid, MicroTick, TickMultiple, TickDecimals;
    var b := Clamp(price, floor);
    if RaisesToTick(tick) {
      TickCeilingLowersIff(b, tick.value);
      if MicroTick(tick.value) {
        var k := TickCeilingSpec(b, tick.value);
        TickStep(k, tick.value);
        if MicroPrice(b) { MicroGap(b, k, tick.value); }
      }
    } else if b >= 0.10 {
      var n := FourDecimals(b);
    } else {
      var j := CentCeilingSpec(b);
      if MicroPrice(b) { CentGap(b, j); }
    }
  }

  lemma CentGap(b: real, j: int)
    requires MicroPrice(b) && b - SLACK <= j as real / 100.0
    ensures b <= j as real / 100.0
  {
    assert (b * 1000000.0).Floor <= 10000 * j;
  }

  /**
    Exactly when a ceiling branch lowers the clamped price.  For a tick of at most six decimals
    and for the cent: when the price exceeds a multiple by no more than the slack.  For any other
    tick: when the multiple rounds below the price.
  */
  lemma CeilingLowersIff(price: real, tick: Option<real>, floor: Option<real>)
    requires RaisesToTick(tick) || Clamp(price, floor) < 0.10
    ensures var b := Clamp(price, floor);
            Normalize(price, tick, floor) < b <==>
              if !RaisesToTick(tick) then SlackHides(b, CENT)
              else if MicroTick(tick.value) then SlackHides(b, tick.value)
              else MultipleRoundsBelow(b, tick.value)
  {
    hide TickCeiling, CentCeiling, RoundTo, Clamp, MultipleRoundsBelow, SlackHides, TickMultiple;
    var b := Clamp(price, floor);
    if !RaisesToTick(tick) {
      var j := CentCeilingSpec(b);
      TickMultipleValue(j, CENT, j as real / 100.0);
      TickMultipleValue(j - 1, CENT, (j - 1) as real / 100.0);
      SlackLowers(b, j, CENT);
    } else if MicroTick(tick.value) {
      var k := TickCeilingSpec(b, tick.value);
      SlackLowers(b, k, tick.value);
    } else {
      TickCeilingLowersIff(b, tick.value);
    }
  }

  /** Both ceilings lower a price half a slack above a multiple. */
  lemma SlackLowersPrice()
    ensures Normalize(0.5000000000005, Some(0.01), None) == 0.5
    ensures Normalize(0.0500000000005, None, None) == 0.05
  {
    hide TickCeiling, CentCeiling, TickMultiple;
    assert (0.01 * 1000000.0).Floor as real == 0.01 * 1000000.0;
    TickMultipleValue(50, 0.01, 0.5);
    TickMultipleValue(49, 0.01, 0.49);
    var k := TickCeilingSpec(0.5000000000005, 0.01);
    TickStep(k, 0.01);
    if k < 50 { TickOrder(k, 49, 0.01); }
    if k > 50 { TickOrder(50, k - 1, 0.01); }
    CentCeilingIs(0.0500000000005, 5);
  }

  lemma MicroGap(b: real, k: int, tick: real)
    requires MicroPrice(b) && MicroTick(tick)
    requires b - SLACK <= TickMultiple(k, tick)
    ensures b <= TickMultiple(k, tick)
  {
    hide TickMultiple;
    assert Product(b, 1000000 as real) == b * 1000000.0;
    var u := (tick * 1000000.0).Floor;
    MicroMultiple(k, tick, u);
    var v := (b * 1000000.0).Floor;
    assert v <= k * u;
  }

  lemma MicroMultiple(k: int, tick: real, u: int)
    requires tick * 1000000.0 == u as real
    ensures TickMultiple(k, tick) * 1000000.0 == (k * u) as real
  {
    assert (k as real * tick) * 1000000.0 == k as real * (tick * 1000000.0);
  }

  // ----- exit rules and the target price -----

  /** The price-related exit rules, each alias key already resolved to the first one given. */
  datatype PriceRules = PriceRules(
    policy: string,
    minTargetCents: Option<real>,
    returnFraction: Option<real>,
    returnPercent: Option<real>,
    tick: Option<real>,
    floor: Option<real>,
    explicitTarget: Option<real>,
    basis: string)

  const NO_RULES := PriceRules("", None, None, None, None, None, None, "")

  const SCALED_POLICIES := {"micro_grid_scaled", "scaled_micro_grid", "price_scaled_micro_grid"}

  const QUOTE_BASES := {"current_price", "entry_price", "latest_price", "market_price", "signal_price"}

  function Positive(x: Option<real>): Option<real> {
    if x.Some? && x.value > 0.0 then x else None
  }

  function Fraction(rules: PriceRules): Option<real> {
    if rules.returnFraction.None? && rules.returnPercent.Some? then Some(rules.returnPercent.value / 100.0)
    else rules.returnFraction
  }

  function RequiredMove(basis: real, rules: PriceRules): real {
    MaxReal(rules.minTargetCents.GetOr(0.0) / 100.0, Product(basis, Fraction(rules).GetOr(0.0)))
  }

  predicate AsksForScaledTarget(rules: PriceRules) {
    rules.policy in SCALED_POLICIES || rules.minTargetCents.Some? || Fraction(rules).Some?
  }

  function ScaledTarget(basis: real, rules: PriceRules): Option<real> {
    if basis <= 0.0 || !AsksForScaledTarget(rules) then None
    else
      var move := RequiredMove(basis, rules);
      if move <= 0.0 then None
      else
        var raw := MinReal(CAP, MaxReal(Positive(rules.floor).GetOr(CENT), basis + move));
        var tick := Positive(rules.tick);
        if tick.Some? then Some(TickCeiling(raw, tick.value)) else Some(RoundTo(raw, 4))
  }

  /** What the rules ask for: the basis plus the required move, floored and capped. */
  function RequestedTarget(basis: real, rules: PriceRules): real {
    Clamp(basis + RequiredMove(basis, rules), Positive(rules.floor))
  }

  /**
    The scaled target as finally submitted.  With any tick it lies within two ticks, and two
    roundings, of the requested target, and the second normalization is a no-op if and only if
    the requested target settles at once.  With a tick of at most six decimals it always is, and
    the target is a tick multiple in the tick just above the request.  Without a tick it misses
    the request by no more than half of the fourth decimal and overshoots it by less than a cent
    more than that.
  */
  lemma ScaledTargetBound(basis: real, rules: PriceRules) returns (k: int)
    requires ScaledTarget(basis, rules).Some?
    ensures var scaled := ScaledTarget(basis, rules).value;
            var final := Normalize(scaled, Positive(rules.tick), Positive(rules.floor));
            var requested := RequestedTarget(basis, rules);
            if Positive(rules.tick).Some? then
              var tick := rules.tick.value;
              && requested - SLACK - HalfUnit(tick) <= scaled <= final < requested + 2.0 * (tick + HalfUnit(tick))
              && (final == scaled <==> SettlesAtOnce(requested, tick))
              && (MicroTick(tick) ==>
                    final == scaled == TickMultiple(k, tick) && requested - SLACK <= final < requested - SLACK + tick)
            else
              requested - 0.00005 <= final < requested + 0.01005
  {
    hide TickCeiling, RoundTo, CentCeiling, TickMultiple, RequiredMove, MicroTick, HalfUnit, SettlesAtOnce;
    var b := RequestedTarget(basis, rules);
    var floor := Positive(rules.floor);
    k := 0;
    if Positive(rules.tick).Some? {
      var tick := rules.tick.value;
      TickBranchSettles(basis + RequiredMove(basis, rules), tick, floor);
      TickBranchNeverFalls(basis + RequiredMove(basis, rules), tick, floor);
      SecondWithin(basis + RequiredMove(basis, rules), tick, floor);
      if MicroTick(tick) {
        MicroTickSettles(b, tick);
        k := TickCeilingSpec(b, tick);
        TickStep(k, tick);
      }
    } else {
      NoTickBound(basis + RequiredMove(basis, rules), floor);
    }
  }

  lemma SecondWithin(price: real, tick: real, floor: Option<real>)
    requires tick > 0.0
    ensures var b := Clamp(price, floor);
            var r := TickCeiling(b, tick);
            && b - SLACK - HalfUnit(tick) <= r
            && TickCeiling(Clamp(r, floor), tick) < b + 2.0 * (tick + HalfUnit(tick))
  {
    hide TickCeiling, HalfUnit, RaisedTo;
    var b := Clamp(price, floor);
    TickCeilingLowersIff(b, tick);
    TickCeilingLowersIff(Clamp(TickCeiling(b, tick), floor), tick);
  }

  lemma NoTickBound(price: real, floor: Option<real>)
    ensures var b := Clamp(price, floor);
            b - 0.00005 <= Normalize(RoundTo(b, 4), None, floor) < b + 0.01005
  {
    hide RoundTo, CentCeiling;
    var b := Clamp(price, floor);
    var n := FourDecimals(b);
    var r := n as real / 10000.0;
    var again := Clamp(r, floor);
    if again < 0.10 {
      var j := CentCeilingSpec(again);
      assert (n as real / 10000.0) - SLACK <= j as real / 100.0 ==> n <= 100 * j;
    } else {
      FourDecimalsFixed(n);
      FourDecimalsMonotone(r, again);
      var m := FourDecimals(again);
    }
  }

  // ----- the same in plain fields -----

  /** A floor that is given, or a cent. */
  function LowestPrice(floor: Option<real>): real { if floor.Some? then floor.value else 0.01 }

  /** `w` is the largest of the price and the floor, but at most 0.95. */
  predicate Bounded(price: real, floor: Option<real>, w: real) {
    && w <= 0.95 && (w == 0.95 || (w >= price && w >= LowestPrice(floor)))
    && (w == 0.95 || w == price || w == LowestPrice(floor))
    && (w == 0.95 ==> price >= 0.95 || LowestPrice(floor) >= 0.95)
  }

  lemma ClampIs(price: real, floor: Option<real>)
    ensures Bounded(price, floor, Clamp(price, floor))
  {
  }

  /**
    What the normalizer returns, read off its arguments.  With `w` the price, not below the floor
    and not above 0.95: for a positive tick of at most six decimals, the first tick multiple not
    below `w` less 1e-12; for another tick, within half of the last decimal of it; without a tick,
    the first whole cent not below `w` less 1e-12 when `w` is below 0.10, else `w` to the nearest
    hundredth of a cent.
  */
  lemma NormalizeIs(price: real, tick: Option<real>, floor: Option<real>) returns (w: real, k: int)
    ensures Bounded(price, floor, w)
    ensures var r := Normalize(price, tick, floor);
            if tick.Some? && tick.value > 0.0 then
              && k as real * tick.value - tick.value < w - 0.000000000001 <= k as real * tick.value
              && r - HalfUnit(tick.value) <= k as real * tick.value <= r + HalfUnit(tick.value)
              && (MicroTick(tick.value) ==> r == k as real * tick.value)
            else if w < 0.10 then
              r == k as real / 100.0 && (k - 1) as real / 100.0 < w - 0.000000000001 <= k as real / 100.0
            else
              r == k as real / 10000.0 && k as real - 0.5 <= w * 10000.0 <= k as real + 0.5
  {
    hide TickCeiling, CentCeiling, RoundTo, Clamp, HalfUnit, MicroTick;
    w := Clamp(price, floor);
    ClampIs(price, floor);
    if tick.Some? && tick.value > 0.0 {
      k := TickCeilingNear(w, tick.value);
    } else if w < 0.10 {
      k := CentCeilingSpec(w);
    } else {
      k := FourDecimals(w);
    }
  }

  lemma TickCeilingNear(price: real, tick: real) returns (k: int)
    requires tick > 0.0
    ensures k as real * tick - tick < price - 0.000000000001 <= k as real * tick
    ensures var r := TickCeiling(price, tick);
            && r - HalfUnit(tick) <= k as real * tick <= r + HalfUnit(tick)
            && (MicroTick(tick) ==> r == k as real * tick)
  {
    k := TicksAbove(price, tick);
    var up := RaisedTo(price, tick);
    assert up == TickMultiple(k, tick) == k as real * tick;
    TickCeilingLowersIff(price, tick);
    hide *;
    if MicroTick(tick) { MicroTickRaises(price, tick); }
  }

  lemma MicroTickRaises(price: real, tick: real)
    requires MicroTick(tick)
    ensures TickCeiling(price, tick) == RaisedTo(price, tick)
  {
    hide RoundTo, TickDecimals, Ceil, Quotient, TickMultiple;
    TickMultipleIsExact(TicksAbove(price, tick), tick);
  }

  /** The cents a rule asks for, none when it names none. */
  function AskedCents(rules: PriceRules): real {
    if rules.minTargetCents.Some? then rules.minTargetCents.value else 0.0
  }

  /** The return a rule asks for: the fraction, else the percentage, else none. */
  function AskedReturn(rules: PriceRules): real {
    if rules.returnFraction.Some? then rules.returnFraction.value
    else if rules.returnPercent.Some? then rules.returnPercent.value / 100.0
    else 0.0
  }

  function LowestTarget(rules: PriceRules): real {
    if rules.floor.Some? && rules.floor.value > 0.0 then rules.floor.value else 0.01
  }

  /**
    `w` is the largest of the basis plus the asked cents, the basis plus the asked return, and the
    floor or a cent, but at most 0.95.
  */
  predicate Requests(basis: real, rules: PriceRules, w: real) {
    var byCents, byReturn := basis + AskedCents(rules) / 100.0, basis + Product(basis, AskedReturn(rules));
    var low := LowestTarget(rules);
    && w <= 0.95
    && (w == 0.95 || (w >= byCents && w >= byReturn && w >= low))
    && (w == byCents || w == byReturn || w == low
        || (w == 0.95 && (byCents >= 0.95 || byReturn >= 0.95 || low >= 0.95)))
  }

  lemma RequestedIs(basis: real, rules: PriceRules)
    ensures Requests(basis, rules, RequestedTarget(basis, rules))
  {
    hide Product;
    assert Fraction(rules).GetOr(0.0) == AskedReturn(rules);
  }

  /** There is a scaled target exactly when the basis is positive and the asked cents or the asked return move it up. */
  lemma ScaledTargetIff(basis: real, rules: PriceRules)
    ensures ScaledTarget(basis, rules).Some?
       <==> basis > 0.0 && (AskedCents(rules) > 0.0 || AskedReturn(rules) > 0.0)
  {
    hide TickCeiling, RoundTo;
    if basis > 0.0 {
      var f := AskedReturn(rules);
      assert Product(basis, Fraction(rules).GetOr(0.0)) == Product(basis, f);
      if f > 0.0 { ProductPositive(basis, f); }
      else { ProductMonotone(f, 0.0, basis); ProductCommutes(basis, f); }
    }
  }

  lemma ProductPositive(x: real, y: real)
    requires x > 0.0 && y > 0.0
    ensures Product(x, y) > 0.0
  {
  }

  lemma ProductCommutes(x: real, y: real)
    ensures Product(x, y) == Product(y, x)
  {
  }
}
