/** The risk ladder's one-pass drawdown over events in time order.  Amounts are integer micro-dollars. */
module Drawdown {
  import opened Wrappers
  import opened Ordering

  datatype Event = Event(firstTs: int, slug: string, netWithOpenValue: Option<int>, netCashflow: int)

  /** The net of an event: with open value when that is given, else the cash flow. */
  function Net(e: Event): int { if e.netWithOpenValue.Some? then e.netWithOpenValue.value else e.netCashflow }

  datatype Marker = Marker(slug: string, net: int)

  datatype Trough = Trough(event: Marker, cumulative: int, peak: int)

  datatype Summary = Summary(
    count: nat, wins: nat, losses: nat, total: int, maxDrawdown: int, worst: Option<Marker>, trough: Option<Trough>)

  function TimeKey(e: Event): Key { [Whole(e.firstTs)] + Text(e.slug) }

  function InTime(rows: seq<Event>): seq<Event> { SortBy(rows, TimeKey) }

  function MarkerOf(e: Event): Marker { Marker(e.slug, Net(e)) }

  // ----- definition -----

  /** Cumulative net after the first `n` events. */
  function Cumulative(es: seq<Event>, n: nat): int
    requires n <= |es|
  {
    if n == 0 then 0 else Cumulative(es, n - 1) + Net(es[n - 1])
  }

  /** Highest cumulative net so far, starting from zero. */
  function Peak(es: seq<Event>, n: nat): int
    requires n <= |es|
  {
    if n == 0 then 0 else Max(Peak(es, n - 1), Cumulative(es, n))
  }

  function Drop(es: seq<Event>, n: nat): int
    requires n <= |es|
  {
    Peak(es, n) - Cumulative(es, n)
  }

  function MaxDrop(es: seq<Event>, n: nat): int
    requires n <= |es|
  {
    if n == 0 then 0 else Max(MaxDrop(es, n - 1), Drop(es, n))
  }

  /** How many events had passed when the maximum drop was first reached. */
  function TroughAt(es: seq<Event>, n: nat): (t: Option<nat>)
    requires n <= |es|
    ensures t.Some? ==> 1 <= t.value <= n
  {
    if n == 0 then None
    else if Drop(es, n) > MaxDrop(es, n - 1) then Some(n)
    else TroughAt(es, n - 1)
  }

  function TroughOf(es: seq<Event>, n: nat): Option<Trough>
    requires n <= |es|
  {
    var t := TroughAt(es, n);
    if t.None? then None
    else Some(Trough(MarkerOf(es[t.value - 1]), Cumulative(es, t.value), Peak(es, t.value)))
  }

  function WorstAt(es: seq<Event>, n: nat): (w: nat)
    requires 0 < n <= |es|
    ensures w < n
  {
    if n == 1 then 0
    else
      var w := WorstAt(es, n - 1);
      if Net(es[n - 1]) < Net(es[w]) then n - 1 else w
  }

  function CountWhere(es: seq<Event>, n: nat, test: int -> bool): nat
    requires n <= |es|
  {
    if n == 0 then 0 else CountWhere(es, n - 1, test) + (if test(Net(es[n - 1])) then 1 else 0)
  }

  const WON: int -> bool := net => net > 0
  const LOST: int -> bool := net => net < 0

  function Summarize(es: seq<Event>, n: nat): Summary
    requires n <= |es|
  {
    Summary(n, CountWhere(es, n, WON), CountWhere(es, n, LOST), Cumulative(es, n), MaxDrop(es, n),
            if n == 0 then None else Some(MarkerOf(es[WorstAt(es, n)])), TroughOf(es, n))
  }

  method DrawdownSummary(rows: seq<Event>) returns (s: Summary)
    ensures s == Summarize(InTime(rows), |rows|)
  {
    var ordered := SortBy(rows, TimeKey);
    var cumulative, peak, maxDrawdown, total := 0, 0, 0, 0;
    var worst: Option<Marker> := None;
    var trough: Option<Trough> := None;
    var wins, losses: nat := 0, 0;
    for i := 0 to |ordered|
      invariant cumulative == total == Cumulative(ordered, i)
      invariant peak == Peak(ordered, i) && maxDrawdown == MaxDrop(ordered, i)
      invariant wins == CountWhere(ordered, i, WON) && losses == CountWhere(ordered, i, LOST)
      invariant worst == if i == 0 then None else Some(MarkerOf(ordered[WorstAt(ordered, i)]))
      invariant trough == TroughOf(ordered, i)
    {
      var row := ordered[i];
      var net := if row.netWithOpenValue.Some? then row.netWithOpenValue.value else row.netCashflow;
      total := total + net;
      if net < 0 {
        losses := losses + 1;
      } else if net > 0 {
        wins := wins + 1;
      }
      if worst.None? || net < worst.value.net {
        worst := Some(Marker(row.slug, net));
      }
      cumulative := cumulative + net;
      if cumulative > peak {
        peak := cumulative;
      }
      var drop := peak - cumulative;
      if drop > maxDrawdown {
        maxDrawdown := drop;
        trough := Some(Trough(Marker(row.slug, net), cumulative, peak));
      }
    }
    s := Summary(|ordered|, wins, losses, total, maxDrawdown, worst, trough);
  }

  // ----- what the drawdown is -----

  lemma {:induction false} PeakIsMaximum(es: seq<Event>, n: nat) returns (at: nat)
    requires n <= |es|
    ensures at <= n && Peak(es, n) == Cumulative(es, at)
    ensures forall i :: 0 <= i <= n ==> Cumulative(es, i) <= Peak(es, n)
  {
    if n == 0 {
      at := 0;
    } else {
      at := PeakIsMaximum(es, n - 1);
      if Peak(es, n - 1) < Cumulative(es, n) { at := n; }
    }
  }

  lemma {:induction false} MaxDropIsMaximum(es: seq<Event>, n: nat) returns (at: nat)
    requires n <= |es|
    ensures at <= n && MaxDrop(es, n) == Drop(es, at)
    ensures forall j :: 0 <= j <= n ==> Drop(es, j) <= MaxDrop(es, n)
  {
    if n == 0 {
      at := 0;
    } else {
      at := MaxDropIsMaximum(es, n - 1);
      if MaxDrop(es, n - 1) < Drop(es, n) { at := n; }
    }
  }

  /** The one-pass result is the largest fall from any cumulative net, zero included, to a later one. */
  lemma DrawdownIsLargestFall(es: seq<Event>) returns (from: nat, to: nat)
    ensures from <= to <= |es| && MaxDrop(es, |es|) == Cumulative(es, from) - Cumulative(es, to)
    ensures forall i, j :: 0 <= i <= j <= |es| ==> Cumulative(es, i) - Cumulative(es, j) <= MaxDrop(es, |es|)
  {
    to := MaxDropIsMaximum(es, |es|);
    from := PeakIsMaximum(es, to);
    forall i, j | 0 <= i <= j <= |es|
      ensures Cumulative(es, i) - Cumulative(es, j) <= MaxDrop(es, |es|)
    {
      var _ := PeakIsMaximum(es, j);
      assert Drop(es, j) <= MaxDrop(es, |es|);
    }
  }

  /**
    The recorded trough is the first point at the maximum drop, and the recorded peak lies exactly
    that far above it.
  */
  lemma {:induction false} TroughIsFirst(es: seq<Event>, n: nat)
    requires n <= |es|
    ensures TroughAt(es, n).None? <==> MaxDrop(es, n) == 0
    ensures MaxDrop(es, n) >= 0
    ensures TroughAt(es, n).Some? ==>
              var t := TroughAt(es, n).value;
              && TroughOf(es, n).value.peak - TroughOf(es, n).value.cumulative == MaxDrop(es, n)
              && Drop(es, t) == MaxDrop(es, n)
              && forall j :: 0 <= j < t ==> Drop(es, j) < MaxDrop(es, n)
  {
    if n > 0 {
      TroughIsFirst(es, n - 1);
      var _ := MaxDropIsMaximum(es, n - 1);
    }
  }

  function Losses(es: seq<Event>, n: nat): int
    requires n <= |es|
  {
    if n == 0 then 0 else Losses(es, n - 1) + Max(0, -Net(es[n - 1]))
  }

  lemma {:induction false} DropGrowsByLosses(es: seq<Event>, n: nat)
    requires n <= |es|
    ensures 0 <= Drop(es, n) <= Losses(es, n)
    ensures MaxDrop(es, n) <= Losses(es, n)
  {
    if n > 0 {
      DropGrowsByLosses(es, n - 1);
    }
  }

  lemma {:induction false} WorstIsWorst(es: seq<Event>, n: nat)
    requires 0 < n <= |es|
    ensures forall i :: 0 <= i < n ==> Net(es[WorstAt(es, n)]) <= Net(es[i])
  {
    if n > 1 {
      WorstIsWorst(es, n - 1);
    }
  }

  /** The drawdown is at least the worst single loss and at most all losses together. */
  lemma DrawdownBounds(es: seq<Event>)
    requires es != []
    ensures -Net(es[WorstAt(es, |es|)]) <= MaxDrop(es, |es|) <= Losses(es, |es|)
    ensures forall i :: 0 <= i < |es| ==> Net(es[WorstAt(es, |es|)]) <= Net(es[i])
  {
    WorstIsWorst(es, |es|);
    DropGrowsByLosses(es, |es|);
    var w := WorstAt(es, |es|);
    var _, _ := DrawdownIsLargestFall(es);
    assert Cumulative(es, w + 1) == Cumulative(es, w) + Net(es[w]);
    assert Cumulative(es, w) - Cumulative(es, w + 1) <= MaxDrop(es, |es|);
  }

  // ----- the input order does not matter -----

  ghost predicate DistinctTimes(rows: seq<Event>) {
    forall i, j :: 0 <= i < j < |rows| ==> rows[i].firstTs != rows[j].firstTs || rows[i].slug != rows[j].slug
  }

  lemma TimeKeyInjective(x: Event, y: Event)
    requires TimeKey(x) == TimeKey(y)
    ensures x.firstTs == y.firstTs && x.slug == y.slug
  {
    var a, b := TimeKey(x), TimeKey(y);
    assert a[0] == Whole(x.firstTs) && b[0] == Whole(y.firstTs);
    assert a[1..] == Text(x.slug) && b[1..] == Text(y.slug);
    TextInjective(x.slug, y.slug);
  }

  lemma {:induction false} DistinctOnce<T>(s: seq<T>, x: T)
    requires forall i, j :: 0 <= i < j < |s| ==> s[i] != s[j]
    ensures multiset(s)[x] <= 1
  {
    if s != [] {
      var n := |s| - 1;
      DistinctOnce(s[..n], x);
      assert s == s[..n] + [s[n]];
      if x == s[n] { assert x !in s[..n]; }
    }
  }

  lemma DistinctTimesKeys(rows: seq<Event>)
    requires DistinctTimes(rows)
    ensures DistinctKeys(multiset(rows), TimeKey)
  {
    forall x | x in multiset(rows)
      ensures multiset(rows)[x] == 1
    {
      DistinctOnce(rows, x);
    }
    forall x, y | x in multiset(rows) && y in multiset(rows) && TimeKey(x) == TimeKey(y)
      ensures x == y
    {
      TimeKeyInjective(x, y);
      var i :| 0 <= i < |rows| && rows[i] == x;
      var j :| 0 <= j < |rows| && rows[j] == y;
      assert i < j || j < i || i == j;
    }
  }

  /** With distinct times and slugs, the summary is the same however the rows are listed. */
  lemma SummaryIgnoresRowOrder(rows: seq<Event>, others: seq<Event>)
    requires multiset(rows) == multiset(others) && DistinctTimes(rows)
    ensures Summarize(InTime(rows), |rows|) == Summarize(InTime(others), |others|)
  {
    hide TimeKey, DistinctTimes, Summarize;
    DistinctTimesKeys(rows);
    SortIgnoresInputOrder(rows, others, TimeKey);
    assert |multiset(rows)| == |multiset(others)|;
  }

  // ----- the same in plain cells -----

  /** An event's net is the net with open value when that is given, else the cash flow. */
  function EventNet(e: Event): int {
    if e.netWithOpenValue != None then e.netWithOpenValue.value else e.netCashflow
  }

  /** One more event moves the cumulative net by its own, raises the peak, and deepens the drawdown from that peak. */
  lemma SummaryGrows(es: seq<Event>, n: nat)
    requires n < |es|
    ensures Cumulative(es, 0) == 0 && Peak(es, 0) == 0 && MaxDrop(es, 0) == 0
    ensures var before, after := Cumulative(es, n), Cumulative(es, n + 1);
            && after == before + EventNet(es[n])
            && Peak(es, n + 1) == (if after > Peak(es, n) then after else Peak(es, n))
            && MaxDrop(es, n + 1)
               == (if Peak(es, n + 1) - after > MaxDrop(es, n) then Peak(es, n + 1) - after else MaxDrop(es, n))
    ensures CountWhere(es, n + 1, WON) == CountWhere(es, n, WON) + (if EventNet(es[n]) > 0 then 1 else 0)
    ensures CountWhere(es, n + 1, LOST) == CountWhere(es, n, LOST) + (if EventNet(es[n]) < 0 then 1 else 0)
    ensures CountWhere(es, 0, WON) == 0 && CountWhere(es, 0, LOST) == 0
  {
  }

  /** The worst event is the first one of the least net. */
  lemma {:induction false} WorstIsLeast(es: seq<Event>, n: nat)
    requires 0 < n <= |es|
    ensures var w := WorstAt(es, n);
            && (forall i :: 0 <= i < n ==> EventNet(es[w]) <= EventNet(es[i]))
            && (forall i :: 0 <= i < w ==> EventNet(es[w]) < EventNet(es[i]))
  {
    if n > 1 {
      WorstIsLeast(es, n - 1);
    }
  }

  /** The summary's total, worst event and trough carry the slug and net of the events they stand for. */
  lemma SummaryCells(es: seq<Event>)
    requires es != []
    ensures var s := Summarize(es, |es|);
            && s.count == |es| && s.total == Cumulative(es, |es|) && s.maxDrawdown == MaxDrop(es, |es|)
            && s.worst == Some(Marker(es[WorstAt(es, |es|)].slug, EventNet(es[WorstAt(es, |es|)])))
            && (s.trough.Some? ==>
                  exists t :: 1 <= t <= |es| && s.trough.value.event == Marker(es[t - 1].slug, EventNet(es[t - 1]))
                              && s.trough.value.cumulative == Cumulative(es, t) && s.trough.value.peak == Peak(es, t))
  {
    hide Cumulative, Peak, MaxDrop, WorstAt, CountWhere, TroughAt;
    var t := TroughAt(es, |es|);
    if t.Some? { assert Cumulative(es, t.value) == TroughOf(es, |es|).value.cumulative; }
  }

  /** The rows are summed up in order of time, rows of one time in order of their slugs. */
  lemma InTimeOrder(rows: seq<Event>, i: nat, j: nat)
    requires i < j < |InTime(rows)|
    ensures multiset(InTime(rows)) == multiset(rows)
    ensures var a, b := InTime(rows)[i], InTime(rows)[j];
            a.firstTs < b.firstTs || (a.firstTs == b.firstTs && TextLe(a.slug, b.slug))
  {
    SortBySorted(rows, TimeKey);
    var a, b := InTime(rows)[i], InTime(rows)[j];
    hide SortBy;
    TimeKeyOrder(a, b);
  }

  lemma TimeKeyOrder(a: Event, b: Event)
    requires KeyLe(TimeKey(a), TimeKey(b))
    ensures a.firstTs < b.firstTs || (a.firstTs == b.firstTs && TextLe(a.slug, b.slug))
  {
    hide KeyLe, TextLe;
    FirstDifference(TimeKey(a), TimeKey(b), 0);
    if a.firstTs == b.firstTs {
      FirstDifference(TimeKey(a), TimeKey(b), 1);
      assert TimeKey(a)[1..] == Text(a.slug) && TimeKey(b)[1..] == Text(b.slug);
      TextOrder(a.slug, b.slug);
    }
  }
}
