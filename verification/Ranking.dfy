/** The postseason replay ranking: recommendations, the nine-key sort, three ranks and the focus shortlist. */
module Ranking {
  import opened Wrappers
  import opened Ordering

  /** A subject's replay summary; a cell that is not a number is None. */
  datatype Subject = Subject(
    name: string, kind: string, standardTrades: int, replayTrades: int,
    survival: Option<real>, stale: Option<real>, cadence: Option<real>, path: Option<real>, bankroll: Option<real>)

  datatype Recommendation = LiveProbe | ShadowOnly | Bench | LockedBaseline

  const PRIORITY_FAMILIES: seq<string> := [
    "quarter_open_reprice", "underdog_range_scalp", "favorite_floor_rebound", "halftime_gap_fill",
    "micro_momentum_continuation", "lead_fragility", "panic_fade_fast"]

  function PromotionOrder(r: Recommendation): int {
    match r
    case LiveProbe => 0
    case ShadowOnly => 1
    case Bench => 2
    case LockedBaseline => 3
  }

  predicate Priority(s: Subject) { s.name in PRIORITY_FAMILIES }

  predicate Controller(s: Subject) { s.kind == "controller" }

  function ProbeOrderFrom(name: string, families: seq<string>, i: nat): nat
    requires i <= |families|
    decreases |families| - i
  {
    if i == |families| || families[i] == name then i else ProbeOrderFrom(name, families, i + 1)
  }

  // ----- the controllers' best values -----

  /** A bar set by the controllers: none to clear, one nothing clears because it is not a number, or a value. */
  datatype Bar = NoBar | NeverCleared | At(value: real)

  function MaxField(rows: seq<Subject>, field: Subject -> Option<real>): Option<real> {
    if rows == [] then None
    else
      var before := MaxField(rows[..|rows| - 1], field);
      var s := rows[|rows| - 1];
      if !Controller(s) || field(s).None? then before
      else if before.None? then field(s)
      else Some(MaxReal(before.value, field(s).value))
  }

  predicate HasController(rows: seq<Subject>) { exists s :: s in rows && Controller(s) }

  function BarOf(rows: seq<Subject>, field: Subject -> Option<real>, without: Bar): Bar {
    if !HasController(rows) then without
    else
      var m := MaxField(rows, field);
      if m.None? then NeverCleared else At(m.value)
  }

  const SURVIVAL: Subject -> Option<real> := (s: Subject) => s.survival
  const PATH: Subject -> Option<real> := (s: Subject) => s.path
  const NEGATED_STALE: Subject -> Option<real> := (s: Subject) => Descending(s.stale)
  const NEGATED_CADENCE: Subject -> Option<real> := (s: Subject) => Descending(s.cadence)

  /** Best survival and path are maxima; best stale and cadence rates are minima, kept negated. */
  datatype Bars = Bars(survival: Bar, negStale: Bar, negCadence: Bar, path: Bar)

  function BarsOf(rows: seq<Subject>): Bars {
    Bars(BarOf(rows, SURVIVAL, At(0.0)), BarOf(rows, NEGATED_STALE, At(-1.0)), BarOf(rows, NEGATED_CADENCE, At(-1.0)),
         BarOf(rows, PATH, NoBar))
  }

  predicate Clears(x: Option<real>, bar: Bar) {
    x.Some? && (bar.NoBar? || (bar.At? && x.value >= bar.value))
  }

  function RateOr1(x: Option<real>): real { x.GetOr(1.0) }

  // ----- recommendations -----

  predicate BeatsControllers(s: Subject, bars: Bars) {
    && Clears(s.survival, bars.survival)
    && Clears(Some(-RateOr1(s.stale)), bars.negStale) && RateOr1(s.stale) <= 0.25
    && Clears(Some(-RateOr1(s.cadence)), bars.negCadence)
    && Clears(s.path, bars.path)
  }

  predicate SteadyProbe(s: Subject, bars: Bars) {
    && Clears(s.survival, At(0.25)) && RateOr1(s.stale) <= 0.25 && RateOr1(s.cadence) <= 0.25
    && Clears(s.path, bars.path)
  }

  function Recommend(s: Subject, bars: Bars): Recommendation {
    if Controller(s) then LockedBaseline
    else if s.standardTrades <= 0 || s.replayTrades <= 0 then Bench
    else if Priority(s) && BeatsControllers(s, bars) then LiveProbe
    else if Priority(s) && SteadyProbe(s, bars) then LiveProbe
    else if s.name == "inversion" then ShadowOnly
    else if Clears(s.survival, bars.survival) && Clears(s.path, At(0.0)) then ShadowOnly
    else if Priority(s) && Clears(s.survival, At(0.15)) && Clears(s.path, At(0.0)) then ShadowOnly
    else Bench
  }

  predicate NoWorse(a: Option<real>, b: Option<real>) { b.Some? ==> a.Some? && a.value >= b.value }

  /** A subject at least as good in every rate is never recommended lower. */
  lemma RecommendMonotone(better: Subject, worse: Subject, bars: Bars)
    requires better.name == worse.name && better.kind == worse.kind
    requires better.standardTrades >= worse.standardTrades && better.replayTrades >= worse.replayTrades
    requires NoWorse(better.survival, worse.survival) && NoWorse(better.path, worse.path)
    requires RateOr1(better.stale) <= RateOr1(worse.stale) && RateOr1(better.cadence) <= RateOr1(worse.cadence)
    ensures PromotionOrder(Recommend(better, bars)) <= PromotionOrder(Recommend(worse, bars))
  {
    hide Priority, Controller;
    SameName(better, worse);
  }

  lemma SameName(a: Subject, b: Subject)
    requires a.name == b.name && a.kind == b.kind
    ensures Priority(a) == Priority(b) && Controller(a) == Controller(b)
  {
  }

  datatype Judged = Judged(subject: Subject, advice: Recommendation)

  function Judge(rows: seq<Subject>, bars: Bars): (r: seq<Judged>)
    ensures |r| == |rows|
    ensures forall i :: 0 <= i < |rows| ==> r[i] == Judged(rows[i], Recommend(rows[i], bars))
  {
    seq(|rows|, i requires 0 <= i < |rows| => Judged(rows[i], Recommend(rows[i], bars)))
  }

  // ----- the ranking -----

  /** The nine sort keys, the subject name last. */
  function RankKey(j: Judged): Key {
    var s := j.subject;
    [Whole(PromotionOrder(j.advice)), Descending(s.bankroll), Descending(s.survival), Descending(s.path), s.stale,
     s.cadence,
     Descending(Whole(s.replayTrades)), Whole(ProbeOrderFrom(s.name, PRIORITY_FAMILIES, 0))]
    + Text(s.name)
  }

  datatype RankRow = RankRow(judged: Judged, replayRank: nat, probeRank: Option<nat>, focusRank: Option<nat>)

  predicate IsProbe(j: Judged) { j.advice == LiveProbe }

  predicate IsFocus(j: Judged) { Priority(j.subject) }

  function Count(js: seq<Judged>, n: nat, test: Judged -> bool): (c: nat)
    requires n <= |js|
    ensures c <= n
  {
    if n == 0 then 0 else Count(js, n - 1, test) + (if test(js[n - 1]) then 1 else 0)
  }

  const PROBES: Judged -> bool := (j: Judged) => IsProbe(j)
  const FOCUSES: Judged -> bool := (j: Judged) => IsFocus(j)

  function RankAt(js: seq<Judged>, i: nat): RankRow
    requires i < |js|
  {
    RankRow(js[i], i + 1,
            if IsProbe(js[i]) then Some(Count(js, i + 1, PROBES)) else None,
            if IsFocus(js[i]) then Some(Count(js, i + 1, FOCUSES)) else None)
  }

  function RankRows(js: seq<Judged>): (r: seq<RankRow>)
    ensures |r| == |js|
    ensures forall i :: 0 <= i < |js| ==> r[i] == RankAt(js, i)
  {
    seq(|js|, i requires 0 <= i < |js| => RankAt(js, i))
  }

  function Ordered(rows: seq<Subject>): seq<Judged> { SortBy(Judge(rows, BarsOf(rows)), RankKey) }

  function RankingOf(rows: seq<Subject>): seq<RankRow> { RankRows(Ordered(rows)) }

  /** One mask column: rows passing the test are numbered from one, the others stay blank. */
  method AssignRanks(js: seq<Judged>, test: Judged -> bool) returns (ranks: seq<Option<nat>>)
    ensures |ranks| == |js|
    ensures forall i :: 0 <= i < |js| ==> ranks[i] == if test(js[i]) then Some(Count(js, i + 1, test)) else None
  {
    ranks := [];
    var next := 1;
    for i := 0 to |js|
      invariant |ranks| == i && next == Count(js, i, test) + 1
      invariant forall k :: 0 <= k < i ==> ranks[k] == if test(js[k]) then Some(Count(js, k + 1, test)) else None
    {
      if test(js[i]) {
        ranks := ranks + [Some(next)];
        next := next + 1;
      } else {
        ranks := ranks + [None];
      }
    }
  }

  method BuildRanking(rows: seq<Subject>) returns (ranking: seq<RankRow>)
    ensures ranking == RankingOf(rows)
  {
    hide Recommend, RankKey, BarsOf, IsProbe, IsFocus, Count, SortBy;
    var bars := BarsOf(rows);
    var judged: seq<Judged> := [];
    for i := 0 to |rows|
      invariant |judged| == i && forall k :: 0 <= k < i ==> judged[k] == Judged(rows[k], Recommend(rows[k], bars))
    {
      judged := judged + [Judged(rows[i], Recommend(rows[i], bars))];
    }
    assert judged == Judge(rows, bars);
    var work := SortBy(judged, RankKey);
    var probeRanks := AssignRanks(work, PROBES);
    var focusRanks := AssignRanks(work, FOCUSES);
    ranking := seq(|work|, i requires 0 <= i < |work| => RankRow(work[i], i + 1, probeRanks[i], focusRanks[i]));
    assert forall i :: 0 <= i < |work| ==> ranking[i] == RankAt(work, i);
  }

  // ----- the shortlist -----

  function FocusKey(r: RankRow): Key {
    [if r.probeRank.None? then None else Whole(r.probeRank.value),
     Descending(r.judged.subject.bankroll), Descending(r.judged.subject.survival), r.judged.subject.stale]
  }

  function FocusOnly(rs: seq<RankRow>): seq<RankRow> {
    if rs == [] then [] else (if IsFocus(rs[0].judged) then [rs[0]] else []) + FocusOnly(rs[1..])
  }

  function FocusRows(ranking: seq<RankRow>): seq<RankRow> { SortBy(FocusOnly(ranking), FocusKey) }

  lemma OrderedByPromotion(a: Judged, b: Judged)
    requires KeyLe(RankKey(a), RankKey(b))
    ensures PromotionOrder(a.advice) <= PromotionOrder(b.advice)
  {
    assert RankKey(a)[0] == Whole(PromotionOrder(a.advice)) && RankKey(b)[0] == Whole(PromotionOrder(b.advice));
  }

  lemma OrderedMembers(rows: seq<Subject>, i: nat)
    requires i < |Ordered(rows)|
    ensures Ordered(rows)[i].subject in rows
    ensures Ordered(rows)[i].advice == Recommend(Ordered(rows)[i].subject, BarsOf(rows))
  {
    hide Recommend, BarsOf, RankKey;
    var js := Judge(rows, BarsOf(rows));
    assert Ordered(rows)[i] in multiset(Ordered(rows));
    assert Ordered(rows)[i] in js;
  }

  /** Rows recommended for a live probe come first, and each of them is a focus row. */
  lemma ProbesArePrefix(rows: seq<Subject>, i: nat, j: nat)
    requires i <= j < |Ordered(rows)| && IsProbe(Ordered(rows)[j])
    ensures IsProbe(Ordered(rows)[i]) && IsFocus(Ordered(rows)[i])
  {
    OrderedMembers(rows, i);
    OrderedMembers(rows, j);
    hide RankKey, BarsOf, BeatsControllers, SteadyProbe, Priority;
    SortBySorted(Judge(rows, BarsOf(rows)), RankKey);
    if i < j { OrderedByPromotion(Ordered(rows)[i], Ordered(rows)[j]); }
  }

  lemma {:induction false} CountAll(js: seq<Judged>, n: nat, test: Judged -> bool)
    requires n <= |js| && forall i :: 0 <= i < n ==> test(js[i])
    ensures Count(js, n, test) == n
  {
    if n > 0 {
      CountAll(js, n - 1, test);
    }
  }

  /** On every row recommended for a live probe the three separately assigned ranks coincide. */
  lemma ThreeRanksCoincide(rows: seq<Subject>, i: nat)
    requires i < |RankingOf(rows)| && IsProbe(RankingOf(rows)[i].judged)
    ensures var r := RankingOf(rows)[i]; r.probeRank == r.focusRank == Some(r.replayRank) == Some(i + 1)
  {
    hide Ordered, IsProbe, IsFocus;
    var js := Ordered(rows);
    forall k | 0 <= k <= i
      ensures IsProbe(js[k]) && IsFocus(js[k])
    {
      ProbesArePrefix(rows, k, i);
    }
    CountAll(js, i + 1, PROBES);
    CountAll(js, i + 1, FOCUSES);
  }

  /** How many rows are recommended for a live probe. */
  function ProbeCount(rows: seq<Subject>): (m: nat)
    ensures m <= |RankingOf(rows)|
  {
    Count(Ordered(rows), |Ordered(rows)|, PROBES)
  }

  lemma {:induction false} CountPrefix(js: seq<Judged>, n: nat)
    requires n <= |js|
    requires forall i, j :: 0 <= i <= j < |js| && IsProbe(js[j]) ==> IsProbe(js[i])
    ensures forall i :: 0 <= i < n ==> (IsProbe(js[i]) <==> i < Count(js, n, PROBES))
  {
    if n > 0 {
      CountPrefix(js, n - 1);
      if IsProbe(js[n - 1]) {
        assert forall i :: 0 <= i < n ==> IsProbe(js[i]);
        CountAll(js, n, PROBES);
      }
    }
  }

  /** The live-probe rows are exactly the first `ProbeCount` rows. */
  lemma ProbesAreFirst(rows: seq<Subject>)
    ensures forall i :: 0 <= i < |RankingOf(rows)| ==> (IsProbe(RankingOf(rows)[i].judged) <==> i < ProbeCount(rows))
  {
    hide Ordered, IsProbe, IsFocus;
    var js := Ordered(rows);
    forall i, j | 0 <= i <= j < |js| && IsProbe(js[j])
      ensures IsProbe(js[i])
    {
      ProbesArePrefix(rows, i, j);
    }
    CountPrefix(js, |js|);
  }

  lemma {:induction false} FocusOnlyConcat(a: seq<RankRow>, b: seq<RankRow>)
    requires forall i :: 0 <= i < |a| ==> IsFocus(a[i].judged)
    ensures FocusOnly(a + b) == a + FocusOnly(b)
  {
    hide IsFocus;
    if a == [] {
      assert a + b == b;
    } else {
      assert (a + b)[1..] == a[1..] + b;
      FocusOnlyConcat(a[1..], b);
    }
  }

  lemma {:induction false} FocusOnlyMembers(rs: seq<RankRow>)
    ensures forall r :: r in FocusOnly(rs) ==> r in rs
  {
    if rs != [] {
      hide IsFocus;
      FocusOnlyMembers(rs[1..]);
    }
  }

  ghost predicate Front<T>(front: seq<T>, rest: seq<T>, key: T -> Key) {
    && (forall i, j :: 0 <= i < j < |front| ==> KeyLe(key(front[i]), key(front[j])))
    && (forall x, y :: x in front && y in rest ==> KeyLe(key(x), key(y)))
  }

  lemma FrontTail<T>(front: seq<T>, rest: seq<T>, key: T -> Key)
    requires front != [] && Front(front, rest, key)
    ensures Front(front[1..], rest, key)
  {
    hide KeyLe;
    var more := front[1..];
    forall i, j | 0 <= i < j < |more|
      ensures KeyLe(key(more[i]), key(more[j]))
    {
      assert more[i] == front[i + 1] && more[j] == front[j + 1];
    }
    assert forall y :: y in more ==> y in front;
  }

  lemma SortConsFirst<T>(x: T, s: seq<T>, key: T -> Key)
    requires SortBy(s, key) != [] ==> KeyLe(key(x), key(SortBy(s, key)[0]))
    ensures SortBy([x] + s, key) == [x] + SortBy(s, key)
  {
    hide KeyLe;
    assert ([x] + s)[1..] == s;
  }

  /** A sorted front whose keys precede all others is left in place by the sort. */
  lemma {:induction false} SortKeepsFront<T>(front: seq<T>, rest: seq<T>, key: T -> Key)
    requires Front(front, rest, key)
    ensures SortBy(front + rest, key) == front + SortBy(rest, key)
  {
    hide *;
    if front == [] {
      assert front + rest == rest;
    } else {
      var x, more := front[0], front[1..];
      FrontTail(front, rest, key);
      SortKeepsFront(more, rest, key);
      if more + SortBy(rest, key) != [] { HeadAfterFront(front, rest, key); }
      SortConsFirst(x, more + rest, key);
      assert front + rest == [x] + (more + rest);
      assert front + SortBy(rest, key) == [x] + (more + SortBy(rest, key));
    }
  }

  lemma HeadAfterFront<T>(front: seq<T>, rest: seq<T>, key: T -> Key)
    requires front != [] && front[1..] + SortBy(rest, key) != [] && Front(front, rest, key)
    ensures KeyLe(key(front[0]), key((front[1..] + SortBy(rest, key))[0]))
  {
    hide KeyLe;
    if |front| == 1 {
      var y := SortBy(rest, key)[0];
      assert y in multiset(SortBy(rest, key));
      assert y in rest;
    } else {
      assert (front[1..] + SortBy(rest, key))[0] == front[1];
    }
  }

  lemma ProbeBefore(a: RankRow, b: RankRow)
    requires a.probeRank.Some? && (b.probeRank.Some? ==> a.probeRank.value < b.probeRank.value)
    ensures KeyLe(FocusKey(a), FocusKey(b))
  {
    assert FocusKey(a)[0] == Whole(a.probeRank.value);
  }

  /** The live-probe rows precede all other focus rows in the shortlist's order. */
  lemma ProbesInFront(rows: seq<Subject>)
    ensures var m, ranking := ProbeCount(rows), RankingOf(rows);
            && (forall i :: 0 <= i < m ==> IsFocus(ranking[i].judged))
            && Front(ranking[..m], FocusOnly(ranking[m..]), FocusKey)
  {
    hide IsProbe, IsFocus, FocusKey, KeyLe, Ordered, Count;
    var ranking := RankingOf(rows);
    var m := ProbeCount(rows);
    var front, rest := ranking[..m], ranking[m..];
    ProbesAreFirst(rows);
    forall i | 0 <= i < m
      ensures front[i].probeRank == Some(i + 1) && IsFocus(front[i].judged)
    {
      ThreeRanksCoincide(rows, i);
      ProbesArePrefix(rows, i, i);
    }
    FocusOnlyMembers(rest);
    forall i, j | 0 <= i < j < |front|
      ensures KeyLe(FocusKey(front[i]), FocusKey(front[j]))
    {
      ProbeBefore(front[i], front[j]);
    }
    forall x, y | x in front && y in FocusOnly(rest)
      ensures KeyLe(FocusKey(x), FocusKey(y))
    {
      var j :| 0 <= j < |rest| && rest[j] == y;
      assert ranking[m + j] == y && !IsProbe(ranking[m + j].judged);
      ProbeBefore(x, y);
    }
  }

  /** The shortlist starts with exactly the live-probe rows, in rank order. */
  lemma ShortlistStartsWithProbes(rows: seq<Subject>)
    ensures ProbeCount(rows) <= |FocusRows(RankingOf(rows))|
    ensures FocusRows(RankingOf(rows))[..ProbeCount(rows)] == RankingOf(rows)[..ProbeCount(rows)]
  {
    ProbesInFront(rows);
    hide IsFocus, FocusKey, FocusOnly, RankingOf, ProbeCount, Front, SortBy;
    var ranking := RankingOf(rows);
    var m := ProbeCount(rows);
    assert ranking == ranking[..m] + ranking[m..];
    FocusOnlyConcat(ranking[..m], ranking[m..]);
    SortKeepsFront(ranking[..m], FocusOnly(ranking[m..]), FocusKey);
  }

  // ----- independence of the input order -----

  lemma {:induction false} MaxFieldIsMax(rows: seq<Subject>, field: Subject -> Option<real>)
    ensures MaxField(rows, field).Some? ==>
              exists s :: s in rows && Controller(s) && field(s) == MaxField(rows, field)
    ensures forall s :: s in rows && Controller(s) && field(s).Some? ==>
              MaxField(rows, field).Some? && field(s).value <= MaxField(rows, field).value
  {
    if rows != [] {
      var n := |rows| - 1;
      hide Controller;
      MaxFieldIsMax(rows[..n], field);
      assert rows == rows[..n] + [rows[n]];
    }
  }

  lemma BarIgnoresOrder(rows: seq<Subject>, others: seq<Subject>, field: Subject -> Option<real>, without: Bar)
    requires forall s :: s in rows <==> s in others
    ensures BarOf(rows, field, without) == BarOf(others, field, without)
  {
    MaxFieldIsMax(rows, field);
    MaxFieldIsMax(others, field);
    hide MaxField, Controller;
    assert HasController(rows) == HasController(others);
  }

  ghost predicate DistinctNames(rows: seq<Subject>) {
    forall i, j :: 0 <= i < j < |rows| ==> rows[i].name != rows[j].name
  }

  lemma RankKeyInjective(a: Judged, b: Judged)
    requires RankKey(a) == RankKey(b)
    ensures a.subject.name == b.subject.name
  {
    assert RankKey(a)[8..] == Text(a.subject.name) && RankKey(b)[8..] == Text(b.subject.name);
    TextInjective(a.subject.name, b.subject.name);
  }

  lemma {:induction false} JudgeMultiset(rows: seq<Subject>, bars: Bars, s: Subject)
    ensures multiset(Judge(rows, bars))[Judged(s, Recommend(s, bars))] == multiset(rows)[s]
  {
    hide Recommend;
    if rows != [] {
      var n := |rows| - 1;
      JudgeMultiset(rows[..n], bars, s);
      assert rows == rows[..n] + [rows[n]];
      assert Judge(rows, bars) == Judge(rows[..n], bars) + [Judged(rows[n], Recommend(rows[n], bars))];
    }
  }

  lemma JudgeIgnoresOrder(rows: seq<Subject>, others: seq<Subject>, bars: Bars)
    requires multiset(rows) == multiset(others)
    ensures multiset(Judge(rows, bars)) == multiset(Judge(others, bars))
  {
    hide Recommend;
    var a, b := multiset(Judge(rows, bars)), multiset(Judge(others, bars));
    forall j | j in a || j in b
      ensures a[j] == b[j]
    {
      assert j.advice == Recommend(j.subject, bars) by { JudgedBy(rows, bars, j); JudgedBy(others, bars, j); }
      JudgeMultiset(rows, bars, j.subject);
      JudgeMultiset(others, bars, j.subject);
    }
  }

  lemma JudgedBy(rows: seq<Subject>, bars: Bars, j: Judged)
    ensures j in multiset(Judge(rows, bars)) ==> j.advice == Recommend(j.subject, bars)
  {
    hide Recommend;
  }

  lemma JudgeDistinct(rows: seq<Subject>, bars: Bars)
    requires DistinctNames(rows)
    ensures DistinctKeys(multiset(Judge(rows, bars)), RankKey)
  {
    hide Recommend, RankKey;
    var js := Judge(rows, bars);
    forall x | x in multiset(js)
      ensures multiset(js)[x] == 1
    {
      NamesOnce(js, x);
    }
    forall x, y | x in multiset(js) && y in multiset(js) && RankKey(x) == RankKey(y)
      ensures x == y
    {
      RankKeyInjective(x, y);
      var i :| 0 <= i < |js| && js[i] == x;
      var j :| 0 <= j < |js| && js[j] == y;
      assert i < j || j < i || i == j;
    }
  }

  lemma {:induction false} NamesOnce(js: seq<Judged>, x: Judged)
    requires forall i, j :: 0 <= i < j < |js| ==> js[i].subject.name != js[j].subject.name
    ensures multiset(js)[x] <= 1
  {
    if js != [] {
      var n := |js| - 1;
      NamesOnce(js[..n], x);
      assert js == js[..n] + [js[n]];
      if x == js[n] { assert x !in js[..n]; }
    }
  }

  /** With distinct subject names the whole ranking is independent of the order the rows arrive in. */
  lemma RankingIgnoresRowOrder(rows: seq<Subject>, others: seq<Subject>)
    requires multiset(rows) == multiset(others) && DistinctNames(rows)
    ensures RankingOf(rows) == RankingOf(others)
  {
    hide BarOf, Judge, RankKey, RankRows, DistinctNames;
    assert forall s :: s in rows <==> s in multiset(rows);
    assert forall s :: s in others <==> s in multiset(others);
    BarIgnoresOrder(rows, others, SURVIVAL, At(0.0));
    BarIgnoresOrder(rows, others, NEGATED_STALE, At(-1.0));
    BarIgnoresOrder(rows, others, NEGATED_CADENCE, At(-1.0));
    BarIgnoresOrder(rows, others, PATH, NoBar);
    var bars := BarsOf(rows);
    JudgeIgnoresOrder(rows, others, bars);
    JudgeDistinct(rows, bars);
    SortIgnoresInputOrder(Judge(rows, bars), Judge(others, bars), RankKey);
  }

  function Subjects(js: seq<Judged>): (r: seq<Subject>)
    ensures |r| == |js|
    ensures forall i :: 0 <= i < |js| ==> r[i] == js[i].subject
  {
    seq(|js|, i requires 0 <= i < |js| => js[i].subject)
  }

  lemma {:induction false} SubjectsOf(a: seq<Judged>, s: Subject, bars: Bars)
    requires forall i :: 0 <= i < |a| ==> a[i].advice == Recommend(a[i].subject, bars)
    ensures multiset(Subjects(a))[s] == multiset(a)[Judged(s, Recommend(s, bars))]
  {
    hide Recommend;
    if a != [] {
      var n := |a| - 1;
      SubjectsOf(a[..n], s, bars);
      assert a == a[..n] + [a[n]];
      assert Subjects(a) == Subjects(a[..n]) + [a[n].subject];
    }
  }

  /** The ranking is a permutation of its input: every subject appears exactly as often as it was given. */
  lemma RankingIsPermutation(rows: seq<Subject>, s: Subject)
    ensures multiset(Subjects(Ordered(rows)))[s] == multiset(rows)[s]
  {
    hide Recommend, BarsOf, RankKey;
    var bars := BarsOf(rows);
    forall i | 0 <= i < |Ordered(rows)|
      ensures Ordered(rows)[i].advice == Recommend(Ordered(rows)[i].subject, bars)
    {
      OrderedMembers(rows, i);
    }
    SubjectsOf(Ordered(rows), s, bars);
    JudgeMultiset(rows, bars, s);
  }

  // ----- the order, cell by cell -----

  /** Live probes, then shadow-only subjects, then benched ones, then locked baselines. */
  lemma PromotionPlaces()
    ensures PromotionOrder(LiveProbe) == 0 && PromotionOrder(ShadowOnly) == 1
    ensures PromotionOrder(Bench) == 2 && PromotionOrder(LockedBaseline) == 3
  {
  }

  function FamilyPlace(name: string): int {
    if name == "quarter_open_reprice" then 0
    else if name == "underdog_range_scalp" then 1
    else if name == "favorite_floor_rebound" then 2
    else if name == "halftime_gap_fill" then 3
    else if name == "micro_momentum_continuation" then 4
    else if name == "lead_fragility" then 5
    else if name == "panic_fade_fast" then 6
    else 7
  }

  lemma {:induction false} ProbeOrderIsFirst(name: string, families: seq<string>, i: nat)
    requires i <= |families|
    ensures var at := ProbeOrderFrom(name, families, i);
            && i <= at <= |families| && (at < |families| ==> families[at] == name)
            && forall j :: i <= j < at ==> families[j] != name
    decreases |families| - i
  {
    if i < |families| && families[i] != name {
      ProbeOrderIsFirst(name, families, i + 1);
    }
  }

  /** The families' own order; a subject of none of them comes last. */
  lemma FamilyPlaceIs(s: Subject)
    ensures ProbeOrderFrom(s.name, PRIORITY_FAMILIES, 0) == FamilyPlace(s.name)
    ensures Priority(s) <==> FamilyPlace(s.name) < 7
  {
    ProbeOrderIsFirst(s.name, PRIORITY_FAMILIES, 0);
    hide ProbeOrderFrom;
  }

  /** Descending, missing values last. */
  predicate NotAbove(later: Option<real>, earlier: Option<real>) {
    later.Some? ==> earlier.Some? && earlier.value >= later.value
  }

  /** Ascending, missing values last. */
  predicate NotBelow(later: Option<real>, earlier: Option<real>) {
    later.Some? ==> earlier.Some? && earlier.value <= later.value
  }

  /**
    `a` may stand before `b`: by promotion; then by bankroll, survival and path, higher first;
    then by stale and cadence rate, lower first; then by replay trades, more first; then by family;
    then by name.
  */
  predicate MayPrecede(a: Judged, b: Judged) {
    var s, u := a.subject, b.subject;
    && PromotionOrder(a.advice) <= PromotionOrder(b.advice)
    && (a.advice == b.advice ==>
          && NotAbove(u.bankroll, s.bankroll)
          && (s.bankroll == u.bankroll ==>
                && NotAbove(u.survival, s.survival)
                && (s.survival == u.survival ==>
                      && NotAbove(u.path, s.path)
                      && (s.path == u.path ==>
                            && NotBelow(u.stale, s.stale)
                            && (s.stale == u.stale ==> MayPrecedeByTrades(s, u))))))
  }

  predicate MayPrecedeByTrades(s: Subject, u: Subject) {
    && NotBelow(u.cadence, s.cadence)
    && (s.cadence == u.cadence ==>
          && s.replayTrades >= u.replayTrades
          && (s.replayTrades == u.replayTrades ==>
                && FamilyPlace(s.name) <= FamilyPlace(u.name)
                && (FamilyPlace(s.name) == FamilyPlace(u.name) ==> TextLe(s.name, u.name))))
  }

  /** The eight cells before the name. */
  lemma RankCells(j: Judged)
    ensures var s, k := j.subject, RankKey(j);
            && |k| == 8 + |s.name| && k[8..] == Text(s.name)
            && k[0] == Some(PromotionOrder(j.advice) as real)
            && k[1] == Descending(s.bankroll) && k[2] == Descending(s.survival) && k[3] == Descending(s.path)
            && k[4] == s.stale && k[5] == s.cadence && k[6] == Some(-(s.replayTrades as real))
            && k[7] == Some(FamilyPlace(s.name) as real)
  {
    FamilyPlaceIs(j.subject);
  }

  lemma KeysCompare(a: Judged, b: Judged, n: nat)
    requires KeyLe(RankKey(a), RankKey(b)) && n <= 8
    requires |RankKey(a)| >= 8 && |RankKey(b)| >= 8 && forall i :: 0 <= i < n ==> RankKey(a)[i] == RankKey(b)[i]
    ensures KeyLe(RankKey(a)[n..], RankKey(b)[n..])
    ensures n < 8 && RankKey(b)[n].Some? ==> RankKey(a)[n].Some? && RankKey(a)[n].value <= RankKey(b)[n].value
  {
    hide RankKey, KeyLe;
    assert RankKey(a)[..n] == RankKey(b)[..n];
    FirstDifference(RankKey(a), RankKey(b), n);
  }

  lemma LastKeysCompare(a: Judged, b: Judged)
    requires KeyLe(RankKey(a), RankKey(b))
    requires |RankKey(a)| >= 8 && |RankKey(b)| >= 8 && forall i :: 0 <= i < 5 ==> RankKey(a)[i] == RankKey(b)[i]
    ensures MayPrecedeByTrades(a.subject, b.subject)
  {
    RankCells(a);
    RankCells(b);
    hide RankKey, KeyLe, TextLe, FamilyPlace;
    KeysCompare(a, b, 5);
    if a.subject.cadence == b.subject.cadence {
      KeysCompare(a, b, 6);
      if a.subject.replayTrades == b.subject.replayTrades {
        KeysCompare(a, b, 7);
        if FamilyPlace(a.subject.name) == FamilyPlace(b.subject.name) {
          KeysCompare(a, b, 8);
          TextOrder(a.subject.name, b.subject.name);
        }
      }
    }
  }

  lemma RankKeyOrder(a: Judged, b: Judged)
    requires KeyLe(RankKey(a), RankKey(b))
    ensures MayPrecede(a, b)
  {
    RankCells(a);
    RankCells(b);
    hide RankKey, KeyLe, MayPrecedeByTrades, FamilyPlace;
    var s, u := a.subject, b.subject;
    KeysCompare(a, b, 0);
    if a.advice == b.advice {
      KeysCompare(a, b, 1);
      if s.bankroll == u.bankroll {
        KeysCompare(a, b, 2);
        if s.survival == u.survival {
          KeysCompare(a, b, 3);
          if s.path == u.path {
            KeysCompare(a, b, 4);
            if s.stale == u.stale { LastKeysCompare(a, b); }
          }
        }
      }
    }
  }

  /** Any two ranked rows stand in the order of their own fields, and carry their place. */
  lemma RankedPair(rows: seq<Subject>, i: nat, j: nat)
    requires i < j < |RankingOf(rows)|
    ensures MayPrecede(RankingOf(rows)[i].judged, RankingOf(rows)[j].judged)
    ensures RankingOf(rows)[i].replayRank == i + 1
  {
    hide RankKey, BarsOf, MayPrecede, SortBy;
    SortBySorted(Judge(rows, BarsOf(rows)), RankKey);
    RankKeyOrder(Ordered(rows)[i], Ordered(rows)[j]);
  }

  /** By probe rank; then bankroll and survival, higher first; then stale rate, lower first. */
  predicate MayPrecedeInFocus(a: RankRow, b: RankRow) {
    var s, u := a.judged.subject, b.judged.subject;
    && (b.probeRank.Some? ==> a.probeRank.Some? && a.probeRank.value <= b.probeRank.value)
    && (a.probeRank == b.probeRank ==>
          && NotAbove(u.bankroll, s.bankroll)
          && (s.bankroll == u.bankroll ==>
                && NotAbove(u.survival, s.survival)
                && (s.survival == u.survival ==> NotBelow(u.stale, s.stale))))
  }

  lemma FocusCellsCompare(a: RankRow, b: RankRow, n: nat)
    requires KeyLe(FocusKey(a), FocusKey(b)) && n < 4
    requires forall i :: 0 <= i < n ==> FocusKey(a)[i] == FocusKey(b)[i]
    ensures FocusKey(b)[n].Some? ==> FocusKey(a)[n].Some? && FocusKey(a)[n].value <= FocusKey(b)[n].value
  {
    assert FocusKey(a)[..n] == FocusKey(b)[..n];
    hide KeyLe;
    FirstDifference(FocusKey(a), FocusKey(b), n);
  }

  lemma FocusKeyOrder(a: RankRow, b: RankRow)
    requires KeyLe(FocusKey(a), FocusKey(b))
    ensures MayPrecedeInFocus(a, b)
  {
    hide KeyLe;
    var s, u := a.judged.subject, b.judged.subject;
    FocusCellsCompare(a, b, 0);
    if a.probeRank == b.probeRank {
      FocusCellsCompare(a, b, 1);
      if s.bankroll == u.bankroll {
        FocusCellsCompare(a, b, 2);
        if s.survival == u.survival { FocusCellsCompare(a, b, 3); }
      }
    }
  }

  lemma {:induction false} FocusOnlyIs(rs: seq<RankRow>, r: RankRow)
    ensures multiset(FocusOnly(rs))[r] == if Priority(r.judged.subject) then multiset(rs)[r] else 0
  {
    if rs != [] {
      hide Priority;
      FocusOnlyIs(rs[1..], r);
      assert rs == [rs[0]] + rs[1..];
    }
  }

  /** The shortlist holds exactly the ranked rows of the seven families, in its own order. */
  lemma ShortlistIs(ranking: seq<RankRow>, r: RankRow)
    ensures multiset(FocusRows(ranking))[r]
         == if FamilyPlace(r.judged.subject.name) < 7 then multiset(ranking)[r] else 0
    ensures forall i, j :: 0 <= i < j < |FocusRows(ranking)| ==>
              MayPrecedeInFocus(FocusRows(ranking)[i], FocusRows(ranking)[j])
  {
    FocusOnlyIs(ranking, r);
    FamilyPlaceIs(r.judged.subject);
    SortBySorted(FocusOnly(ranking), FocusKey);
    hide FocusKey, FocusOnly, MayPrecedeInFocus, FamilyPlace, Priority, SortBy, KeyLe;
    forall i, j | 0 <= i < j < |FocusRows(ranking)|
      ensures MayPrecedeInFocus(FocusRows(ranking)[i], FocusRows(ranking)[j])
    {
      FocusKeyOrder(FocusRows(ranking)[i], FocusRows(ranking)[j]);
    }
  }

  // ----- recommendations, cell by cell -----

  /** At least every controller's known value, one of which is known; `alone` without any controller. */
  ghost predicate ReachesControllers(rows: seq<Subject>, field: Subject -> Option<real>, x: real, alone: bool) {
    if forall c :: c in rows ==> c.kind != "controller" then alone
    else
      && (exists c :: c in rows && c.kind == "controller" && field(c).Some?)
      && (forall c :: c in rows && c.kind == "controller" && field(c).Some? ==> field(c).value <= x)
  }

  lemma ClearsBarIff(rows: seq<Subject>, field: Subject -> Option<real>, without: Bar, x: Option<real>)
    ensures Clears(x, BarOf(rows, field, without))
       <==> x.Some? && ReachesControllers(rows, field, x.value, Clears(x, without))
  {
    MaxFieldIsMax(rows, field);
    hide MaxField;
    assert HasController(rows) <==> !forall c :: c in rows ==> c.kind != "controller";
  }

  /**
    No worse than the controllers in survival, stale and cadence rate and path, and stale at most
    a quarter of the time.
  */
  ghost predicate BeatsAll(rows: seq<Subject>, s: Subject) {
    var stale, cadence := s.stale.GetOr(1.0), s.cadence.GetOr(1.0);
    && s.survival.Some? && ReachesControllers(rows, SURVIVAL, s.survival.value, s.survival.value >= 0.0)
    && ReachesControllers(rows, NEGATED_STALE, -stale, stale <= 1.0) && stale <= 0.25
    && ReachesControllers(rows, NEGATED_CADENCE, -cadence, cadence <= 1.0)
    && s.path.Some? && ReachesControllers(rows, PATH, s.path.value, true)
  }

  /**
    Survives a quarter of the time, is stale and blocked at most a quarter, on a path no worse
    than the controllers'.
  */
  ghost predicate Steady(rows: seq<Subject>, s: Subject) {
    && s.survival.Some? && s.survival.value >= 0.25
    && s.stale.GetOr(1.0) <= 0.25 && s.cadence.GetOr(1.0) <= 0.25
    && s.path.Some? && ReachesControllers(rows, PATH, s.path.value, true)
  }

  /**
    Survives no worse than the controllers, or as a family subject 15 percent of the time, on a
    path that is not losing.
  */
  ghost predicate WorthShadowing(rows: seq<Subject>, s: Subject) {
    && s.survival.Some? && s.path.Some? && s.path.value >= 0.0
    && (ReachesControllers(rows, SURVIVAL, s.survival.value, s.survival.value >= 0.0)
        || (FamilyPlace(s.name) < 7 && s.survival.value >= 0.15))
  }

  lemma BarsReached(rows: seq<Subject>, s: Subject)
    ensures BeatsControllers(s, BarsOf(rows)) <==> BeatsAll(rows, s)
    ensures SteadyProbe(s, BarsOf(rows)) <==> Steady(rows, s)
    ensures Clears(s.survival, BarsOf(rows).survival)
       <==> s.survival.Some? && ReachesControllers(rows, SURVIVAL, s.survival.value, s.survival.value >= 0.0)
  {
    ClearsBarIff(rows, SURVIVAL, At(0.0), s.survival);
    ClearsBarIff(rows, NEGATED_STALE, At(-1.0), Some(-s.stale.GetOr(1.0)));
    ClearsBarIff(rows, NEGATED_CADENCE, At(-1.0), Some(-s.cadence.GetOr(1.0)));
    ClearsBarIff(rows, PATH, NoBar, s.path);
    hide BarOf, ReachesControllers, SURVIVAL, PATH, NEGATED_STALE, NEGATED_CADENCE;
  }

  /** What a subject is recommended for, from its own cells and the controllers'. */
  lemma RecommendIs(rows: seq<Subject>, s: Subject)
    ensures Recommend(s, BarsOf(rows))
         == if s.kind == "controller" then LockedBaseline
            else if s.standardTrades <= 0 || s.replayTrades <= 0 then Bench
            else if FamilyPlace(s.name) < 7 && (BeatsAll(rows, s) || Steady(rows, s)) then LiveProbe
            else if s.name == "inversion" || WorthShadowing(rows, s) then ShadowOnly
            else Bench
  {
    BarsReached(rows, s);
    FamilyPlaceIs(s);
    hide BarsOf, BeatsControllers, SteadyProbe, BeatsAll, Steady, Priority, FamilyPlace, ReachesControllers;
  }
}
