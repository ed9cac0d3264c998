/**
  The waterfall that shares a position among the plan's strategies: resting sells fill the
  strategies in order, the first one not yet full owns the next slice, and the target size is
  what that slice still lacks.
*/
module Waterfall {
  import opened Wrappers
  import opened Ordering
  import opened Plans

  /** What the strategies are matched against. */
  datatype Query = Query(token: string, outcome: string, period: Option<int>)

  // ----- ordering of the matching strategies -----

  predicate OutsideAllowed(allowed: Option<seq<Option<int>>>, period: int) {
    && allowed.Some?
    && (exists p :: p in allowed.value && p.Some?)
    && Some(period) !in allowed.value
  }

  /** 0 inside the strategy's period gate, 1 without a gate or a known period, 2 outside it. */
  function PeriodRank(gate: PeriodGate, period: Option<int>): (rank: int)
    ensures 0 <= rank <= 2
  {
    if period.None? then 1
    else if !(gate.allowed.Some? && gate.allowed.value != []) && gate.first.None? && gate.last.None? then 1
    else if OutsideAllowed(gate.allowed, period.value) then 2
    else if gate.first.Some? && period.value < gate.first.value then 2
    else if gate.last.Some? && period.value > gate.last.value then 2
    else 0
  }

  datatype Match = Match(shadow: bool, rank: int, index: nat, strategy: Strategy)

  /** Live before shadow, then by period rank, then the latest plan entry first. */
  function MatchKey(m: Match): Key {
    [Whole(if m.shadow then 1 else 0), Whole(m.rank), Whole(0 - m.index as int)]
  }

  function MatchAt(ss: seq<Strategy>, q: Query, i: nat): Match
    requires i < |ss|
  {
    Match(ss[i].shadowOnly, PeriodRank(ss[i].entry.periods, q.period), i, ss[i])
  }

  /** The matching strategies in plan order. */
  function Matches(ss: seq<Strategy>, q: Query, n: nat): (ms: seq<Match>)
    requires n <= |ss|
    ensures forall m :: m in ms ==> m.index < n && m == MatchAt(ss, q, m.index)
  {
    if n == 0 then []
    else
      Matches(ss, q, n - 1)
      + (if MatchesToken(ss[n - 1].entry, q.token, q.outcome) then [MatchAt(ss, q, n - 1)] else [])
  }

  function Ranked(ss: seq<Strategy>, q: Query): seq<Match> {
    SortBy(Matches(ss, q, |ss|), MatchKey)
  }

  function StrategiesOf(ms: seq<Match>): (r: seq<Strategy>)
    ensures |r| == |ms|
    ensures forall i :: 0 <= i < |ms| ==> r[i] == ms[i].strategy
  {
    seq(|ms|, i requires 0 <= i < |ms| => ms[i].strategy)
  }

  function PositionStrategies(ss: seq<Strategy>, q: Query): seq<Strategy> {
    StrategiesOf(Ranked(ss, q))
  }

  method PositionStrategiesFromPlan(ss: seq<Strategy>, q: Query) returns (r: seq<Strategy>)
    ensures r == PositionStrategies(ss, q)
  {
    var matches: seq<Match> := [];
    for i := 0 to |ss|
      invariant matches == Matches(ss, q, i)
    {
      if MatchesToken(ss[i].entry, q.token, q.outcome) {
        matches := matches + [Match(ss[i].shadowOnly, PeriodRank(ss[i].entry.periods, q.period), i, ss[i])];
      }
    }
    var ordered := SortBy(matches, MatchKey);
    r := StrategiesOf(ordered);
  }

  lemma CountConcat<T>(a: seq<T>, b: seq<T>, x: T)
    ensures multiset(a + b)[x] == multiset(a)[x] + multiset(b)[x]
  {
  }

  function MatchRow(ss: seq<Strategy>, q: Query, i: nat): seq<Match>
    requires i < |ss|
  {
    if MatchesToken(ss[i].entry, q.token, q.outcome) then [MatchAt(ss, q, i)] else []
  }

  lemma MatchesStep(ss: seq<Strategy>, q: Query, n: nat, i: nat)
    requires n < |ss| && i < |ss|
    ensures Matches(ss, q, n + 1) == Matches(ss, q, n) + MatchRow(ss, q, n)
    ensures i != n ==> MatchAt(ss, q, i) !in MatchRow(ss, q, n)
    ensures i >= n ==> MatchAt(ss, q, i) !in Matches(ss, q, n)
  {
    hide PeriodRank, MatchesToken;
  }

  lemma MatchesStart(ss: seq<Strategy>, q: Query)
    ensures Matches(ss, q, 0) == []
  {
  }

  /** Every matching plan entry is listed once, and no other. */
  lemma {:induction false} MatchesComplete(ss: seq<Strategy>, q: Query, n: nat, i: nat)
    requires i < n <= |ss|
    ensures multiset(Matches(ss, q, n))[MatchAt(ss, q, i)] == multiset(MatchRow(ss, q, i))[MatchAt(ss, q, i)]
  {
    hide *;
    MatchesStep(ss, q, n - 1, i);
    CountConcat(Matches(ss, q, n - 1), MatchRow(ss, q, n - 1), MatchAt(ss, q, i));
    if i < n - 1 {
      MatchesComplete(ss, q, n - 1, i);
    }
  }

  lemma MatchKeyOrder(a: Match, b: Match)
    requires KeyLe(MatchKey(a), MatchKey(b))
    ensures !a.shadow || b.shadow
    ensures a.shadow == b.shadow ==> a.rank <= b.rank
    ensures a.shadow == b.shadow && a.rank == b.rank ==> a.index >= b.index
  {
    var x, y := MatchKey(a), MatchKey(b);
    assert x[1..][0] == x[1] && y[1..][0] == y[1];
    if x[0] == y[0] && x[1] == y[1] {
      assert KeyLe(x[1..], y[1..]) && KeyLe(x[1..][1..], y[1..][1..]);
      assert x[1..][1..][0] == x[2] && y[1..][1..][0] == y[2];
    }
  }

  /**
    The ordering is a permutation of exactly the matching plan entries, each once; live
    strategies come before shadow ones, better period ranks first, and among equals the later
    plan entry wins.
  */
  lemma RankedIsSortedPermutation(ss: seq<Strategy>, q: Query)
    ensures forall i :: 0 <= i < |ss| ==>
              multiset(Ranked(ss, q))[MatchAt(ss, q, i)]
              == if MatchesToken(ss[i].entry, q.token, q.outcome) then 1 else 0
    ensures forall m :: m in Ranked(ss, q) ==> m.index < |ss| && m == MatchAt(ss, q, m.index)
    ensures forall i, j :: 0 <= i < j < |Ranked(ss, q)| ==>
              var a, b := Ranked(ss, q)[i], Ranked(ss, q)[j];
              || (!a.shadow && b.shadow)
              || (a.shadow == b.shadow && a.rank < b.rank)
              || (a.shadow == b.shadow && a.rank == b.rank && a.index >= b.index)
  {
    var ms := Matches(ss, q, |ss|);
    forall i | 0 <= i < |ss|
      ensures multiset(Ranked(ss, q))[MatchAt(ss, q, i)]
           == if MatchesToken(ss[i].entry, q.token, q.outcome) then 1 else 0
    {
      MatchesComplete(ss, q, |ss|, i);
    }
    forall m | m in Ranked(ss, q)
      ensures m.index < |ss| && m == MatchAt(ss, q, m.index)
    {
      assert m in multiset(ms);
    }
    SortBySorted(ms, MatchKey);
    forall i, j | 0 <= i < j < |Ranked(ss, q)|
      ensures var a, b := Ranked(ss, q)[i], Ranked(ss, q)[j];
              || (!a.shadow && b.shadow)
              || (a.shadow == b.shadow && a.rank < b.rank)
              || (a.shadow == b.shadow && a.rank == b.rank && a.index >= b.index)
    {
      MatchKeyOrder(Ranked(ss, q)[i], Ranked(ss, q)[j]);
    }
  }

  // ----- picking the strategy that owns the next slice -----

  predicate Sized(s: Strategy) { EntrySize(s).Some? && EntrySize(s).value > 0 }

  function SizeOf(s: Strategy): int
    requires Sized(s)
  {
    EntrySize(s).value
  }

  /** Combined entry size of the first `k` strategies. */
  function Prefix(ms: seq<Strategy>, k: nat): int
    requires k <= |ms| && forall i :: 0 <= i < k ==> Sized(ms[i])
  {
    if k == 0 then 0 else Prefix(ms, k - 1) + SizeOf(ms[k - 1])
  }

  /** `k` is the first strategy with no entry size or with room left after `covered`; the last one if all are full. */
  ghost predicate OwnsNextSlice(ms: seq<Strategy>, covered: int, k: nat) {
    && k < |ms|
    && (forall i :: 0 <= i < k ==> Sized(ms[i]))
    && (forall i :: 0 <= i <= k ==> Prefix(ms, i) <= covered)
    && (k == |ms| - 1 || !Sized(ms[k]) || covered < Prefix(ms, k + 1))
  }

  function PickFrom(ms: seq<Strategy>, covered: int, k: nat): (r: nat)
    requires k < |ms|
    ensures k <= r < |ms|
    decreases |ms| - k
  {
    if !Sized(ms[k]) || covered < SizeOf(ms[k]) || k == |ms| - 1 then k
    else PickFrom(ms, covered - SizeOf(ms[k]), k + 1)
  }

  function Pick(ms: seq<Strategy>, openSells: int): (r: nat)
    requires ms != []
    ensures r < |ms|
  {
    PickFrom(ms, Max(0, openSells), 0)
  }

  lemma {:induction false} PrefixMonotone(ms: seq<Strategy>, i: nat, j: nat)
    requires i <= j <= |ms| && forall x :: 0 <= x < j ==> Sized(ms[x])
    ensures Prefix(ms, i) <= Prefix(ms, j)
    ensures i < j ==> Prefix(ms, i) < Prefix(ms, j)
  {
    if i < j {
      PrefixMonotone(ms, i, j - 1);
    }
  }

  /** A strategy's entry size, nothing when it has none. */
  function EntryOf(s: Strategy): int { if Sized(s) then SizeOf(s) else 0 }

  function SumMatches(ms: seq<Match>): int {
    if ms == [] then 0 else EntryOf(ms[0].strategy) + SumMatches(ms[1..])
  }

  lemma {:induction false} SumMatchesAppend(a: seq<Match>, b: seq<Match>)
    ensures SumMatches(a + b) == SumMatches(a) + SumMatches(b)
  {
    hide EntryOf;
    if a == [] {
      assert a + b == b;
    } else {
      assert (a + b)[1..] == a[1..] + b;
      SumMatchesAppend(a[1..], b);
    }
  }

  lemma {:induction false} InsertKeepsEntries(m: Match, ms: seq<Match>)
    ensures SumMatches(Insert(m, ms, MatchKey)) == EntryOf(m.strategy) + SumMatches(ms)
  {
    hide EntryOf, MatchKey, KeyLe;
    if ms != [] && !KeyLe(MatchKey(m), MatchKey(ms[0])) {
      InsertKeepsEntries(m, ms[1..]);
    }
  }

  lemma {:induction false} SortKeepsEntries(ms: seq<Match>)
    ensures SumMatches(SortBy(ms, MatchKey)) == SumMatches(ms)
  {
    hide EntryOf, MatchKey, Insert;
    if ms != [] {
      SortKeepsEntries(ms[1..]);
      InsertKeepsEntries(ms[0], SortBy(ms[1..], MatchKey));
    }
  }

  lemma RowEntries(ss: seq<Strategy>, q: Query, r: Query, i: nat)
    requires i < |ss| && q.token == r.token && q.outcome == r.outcome
    ensures SumMatches(MatchRow(ss, q, i)) == SumMatches(MatchRow(ss, r, i))
  {
    hide EntryOf, MatchesToken, PeriodRank;
  }

  lemma {:induction false} MatchesKeepEntries(ss: seq<Strategy>, q: Query, r: Query, n: nat)
    requires n <= |ss| && q.token == r.token && q.outcome == r.outcome
    ensures SumMatches(Matches(ss, q, n)) == SumMatches(Matches(ss, r, n))
  {
    hide *;
    if n == 0 {
      MatchesStart(ss, q);
      MatchesStart(ss, r);
    } else {
      MatchesKeepEntries(ss, q, r, n - 1);
      MatchesStep(ss, q, n - 1, n - 1);
      MatchesStep(ss, r, n - 1, n - 1);
      SumMatchesAppend(Matches(ss, q, n - 1), MatchRow(ss, q, n - 1));
      SumMatchesAppend(Matches(ss, r, n - 1), MatchRow(ss, r, n - 1));
      RowEntries(ss, q, r, n - 1);
    }
  }

  lemma {:induction false} PrefixIsSum(ms: seq<Match>, k: nat)
    requires k <= |ms| && forall i :: 0 <= i < |ms| ==> Sized(ms[i].strategy)
    ensures Prefix(StrategiesOf(ms), k) == SumMatches(ms[..k])
  {
    hide Sized;
    if k > 0 {
      PrefixIsSum(ms, k - 1);
      assert ms[..k] == ms[..k - 1] + [ms[k - 1]];
      SumMatchesAppend(ms[..k - 1], [ms[k - 1]]);
    }
  }

  lemma TotalOfMatches(ss: seq<Strategy>, q: Query)
    requires forall i :: 0 <= i < |PositionStrategies(ss, q)| ==> Sized(PositionStrategies(ss, q)[i])
    ensures Prefix(PositionStrategies(ss, q), |PositionStrategies(ss, q)|) == SumMatches(Matches(ss, q, |ss|))
  {
    hide Sized, Prefix, SumMatches, Matches, SortBy;
    var ranked := Ranked(ss, q);
    forall i | 0 <= i < |ranked|
      ensures Sized(ranked[i].strategy)
    {
      assert PositionStrategies(ss, q)[i] == ranked[i].strategy;
    }
    PrefixIsSum(ranked, |ranked|);
    assert ranked[..|ranked|] == ranked;
    SortKeepsEntries(Matches(ss, q, |ss|));
  }

  /** The combined entry size of all matching strategies does not depend on the period that ranks them. */
  lemma TotalIgnoresPeriod(ss: seq<Strategy>, q: Query, r: Query)
    requires q.token == r.token && q.outcome == r.outcome
    requires forall i :: 0 <= i < |PositionStrategies(ss, q)| ==> Sized(PositionStrategies(ss, q)[i])
    requires forall i :: 0 <= i < |PositionStrategies(ss, r)| ==> Sized(PositionStrategies(ss, r)[i])
    ensures Prefix(PositionStrategies(ss, q), |PositionStrategies(ss, q)|)
         == Prefix(PositionStrategies(ss, r), |PositionStrategies(ss, r)|)
  {
    hide *;
    TotalOfMatches(ss, q);
    TotalOfMatches(ss, r);
    MatchesKeepEntries(ss, q, r, |ss|);
  }

  lemma {:induction false} PickFromOwns(ms: seq<Strategy>, covered: int, k: nat)
    requires k < |ms| && forall i :: 0 <= i < k ==> Sized(ms[i])
    requires forall i :: 0 <= i <= k ==> Prefix(ms, i) <= covered
    ensures OwnsNextSlice(ms, covered, PickFrom(ms, covered - Prefix(ms, k), k))
    decreases |ms| - k
  {
    var left := covered - Prefix(ms, k);
    if Sized(ms[k]) {
      assert Prefix(ms, k + 1) == Prefix(ms, k) + SizeOf(ms[k]);
    }
    if !(!Sized(ms[k]) || left < SizeOf(ms[k]) || k == |ms| - 1) {
      PickFromOwns(ms, covered, k + 1);
    }
  }

  lemma OwnerUnique(ms: seq<Strategy>, covered: int, j: nat, k: nat)
    requires OwnsNextSlice(ms, covered, j) && OwnsNextSlice(ms, covered, k)
    ensures j == k
  {
    var next := Min(j, k) + 1;
    assert j != k ==> next <= Max(j, k);
  }

  /** The picked strategy is the one and only owner of the next slice. */
  lemma PickIsOwner(ms: seq<Strategy>, openSells: int, k: nat)
    requires ms != []
    ensures OwnsNextSlice(ms, Max(0, openSells), k) <==> k == Pick(ms, openSells)
  {
    var covered := Max(0, openSells);
    PickFromOwns(ms, covered, 0);
    if OwnsNextSlice(ms, covered, k) {
      OwnerUnique(ms, covered, k, Pick(ms, openSells));
    }
  }

  /** Index of the strategy owning the next slice; without a sell size, the first match. */
  function PickedIndex(ms: seq<Strategy>, openSells: Option<int>): Option<nat> {
    if ms == [] then None
    else if openSells.None? then Some(0)
    else Some(Pick(ms, openSells.value))
  }

  method PickStrategy(ms: seq<Strategy>, openSells: Option<int>) returns (picked: Option<nat>)
    ensures picked == PickedIndex(ms, openSells)
  {
    if ms == [] {
      return None;
    }
    if openSells.None? {
      return Some(0);
    }
    var covered := Max(0, openSells.value);
    for i := 0 to |ms|
      invariant i < |ms| ==> Pick(ms, openSells.value) == PickFrom(ms, covered, i)
      invariant i == |ms| ==> Pick(ms, openSells.value) == |ms| - 1
    {
      var size := EntrySize(ms[i]);
      if size.None? || size.value <= 0 {
        return Some(i);
      }
      if covered >= size.value {
        covered := covered - size.value;
        continue;
      }
      return Some(i);
    }
    return Some(|ms| - 1);
  }

  // ----- how much the owner still lacks -----

  /** `c` is the picked strategy itself or carries its identifier. */
  predicate SameStrategy(ms: seq<Strategy>, picked: nat, c: nat)
    requires picked < |ms| && c < |ms|
  {
    c == picked || (ms[picked].id != "" && ms[c].id == ms[picked].id)
  }

  function SliceSize(s: Strategy, owner: Strategy, uncovered: int, covered: int): int {
    if !Sized(s) then uncovered
    else
      var remaining := Max(0, SizeOf(s) - Min(Max(0, covered), SizeOf(s)));
      if remaining <= 0 && uncovered > 0 && owner.exit.coverExcess then uncovered
      else Min(uncovered, remaining)
  }

  function SizeFrom(ms: seq<Strategy>, picked: nat, uncovered: int, covered: int, i: nat): int
    requires picked < |ms| && i <= picked
    decreases |ms| - i
  {
    if SameStrategy(ms, picked, i) then SliceSize(ms[i], ms[picked], uncovered, covered)
    else SizeFrom(ms, picked, uncovered, if Sized(ms[i]) then Max(0, covered - SizeOf(ms[i])) else covered, i + 1)
  }

  function TargetSize(ms: seq<Strategy>, picked: Option<nat>, uncovered: int, openSells: int): int
    requires picked.Some? ==> picked.value < |ms|
  {
    if picked.None? then uncovered
    else SizeFrom(ms, picked.value, uncovered, Max(0, openSells), 0)
  }

  method PositionTargetSize(ms: seq<Strategy>, picked: Option<nat>, uncovered: int, openSells: int) returns (size: int)
    requires picked.Some? ==> picked.value < |ms|
    ensures size == TargetSize(ms, picked, uncovered, openSells)
  {
    if picked.None? {
      return uncovered;
    }
    var k := picked.value;
    var covered := Max(0, openSells);
    for i := 0 to |ms|
      invariant i <= k
      invariant TargetSize(ms, picked, uncovered, openSells) == SizeFrom(ms, k, uncovered, covered, i)
    {
      var entry := EntrySize(ms[i]);
      if i == k || (ms[k].id != "" && ms[i].id == ms[k].id) {
        if entry.None? || entry.value <= 0 {
          return uncovered;
        }
        var within := Min(Max(0, covered), entry.value);
        var remaining := Max(0, entry.value - within);
        if remaining <= 0 && uncovered > 0 && ms[k].exit.coverExcess {
          return uncovered;
        }
        return Min(uncovered, remaining);
      }
      if entry.Some? && entry.value > 0 {
        covered := Max(0, covered - entry.value);
      }
    }
  }

  /** A slice never exceeds what is uncovered, whatever the plan says. */
  lemma {:induction false} SizeFromBounded(ms: seq<Strategy>, picked: nat, uncovered: int, covered: int, i: nat)
    requires picked < |ms| && i <= picked && uncovered >= 0
    ensures 0 <= SizeFrom(ms, picked, uncovered, covered, i) <= uncovered
    decreases |ms| - i
  {
    if !SameStrategy(ms, picked, i) {
      SizeFromBounded(ms, picked, uncovered, if Sized(ms[i]) then Max(0, covered - SizeOf(ms[i])) else covered, i + 1);
    }
  }

  lemma TargetSizeBounded(ms: seq<Strategy>, picked: Option<nat>, uncovered: int, openSells: int)
    requires picked.Some? ==> picked.value < |ms|
    requires uncovered >= 0
    ensures 0 <= TargetSize(ms, picked, uncovered, openSells) <= uncovered
  {
    if picked.Some? {
      SizeFromBounded(ms, picked.value, uncovered, Max(0, openSells), 0);
    }
  }

  /** No strategy before `k` in waterfall order carries `k`'s identifier. */
  predicate FirstOfItsId(ms: seq<Strategy>, k: nat)
    requires k < |ms|
  {
    ms[k].id == "" || forall i :: 0 <= i < k ==> ms[i].id != ms[k].id
  }

  /** What the owner's slice should be, read off the prefix sums. */
  ghost function Slice(ms: seq<Strategy>, covered: int, uncovered: int, k: nat): int
    requires OwnsNextSlice(ms, covered, k)
  {
    if !Sized(ms[k]) then uncovered
    else if Prefix(ms, k + 1) <= covered then (if ms[k].exit.coverExcess then uncovered else 0)
    else Min(uncovered, Prefix(ms, k + 1) - covered)
  }

  lemma {:induction false} SizeFromPrefix(ms: seq<Strategy>, covered: int, uncovered: int, k: nat, i: nat, stop: nat)
    requires OwnsNextSlice(ms, covered, k) && i <= stop <= k && covered >= 0
    requires SameStrategy(ms, k, stop) && forall j :: 0 <= j < stop ==> !SameStrategy(ms, k, j)
    ensures Prefix(ms, i) <= covered
    ensures SizeFrom(ms, k, uncovered, covered - Prefix(ms, i), i)
         == SliceSize(ms[stop], ms[k], uncovered, covered - Prefix(ms, stop))
    decreases stop - i
  {
    if i < stop {
      assert Prefix(ms, i + 1) == Prefix(ms, i) + SizeOf(ms[i]);
      SizeFromPrefix(ms, covered, uncovered, k, i + 1, stop);
    }
  }

  /**
    The two waterfall loops agree.  When no earlier match shares the owner's identifier the
    target size is the owner's slice: what its prefix sum leaves above the covered size, capped
    by the uncovered size; the whole uncovered size when it has no entry size; nothing when all
    strategies are full, unless the excess flag hands it everything.
  */
  lemma WaterfallLoopsAgree(ms: seq<Strategy>, openSells: int, uncovered: int)
    requires ms != [] && uncovered >= 0
    requires FirstOfItsId(ms, Pick(ms, openSells))
    ensures OwnsNextSlice(ms, Max(0, openSells), Pick(ms, openSells))
    ensures TargetSize(ms, Some(Pick(ms, openSells)), uncovered, openSells)
         == Slice(ms, Max(0, openSells), uncovered, Pick(ms, openSells))
  {
    var k := Pick(ms, openSells);
    var covered := Max(0, openSells);
    PickIsOwner(ms, openSells, k);
    SizeFromPrefix(ms, covered, uncovered, k, 0, k);
    if Sized(ms[k]) {
      assert Prefix(ms, k + 1) == Prefix(ms, k) + SizeOf(ms[k]);
    }
  }

  lemma FirstDuplicate(ms: seq<Strategy>, k: nat) returns (j: nat)
    requires k < |ms| && !FirstOfItsId(ms, k)
    ensures j < k && SameStrategy(ms, k, j) && forall i :: 0 <= i < j ==> !SameStrategy(ms, k, i)
  {
    j :| 0 <= j < k && ms[j].id == ms[k].id;
    while exists i :: 0 <= i < j && ms[i].id == ms[k].id
      invariant j < k && ms[j].id == ms[k].id
      decreases j
    {
      var i :| 0 <= i < j && ms[i].id == ms[k].id;
      j := i;
    }
  }

  /** Every matching strategy is already covered by resting sells. */
  ghost predicate AllFull(ms: seq<Strategy>, covered: int, k: nat)
    requires OwnsNextSlice(ms, covered, k)
  {
    Sized(ms[k]) && Prefix(ms, k + 1) <= covered
  }

  /** With a duplicated identifier the size loop stops at the earlier, already full strategy. */
  lemma DuplicateIdStarvesOwner(ms: seq<Strategy>, openSells: int, uncovered: int)
    requires ms != [] && uncovered >= 0
    requires !FirstOfItsId(ms, Pick(ms, openSells))
    ensures var k := Pick(ms, openSells);
            TargetSize(ms, Some(k), uncovered, openSells) == if ms[k].exit.coverExcess then uncovered else 0
  {
    var k := Pick(ms, openSells);
    var covered := Max(0, openSells);
    PickIsOwner(ms, openSells, k);
    var j := FirstDuplicate(ms, k);
    SizeFromPrefix(ms, covered, uncovered, k, 0, j);
    assert Prefix(ms, j + 1) == Prefix(ms, j) + SizeOf(ms[j]) <= covered;
  }

  /**
    Exactly when the loops agree, for every plan: when no earlier match shares the owner's
    identifier, when nothing is uncovered, when every strategy is full anyway, or when the excess
    flag asks for the whole uncovered size and the owner's slice is all of it.
  */
  lemma LoopsAgreeExactly(ms: seq<Strategy>, openSells: int, uncovered: int)
    requires ms != [] && uncovered >= 0
    ensures OwnsNextSlice(ms, Max(0, openSells), Pick(ms, openSells))
    ensures var k := Pick(ms, openSells);
            var covered := Max(0, openSells);
            TargetSize(ms, Some(k), uncovered, openSells) == Slice(ms, covered, uncovered, k)
            <==> || FirstOfItsId(ms, k)
                 || uncovered == 0
                 || AllFull(ms, covered, k)
                 || (ms[k].exit.coverExcess && (!Sized(ms[k]) || uncovered <= Prefix(ms, k + 1) - covered))
  {
    var k := Pick(ms, openSells);
    PickIsOwner(ms, openSells, k);
    if FirstOfItsId(ms, k) {
      WaterfallLoopsAgree(ms, openSells, uncovered);
    } else {
      DuplicateIdStarvesOwner(ms, openSells, uncovered);
    }
    hide TargetSize, Pick, OwnsNextSlice, Sized;
  }

  /** Two strategies of one identifier: the first is full, so the second owns five shares and gets none. */
  lemma DuplicateIdGetsNothing(s: Strategy)
    requires s.id != "" && EntrySize(s) == Some(5) && !s.exit.coverExcess
    ensures Pick([s, s], 5) == 1
    ensures TargetSize([s, s], Some(1), 5, 5) == 0
    ensures OwnsNextSlice([s, s], 5, 1) && Slice([s, s], 5, 5, 1) == 5
  {
    hide EntrySize;
    var ms := [s, s];
    assert PickFrom(ms, 5, 0) == PickFrom(ms, 0, 1) == 1;
    PickIsOwner(ms, 5, 1);
    assert Prefix(ms, 0) == 0 && Prefix(ms, 1) == 5 && Prefix(ms, 2) == 10;
    DuplicateIdStarvesOwner(ms, 5, 5);
  }

  // ----- the same in plain fields -----

  /**
    The period rank: 2 when the period is none of the allowed ones, below the first or above the
    last; otherwise 0 when the strategy has any gate and the period is known; else 1.
  */
  lemma PeriodRankIff(gate: PeriodGate, period: Option<int>)
    ensures var gated := (gate.allowed != None && gate.allowed != Some([])) || gate.first != None || gate.last != None;
            var outside := period.Some?
              && (|| (gate.allowed.Some? && (exists a :: a in gate.allowed.value && a.Some?)
                      && Some(period.value) !in gate.allowed.value)
                  || (gate.first.Some? && period.value < gate.first.value)
                  || (gate.last.Some? && period.value > gate.last.value));
            && (PeriodRank(gate, period) == 2 <==> outside)
            && (PeriodRank(gate, period) == 0 <==> gated && period.Some? && !outside)
            && (PeriodRank(gate, period) == 1 <==> !gated || period.None?)
  {
  }

  /**
    Of two ranked strategies the earlier one is live and the later shadow, or it ranks better, or
    it comes later in the plan.
  */
  lemma RankedPair(ss: seq<Strategy>, q: Query, i: nat, j: nat)
    requires i < j < |Ranked(ss, q)|
    ensures var a, b := Ranked(ss, q)[i], Ranked(ss, q)[j];
            && a.index < |ss| && b.index < |ss| && a.strategy == ss[a.index] && b.strategy == ss[b.index]
            && (ss[a.index].shadowOnly ==> ss[b.index].shadowOnly)
            && (ss[a.index].shadowOnly == ss[b.index].shadowOnly ==>
                  && PeriodRank(ss[a.index].entry.periods, q.period) <= PeriodRank(ss[b.index].entry.periods, q.period)
                  && (PeriodRank(ss[a.index].entry.periods, q.period) == PeriodRank(ss[b.index].entry.periods, q.period)
                      ==> a.index >= b.index))
  {
    RankedIsSortedPermutation(ss, q);
    hide Ranked, PeriodRank, MatchesToken;
  }
}
