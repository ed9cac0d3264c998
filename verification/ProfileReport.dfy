/**
  The profile report's accounting of closed positions: one flat pass, a grouping by event, and a
  grouping of the events by category.
*/
module ProfileReport {
  import opened Wrappers
  import opened Ordering

  /** A closed position; `key` is its event slug, slug or condition id, blank when it has none. */
  datatype Closed = Closed(key: string, pnl: real, bought: real, avgPrice: real)

  datatype Totals = Totals(closed: int, wins: int, losses: int, breakevens: int, pnl: real, cost: real)

  const ZERO := Totals(0, 0, 0, 0, 0.0, 0.0)

  function Add(a: Totals, b: Totals): Totals {
    Totals(a.closed + b.closed, a.wins + b.wins, a.losses + b.losses, a.breakevens + b.breakevens, a.pnl + b.pnl,
           a.cost + b.cost)
  }

  datatype EventRow = EventRow(key: string, totals: Totals)

  datatype CategoryRow = CategoryRow(category: string, events: int, totals: Totals)

  const TOLERANCE := 0.000000001

  function Cost(r: Closed): real { r.bought * r.avgPrice }

  /** One position's contribution to its event. */
  function RowTotals(r: Closed): Totals {
    Totals(1, if r.pnl > TOLERANCE then 1 else 0, if r.pnl < -TOLERANCE then 1 else 0,
           if -TOLERANCE <= r.pnl <= TOLERANCE then 1 else 0, r.pnl, Cost(r))
  }

  /** One event's contribution to its category; break-evens are not carried over. */
  function EventTotals(e: EventRow): Totals { e.totals.(breakevens := 0) }

  // ----- the flat pass -----

  datatype Stats = Stats(closed: int, nonzero: int, wins: int, losses: int, cost: real, pnl: real)

  function Nonzero(rows: seq<Closed>): seq<Closed> {
    if rows == [] then []
    else
      var n := |rows| - 1;
      Nonzero(rows[..n]) + (if Abs(rows[n].pnl) > TOLERANCE then [rows[n]] else [])
  }

  function CountWins(rows: seq<Closed>): int {
    if rows == [] then 0 else CountWins(rows[..|rows| - 1]) + (if rows[|rows| - 1].pnl > 0.0 then 1 else 0)
  }

  function CountLosses(rows: seq<Closed>): int {
    if rows == [] then 0 else CountLosses(rows[..|rows| - 1]) + (if rows[|rows| - 1].pnl < 0.0 then 1 else 0)
  }

  function SumCost(rows: seq<Closed>): real {
    if rows == [] then 0.0 else SumCost(rows[..|rows| - 1]) + Cost(rows[|rows| - 1])
  }

  function SumPnl(rows: seq<Closed>): real {
    if rows == [] then 0.0 else SumPnl(rows[..|rows| - 1]) + rows[|rows| - 1].pnl
  }

  function ClosedWinStats(rows: seq<Closed>): Stats {
    var nonzero := Nonzero(rows);
    Stats(|rows|, |nonzero|, CountWins(nonzero), CountLosses(nonzero), SumCost(rows), SumPnl(rows))
  }

  // ----- grouping -----

  function Total<T>(items: seq<T>, weight: T -> Totals): Totals {
    if items == [] then ZERO else Add(Total(items[..|items| - 1], weight), weight(items[|items| - 1]))
  }

  function GroupTotal<T>(items: seq<T>, key: T -> string, weight: T -> Totals, k: string): Totals {
    if items == [] then ZERO
    else
      var x := items[|items| - 1];
      var before := GroupTotal(items[..|items| - 1], key, weight, k);
      if key(x) == k then Add(before, weight(x)) else before
  }

  function GroupCount<T>(items: seq<T>, key: T -> string, k: string): int {
    if items == [] then 0
    else GroupCount(items[..|items| - 1], key, k) + (if key(items[|items| - 1]) == k then 1 else 0)
  }

  /** The keys in order of first appearance. */
  function GroupKeys<T>(items: seq<T>, key: T -> string): (ks: seq<string>)
    ensures forall i, j :: 0 <= i < j < |ks| ==> ks[i] != ks[j]
  {
    if items == [] then []
    else
      var before := GroupKeys(items[..|items| - 1], key);
      var k := key(items[|items| - 1]);
      if k in before then before else before + [k]
  }

  function SumGroups<T>(ks: seq<string>, items: seq<T>, key: T -> string, weight: T -> Totals): Totals {
    if ks == [] then ZERO
    else Add(SumGroups(ks[..|ks| - 1], items, key, weight), GroupTotal(items, key, weight, ks[|ks| - 1]))
  }

  lemma {:induction false} AbsentGroupEmpty<T>(items: seq<T>, key: T -> string, weight: T -> Totals, k: string)
    requires k !in GroupKeys(items, key)
    ensures GroupTotal(items, key, weight, k) == ZERO
  {
    if items != [] {
      AbsentGroupEmpty(items[..|items| - 1], key, weight, k);
    }
  }

  lemma AddLaws(a: Totals, b: Totals, c: Totals)
    ensures Add(a, b) == Add(b, a) && Add(a, ZERO) == a == Add(ZERO, a)
    ensures Add(Add(a, b), c) == Add(a, Add(b, c)) == Add(Add(a, c), b)
  {
  }

  lemma SumGroupsLast<T>(ks: seq<string>, items: seq<T>, key: T -> string, weight: T -> Totals)
    ensures ks == [] ==> SumGroups(ks, items, key, weight) == ZERO
    ensures ks != [] ==>
              SumGroups(ks, items, key, weight)
              == Add(SumGroups(ks[..|ks| - 1], items, key, weight), GroupTotal(items, key, weight, ks[|ks| - 1]))
  {
  }

  lemma GroupTotalLast<T>(items: seq<T>, key: T -> string, weight: T -> Totals, k: string)
    requires items != []
    ensures var n := |items| - 1;
            var before := GroupTotal(items[..n], key, weight, k);
            GroupTotal(items, key, weight, k) == if key(items[n]) == k then Add(before, weight(items[n])) else before
  {
  }

  /** One more item changes the sum over distinct keys by its weight, if its key is among them. */
  lemma {:induction false} SumGroupsStep<T>(ks: seq<string>, items: seq<T>, key: T -> string, weight: T -> Totals)
    requires items != [] && forall i, j :: 0 <= i < j < |ks| ==> ks[i] != ks[j]
    ensures var n := |items| - 1;
            SumGroups(ks, items, key, weight)
            == if key(items[n]) in ks then Add(SumGroups(ks, items[..n], key, weight), weight(items[n]))
               else SumGroups(ks, items[..n], key, weight)
  {
    if ks != [] {
      var m, n := |ks| - 1, |items| - 1;
      SumGroupsStep(ks[..m], items, key, weight);
      SumGroupsLast(ks, items, key, weight);
      SumGroupsLast(ks, items[..n], key, weight);
      GroupTotalLast(items, key, weight, ks[m]);
      hide *;
      AddLaws(SumGroups(ks[..m], items[..n], key, weight), GroupTotal(items[..n], key, weight, ks[m]),
              weight(items[n]));
    }
  }

  /** Grouping conserves totals: the groups add up to the whole. */
  lemma {:induction false} GroupsConserve<T>(items: seq<T>, key: T -> string, weight: T -> Totals)
    ensures SumGroups(GroupKeys(items, key), items, key, weight) == Total(items, weight)
  {
    if items != [] {
      var n := |items| - 1;
      var before := GroupKeys(items[..n], key);
      var k := key(items[n]);
      GroupsConserve(items[..n], key, weight);
      SumGroupsStep(before, items, key, weight);
      if k !in before {
        AbsentGroupEmpty(items[..n], key, weight, k);
        assert (before + [k])[..|before|] == before;
      }
    }
  }

  // ----- events -----

  const ROW_KEY: Closed -> string := (r: Closed) => r.key
  const ROW_WEIGHT: Closed -> Totals := (r: Closed) => RowTotals(r)
  const EVENT_WEIGHT: EventRow -> Totals := (e: EventRow) => EventTotals(e)

  function Keyed(rows: seq<Closed>): seq<Closed> {
    if rows == [] then []
    else Keyed(rows[..|rows| - 1]) + (if rows[|rows| - 1].key != "" then [rows[|rows| - 1]] else [])
  }

  function Unkeyed(rows: seq<Closed>): seq<Closed> {
    if rows == [] then []
    else Unkeyed(rows[..|rows| - 1]) + (if rows[|rows| - 1].key == "" then [rows[|rows| - 1]] else [])
  }

  function EventRows(ks: seq<string>, rows: seq<Closed>): (r: seq<EventRow>)
    ensures |r| == |ks|
    ensures forall i :: 0 <= i < |ks| ==> r[i] == EventRow(ks[i], GroupTotal(rows, ROW_KEY, ROW_WEIGHT, ks[i]))
  {
    seq(|ks|, i requires 0 <= i < |ks| => EventRow(ks[i], GroupTotal(rows, ROW_KEY, ROW_WEIGHT, ks[i])))
  }

  function Events(rows: seq<Closed>): seq<EventRow> {
    EventRows(GroupKeys(Keyed(rows), ROW_KEY), Keyed(rows))
  }

  /** The dictionary of groups and its keys in insertion order agree with the items seen so far. */
  ghost predicate Grouped<T>(
    items: seq<T>, key: T -> string, weight: T -> Totals, order: seq<string>, groups: map<string, Totals>) {
    && order == GroupKeys(items, key)
    && (forall k :: k in groups <==> k in order)
    && (forall k :: k in groups ==> groups[k] == GroupTotal(items, key, weight, k))
  }

  lemma GroupedStep<T>(
    items: seq<T>, x: T, key: T -> string, weight: T -> Totals, order: seq<string>, groups: map<string, Totals>)
    requires Grouped(items, key, weight, order, groups)
    ensures var k := key(x);
            var before := if k in groups then groups[k] else ZERO;
            Grouped(items + [x], key, weight, if k in groups then order else order + [k],
                    groups[k := Add(before, weight(x))])
  {
    var k := key(x);
    assert (items + [x])[..|items|] == items;
    if k !in groups { AbsentGroupEmpty(items, key, weight, k); }
  }

  method AggregateEvents(rows: seq<Closed>) returns (events: seq<EventRow>)
    ensures events == Events(rows)
  {
    var order: seq<string> := [];
    var grouped: map<string, Totals> := map[];
    for i := 0 to |rows|
      invariant Grouped(Keyed(rows[..i]), ROW_KEY, ROW_WEIGHT, order, grouped)
    {
      var row := rows[i];
      assert rows[..i + 1][..i] == rows[..i];
      if row.key == "" {
        assert Keyed(rows[..i + 1]) == Keyed(rows[..i]);
        continue;
      }
      GroupedStep(Keyed(rows[..i]), row, ROW_KEY, ROW_WEIGHT, order, grouped);
      hide Grouped, RowTotals, Add;
      var entry := if row.key in grouped then grouped[row.key] else ZERO;
      if row.key !in grouped {
        order := order + [row.key];
      }
      grouped := grouped[row.key := Add(entry, RowTotals(row))];
    }
    assert rows[..|rows|] == rows;
    events := seq(|order|, i requires 0 <= i < |order| => EventRow(order[i], grouped[order[i]]));
  }

  // ----- categories -----

  /** `categoryOf` stands for the event's metadata or, without any, the inferred category. */
  function CategoryKey(categoryOf: string -> string): EventRow -> string { (e: EventRow) => categoryOf(e.key) }

  function CategoryRows(ks: seq<string>, events: seq<EventRow>, categoryOf: string -> string): (r: seq<CategoryRow>)
    ensures |r| == |ks|
    ensures forall i :: 0 <= i < |ks| ==>
              r[i] == CategoryRow(ks[i], GroupCount(events, CategoryKey(categoryOf), ks[i]),
                                  GroupTotal(events, CategoryKey(categoryOf), EVENT_WEIGHT, ks[i]))
  {
    seq(|ks|, i requires 0 <= i < |ks| =>
      CategoryRow(ks[i], GroupCount(events, CategoryKey(categoryOf), ks[i]),
                  GroupTotal(events, CategoryKey(categoryOf), EVENT_WEIGHT, ks[i])))
  }

  function BySize(c: CategoryRow): Key { [Descending(Some(Abs(c.totals.pnl)))] }

  function Mix(events: seq<EventRow>, categoryOf: string -> string): seq<CategoryRow> {
    SortBy(CategoryRows(GroupKeys(events, CategoryKey(categoryOf)), events, categoryOf), BySize)
  }

  method CategoryMix(events: seq<EventRow>, categoryOf: string -> string) returns (mix: seq<CategoryRow>)
    ensures mix == Mix(events, categoryOf)
  {
    var key := CategoryKey(categoryOf);
    var order: seq<string> := [];
    var buckets: map<string, Totals> := map[];
    var counts: map<string, int> := map[];
    for i := 0 to |events|
      invariant Grouped(events[..i], key, EVENT_WEIGHT, order, buckets)
      invariant forall k :: k in counts <==> k in buckets
      invariant forall k :: k in counts ==> counts[k] == GroupCount(events[..i], key, k)
    {
      hide GroupKeys, GroupTotal, Total;
      var row := events[i];
      var category := categoryOf(row.key);
      CountStep(events, i, key);
      if category !in buckets { UncountedGroup(events[..i], key, EVENT_WEIGHT, order, buckets, category); }
      GroupedStep(events[..i], row, key, EVENT_WEIGHT, order, buckets);
      assert events[..i + 1] == events[..i] + [row];
      hide Grouped, EventTotals, Add, GroupCount;
      var bucket := if category in buckets then buckets[category] else ZERO;
      var count := if category in counts then counts[category] else 0;
      if category !in buckets {
        order := order + [category];
      }
      buckets := buckets[category := Add(bucket, EventTotals(row))];
      counts := counts[category := count + 1];
    }
    assert events[..|events|] == events;
    var rows := seq(|order|, i requires 0 <= i < |order| => CategoryRow(order[i], counts[order[i]], buckets[order[i]]));
    assert rows == CategoryRows(order, events, categoryOf);
    mix := SortBy(rows, BySize);
  }

  lemma CountStep<T>(items: seq<T>, i: nat, key: T -> string)
    requires i < |items|
    ensures forall k ::
              GroupCount(items[..i + 1], key, k)
              == GroupCount(items[..i], key, k) + (if key(items[i]) == k then 1 else 0)
  {
    assert items[..i + 1][..i] == items[..i];
  }

  lemma {:induction false} AbsentUncounted<T>(items: seq<T>, key: T -> string, k: string)
    requires k !in GroupKeys(items, key)
    ensures GroupCount(items, key, k) == 0
  {
    if items != [] {
      AbsentUncounted(items[..|items| - 1], key, k);
    }
  }

  lemma UncountedGroup<T>(
    items: seq<T>, key: T -> string, weight: T -> Totals, order: seq<string>, groups: map<string, Totals>, k: string)
    requires Grouped(items, key, weight, order, groups) && k !in groups
    ensures GroupCount(items, key, k) == 0
  {
    AbsentUncounted(items, key, k);
  }

  /** The mix is a permutation of the categories' rows, largest profit or loss first. */
  lemma MixBySize(events: seq<EventRow>, categoryOf: string -> string)
    ensures var mix := Mix(events, categoryOf);
            && multiset(mix) == multiset(CategoryRows(GroupKeys(events, CategoryKey(categoryOf)), events, categoryOf))
            && forall i, j :: 0 <= i < j < |mix| ==> Abs(mix[i].totals.pnl) >= Abs(mix[j].totals.pnl)
  {
    hide GroupKeys, CategoryRows, SortBy, CategoryKey;
    SortBySorted(CategoryRows(GroupKeys(events, CategoryKey(categoryOf)), events, categoryOf), BySize);
  }

  // ----- reconciliation -----

  function SumEvents(es: seq<EventRow>): Totals {
    if es == [] then ZERO else Add(SumEvents(es[..|es| - 1]), es[|es| - 1].totals)
  }

  function SumCategories(cs: seq<CategoryRow>): Totals {
    if cs == [] then ZERO else Add(SumCategories(cs[..|cs| - 1]), cs[|cs| - 1].totals)
  }

  lemma SumEventsAppend(es: seq<EventRow>, e: EventRow)
    ensures SumEvents(es + [e]) == Add(SumEvents(es), e.totals)
  {
    hide Add;
    assert (es + [e])[..|es|] == es;
  }

  lemma SumCategoriesAppend(cs: seq<CategoryRow>, c: CategoryRow)
    ensures SumCategories(cs + [c]) == Add(SumCategories(cs), c.totals)
  {
    hide Add;
    assert (cs + [c])[..|cs|] == cs;
  }

  lemma EventRowsStep(ks: seq<string>, rows: seq<Closed>)
    requires ks != []
    ensures var m := |ks| - 1;
            EventRows(ks, rows)
            == EventRows(ks[..m], rows) + [EventRow(ks[m], GroupTotal(rows, ROW_KEY, ROW_WEIGHT, ks[m]))]
  {
    hide GroupTotal, ROW_KEY, ROW_WEIGHT;
  }

  lemma CategoryRowsStep(ks: seq<string>, events: seq<EventRow>, categoryOf: string -> string)
    requires ks != []
    ensures var m := |ks| - 1;
            CategoryRows(ks, events, categoryOf)
            == CategoryRows(ks[..m], events, categoryOf)
               + [CategoryRow(ks[m], GroupCount(events, CategoryKey(categoryOf), ks[m]),
                              GroupTotal(events, CategoryKey(categoryOf), EVENT_WEIGHT, ks[m]))]
  {
    hide GroupTotal, GroupCount, CategoryKey, EVENT_WEIGHT;
  }

  lemma NoRowsSum(rows: seq<Closed>, events: seq<EventRow>, categoryOf: string -> string)
    ensures SumEvents(EventRows([], rows)) == ZERO
    ensures SumCategories(CategoryRows([], events, categoryOf)) == ZERO
  {
  }

  lemma {:induction false} SumEventRows(ks: seq<string>, rows: seq<Closed>)
    ensures SumEvents(EventRows(ks, rows)) == SumGroups(ks, rows, ROW_KEY, ROW_WEIGHT)
  {
    hide *;
    SumGroupsLast(ks, rows, ROW_KEY, ROW_WEIGHT);
    if ks == [] {
      NoRowsSum(rows, [], k => k);
    } else {
      var m := |ks| - 1;
      SumEventRows(ks[..m], rows);
      EventRowsStep(ks, rows);
      SumEventsAppend(EventRows(ks[..m], rows), EventRow(ks[m], GroupTotal(rows, ROW_KEY, ROW_WEIGHT, ks[m])));
    }
  }

  lemma {:induction false} SumCategoryRows(ks: seq<string>, events: seq<EventRow>, categoryOf: string -> string)
    ensures SumCategories(CategoryRows(ks, events, categoryOf))
            == SumGroups(ks, events, CategoryKey(categoryOf), EVENT_WEIGHT)
  {
    hide *;
    SumGroupsLast(ks, events, CategoryKey(categoryOf), EVENT_WEIGHT);
    if ks == [] {
      NoRowsSum([], events, categoryOf);
    } else {
      var m := |ks| - 1;
      SumCategoryRows(ks[..m], events, categoryOf);
      CategoryRowsStep(ks, events, categoryOf);
      SumCategoriesAppend(CategoryRows(ks[..m], events, categoryOf),
                          CategoryRow(ks[m], GroupCount(events, CategoryKey(categoryOf), ks[m]),
                                      GroupTotal(events, CategoryKey(categoryOf), EVENT_WEIGHT, ks[m])));
    }
  }

  lemma {:induction false} SumCategoriesConcat(a: seq<CategoryRow>, b: seq<CategoryRow>)
    ensures SumCategories(a + b) == Add(SumCategories(a), SumCategories(b))
  {
    if b == [] {
      assert a + b == a;
    } else {
      var m := |b| - 1;
      assert (a + b)[..|a| + m] == a + b[..m];
      SumCategoriesConcat(a, b[..m]);
    }
  }

  lemma SumOne(c: CategoryRow)
    ensures SumCategories([c]) == c.totals
  {
    assert [c][..0] == [];
    assert SumCategories([]) == ZERO;
    AddLaws(c.totals, ZERO, ZERO);
  }

  lemma {:induction false} InsertKeepsSum(c: CategoryRow, s: seq<CategoryRow>, key: CategoryRow -> Key)
    ensures SumCategories(Insert(c, s, key)) == Add(c.totals, SumCategories(s))
  {
    SumOne(c);
    if s == [] {
      AddLaws(c.totals, ZERO, ZERO);
    } else if KeyLe(key(c), key(s[0])) {
      SumCategoriesConcat([c], s);
    } else {
      InsertKeepsSum(c, s[1..], key);
      SumOne(s[0]);
      SumCategoriesConcat([s[0]], Insert(c, s[1..], key));
      SumCategoriesConcat([s[0]], s[1..]);
      assert s == [s[0]] + s[1..];
      hide SumCategories, KeyLe;
    }
  }

  /** Sorting the categories by size keeps their sum. */
  lemma {:induction false} SortKeepsSum(s: seq<CategoryRow>, key: CategoryRow -> Key)
    ensures SumCategories(SortBy(s, key)) == SumCategories(s)
  {
    if s != [] {
      SortKeepsSum(s[1..], key);
      InsertKeepsSum(s[0], SortBy(s[1..], key), key);
      SumOne(s[0]);
      SumCategoriesConcat([s[0]], s[1..]);
      assert s == [s[0]] + s[1..];
      hide SumCategories, Insert;
    }
  }

  lemma {:induction false} TotalIsEventSum(es: seq<EventRow>)
    ensures Total(es, EVENT_WEIGHT) == SumEvents(es).(breakevens := 0)
  {
    if es != [] {
      TotalIsEventSum(es[..|es| - 1]);
    }
  }

  /** What a total must be to agree with the statistics of a flat pass. */
  predicate Tallies(all: Totals, s: Stats) {
    && all.closed == s.closed && all.wins == s.wins && all.losses == s.losses
    && all.cost == s.cost && all.pnl == s.pnl && all.wins + all.losses == s.nonzero
    && all.closed == all.wins + all.losses + all.breakevens
  }

  function StatsPlus(s: Stats, r: Closed): Stats {
    var t := RowTotals(r);
    Stats(s.closed + 1, s.nonzero + t.wins + t.losses, s.wins + t.wins, s.losses + t.losses, s.cost + t.cost,
          s.pnl + t.pnl)
  }

  lemma StatsStep(rows: seq<Closed>)
    requires rows != []
    ensures ClosedWinStats(rows) == StatsPlus(ClosedWinStats(rows[..|rows| - 1]), rows[|rows| - 1])
  {
    hide Nonzero, CountWins, CountLosses, Cost;
    NonzeroStep(rows);
  }

  lemma KeyedStep(rows: seq<Closed>)
    requires rows != []
    ensures var n := |rows| - 1;
            if rows[n].key != "" then Keyed(rows) == Keyed(rows[..n]) + [rows[n]] && Unkeyed(rows) == Unkeyed(rows[..n])
            else Keyed(rows) == Keyed(rows[..n]) && Unkeyed(rows) == Unkeyed(rows[..n]) + [rows[n]]
  {
    hide *;
    KeyedUnfold(rows);
  }

  lemma KeyedUnfold(rows: seq<Closed>)
    requires rows != []
    ensures Keyed(rows) == Keyed(rows[..|rows| - 1]) + (if rows[|rows| - 1].key != "" then [rows[|rows| - 1]] else [])
    ensures Unkeyed(rows)
         == Unkeyed(rows[..|rows| - 1]) + (if rows[|rows| - 1].key == "" then [rows[|rows| - 1]] else [])
  {
  }

  lemma TalliesStep(a: Totals, b: Totals, s: Stats, r: Closed)
    requires Tallies(Add(a, b), s)
    ensures Tallies(Add(Add(a, RowTotals(r)), b), StatsPlus(s, r))
    ensures Tallies(Add(a, Add(b, RowTotals(r))), StatsPlus(s, r))
  {
    hide Cost;
  }

  lemma NoRowsTally()
    ensures Tallies(Add(Total(Keyed([]), ROW_WEIGHT), Total(Unkeyed([]), ROW_WEIGHT)), ClosedWinStats([]))
  {
    hide Cost, RowTotals, ROW_WEIGHT;
    assert Keyed([]) == [] && Unkeyed([]) == [] && Nonzero([]) == [];
    var none: seq<Closed> := [];
    assert Total(none, ROW_WEIGHT) == ZERO;
    assert CountWins(none) == 0 && CountLosses(none) == 0 && SumCost(none) == 0.0 && SumPnl(none) == 0.0;
  }

  /** The flat pass sees every row: the keyed ones and those without an event. */
  lemma {:induction false} FlatPassSplits(rows: seq<Closed>)
    ensures Tallies(Add(Total(Keyed(rows), ROW_WEIGHT), Total(Unkeyed(rows), ROW_WEIGHT)), ClosedWinStats(rows))
  {
    hide *;
    if rows == [] {
      NoRowsTally();
    } else {
      var n := |rows| - 1;
      var keyed, unkeyed := Keyed(rows[..n]), Unkeyed(rows[..n]);
      FlatPassSplits(rows[..n]);
      KeyedStep(rows);
      StatsStep(rows);
      TalliesStep(Total(keyed, ROW_WEIGHT), Total(unkeyed, ROW_WEIGHT), ClosedWinStats(rows[..n]), rows[n]);
      TotalAppend(keyed, rows[n], ROW_WEIGHT);
      TotalAppend(unkeyed, rows[n], ROW_WEIGHT);
      RowWeightIs(rows[n]);
    }
  }

  lemma RowWeightIs(r: Closed)
    ensures ROW_WEIGHT(r) == RowTotals(r)
  {
  }

  lemma TotalAppend<T>(items: seq<T>, x: T, weight: T -> Totals)
    ensures Total(items + [x], weight) == Add(Total(items, weight), weight(x))
    ensures items + [] == items
  {
    assert (items + [x])[..|items|] == items;
  }

  lemma NonzeroStep(rows: seq<Closed>)
    requires rows != []
    ensures var n := |rows| - 1;
            var before, after := Nonzero(rows[..n]), Nonzero(rows);
            && |after| == |before| + (if Abs(rows[n].pnl) > TOLERANCE then 1 else 0)
            && CountWins(after) == CountWins(before) + (if rows[n].pnl > TOLERANCE then 1 else 0)
            && CountLosses(after) == CountLosses(before) + (if rows[n].pnl < -TOLERANCE then 1 else 0)
  {
    var n := |rows| - 1;
    var before := Nonzero(rows[..n]);
    if Abs(rows[n].pnl) > TOLERANCE {
      assert (before + [rows[n]])[..|before|] == before;
    } else {
      assert Nonzero(rows) == before;
    }
  }

  /**
    The two groupings and the flat pass reconcile.  For every list of closed positions and every
    category assignment, the categories add up to the events, and the events together with the
    positions that have no event key add up to the flat pass: in closed count, wins, losses, cost
    and profit.
  */
  lemma GroupingsReconcile(rows: seq<Closed>, categoryOf: string -> string)
    ensures var events := SumEvents(Events(rows));
            var categories := SumCategories(Mix(Events(rows), categoryOf));
            var rest := Total(Unkeyed(rows), ROW_WEIGHT);
            var flat := ClosedWinStats(rows);
            && categories == events.(breakevens := 0)
            && events.closed + rest.closed == flat.closed
            && events.wins + rest.wins == flat.wins && events.losses + rest.losses == flat.losses
            && events.cost + rest.cost == flat.cost && events.pnl + rest.pnl == flat.pnl
  {
    hide SumEvents, SumCategories, Total, ClosedWinStats, Keyed, Unkeyed, SortBy, GroupKeys, EventRows, CategoryRows,
      SumGroups, ROW_KEY, ROW_WEIGHT, EVENT_WEIGHT, CategoryKey, BySize;
    var events := Events(rows);
    var ks := GroupKeys(Keyed(rows), ROW_KEY);
    SumEventRows(ks, Keyed(rows));
    GroupsConserve(Keyed(rows), ROW_KEY, ROW_WEIGHT);
    FlatPassSplits(rows);
    var cs := GroupKeys(events, CategoryKey(categoryOf));
    SortKeepsSum(CategoryRows(cs, events, categoryOf), BySize);
    SumCategoryRows(cs, events, categoryOf);
    GroupsConserve(events, CategoryKey(categoryOf), EVENT_WEIGHT);
    TotalIsEventSum(events);
  }

  lemma {:induction false} UnkeyedCounted(rows: seq<Closed>)
    ensures Total(Unkeyed(rows), ROW_WEIGHT).closed == |Unkeyed(rows)|
    ensures Unkeyed(rows) == [] <==> forall i :: 0 <= i < |rows| ==> rows[i].key != ""
  {
    if rows != [] {
      var n := |rows| - 1;
      UnkeyedCounted(rows[..n]);
      TotalAppend(Unkeyed(rows[..n]), rows[n], ROW_WEIGHT);
      KeyedUnfold(rows);
      RowWeightIs(rows[n]);
      hide Total, Unkeyed, Keyed, ROW_WEIGHT, Cost;
    }
  }

  /** The events account for every closed position exactly when every position has an event key. */
  lemma EventsCompleteIffKeyed(rows: seq<Closed>)
    ensures SumEvents(Events(rows)).closed == ClosedWinStats(rows).closed
            <==> forall i :: 0 <= i < |rows| ==> rows[i].key != ""
  {
    hide Events, SumEvents, ClosedWinStats, Unkeyed, Total, Mix, SumCategories;
    GroupingsReconcile(rows, k => k);
    UnkeyedCounted(rows);
  }

  lemma {:induction false} GroupBalances(rows: seq<Closed>, k: string)
    ensures var t := GroupTotal(rows, ROW_KEY, ROW_WEIGHT, k); t.closed == t.wins + t.losses + t.breakevens
  {
    if rows != [] {
      GroupBalances(rows[..|rows| - 1], k);
    }
  }

  /** Within every event, wins, losses and break-evens add up to its closed positions. */
  lemma EventBalances(rows: seq<Closed>, i: nat)
    requires i < |Events(rows)|
    ensures var t := Events(rows)[i].totals; t.closed == t.wins + t.losses + t.breakevens
  {
    hide Keyed, GroupKeys, GroupTotal;
    GroupBalances(Keyed(rows), GroupKeys(Keyed(rows), ROW_KEY)[i]);
  }

  /** A single winning position without a key: one win in the flat pass, no event at all. */
  lemma KeylessWinMissing(r: Closed)
    requires r.key == "" && r.pnl == 1.0
    ensures ClosedWinStats([r]).wins == 1 && Events([r]) == []
  {
    assert [r][..0] == [];
    assert Nonzero([r]) == [] + [r];
    assert CountWins([r]) == CountWins([r][..0]) + 1;
    assert Keyed([r]) == [];
    assert GroupKeys(Keyed([r]), ROW_KEY) == [];
  }

  // ----- the same in plain cells -----

  /** A position costs what was bought times its average price. */
  lemma CostIs(r: Closed)
    ensures Cost(r) == r.bought * r.avgPrice
    ensures RowTotals(r).cost == r.bought * r.avgPrice
  {
  }

  /** One more position adds itself to the flat statistics: a win or a loss only when off zero by more than 1e-9. */
  lemma FlatStatsGrow(rows: seq<Closed>, r: Closed)
    ensures ClosedWinStats([]) == Stats(0, 0, 0, 0, 0.0, 0.0)
    ensures var before, after := ClosedWinStats(rows), ClosedWinStats(rows + [r]);
            && after.closed == before.closed + 1
            && after.nonzero == before.nonzero + (if r.pnl > 0.000000001 || r.pnl < -0.000000001 then 1 else 0)
            && after.wins == before.wins + (if r.pnl > 0.000000001 then 1 else 0)
            && after.losses == before.losses + (if r.pnl < -0.000000001 then 1 else 0)
            && after.cost == before.cost + r.bought * r.avgPrice
            && after.pnl == before.pnl + r.pnl
  {
    assert (rows + [r])[..|rows|] == rows;
    hide Cost;
    CostIs(r);
    CountsAppend(Nonzero(rows), r);
    assert Nonzero(rows) + [] == Nonzero(rows);
  }

  lemma CountsAppend(rows: seq<Closed>, r: Closed)
    ensures CountWins(rows + [r]) == CountWins(rows) + (if r.pnl > 0.0 then 1 else 0)
    ensures CountLosses(rows + [r]) == CountLosses(rows) + (if r.pnl < 0.0 then 1 else 0)
  {
    assert (rows + [r])[..|rows|] == rows;
  }

  /** One more position adds itself to its own event's totals and to no other's. */
  lemma EventTotalsGrow(rows: seq<Closed>, r: Closed, k: string)
    ensures GroupTotal([], ROW_KEY, ROW_WEIGHT, k) == Totals(0, 0, 0, 0, 0.0, 0.0)
    ensures var before := GroupTotal(rows, ROW_KEY, ROW_WEIGHT, k);
            var after := GroupTotal(rows + [r], ROW_KEY, ROW_WEIGHT, k);
            if r.key != k then after == before
            else
              && after.closed == before.closed + 1
              && after.wins == before.wins + (if r.pnl > 0.000000001 then 1 else 0)
              && after.losses == before.losses + (if r.pnl < -0.000000001 then 1 else 0)
              && after.breakevens
                 == before.breakevens + (if r.pnl > 0.000000001 || r.pnl < -0.000000001 then 0 else 1)
              && after.pnl == before.pnl + r.pnl && after.cost == before.cost + r.bought * r.avgPrice
  {
    assert (rows + [r])[..|rows|] == rows;
    hide Cost;
    CostIs(r);
  }

  /** One more event adds its totals, without break-evens, to its own category's. */
  lemma CategoryTotalsGrow(events: seq<EventRow>, e: EventRow, categoryOf: string -> string, k: string)
    ensures var key := CategoryKey(categoryOf);
            var before := GroupTotal(events, key, EVENT_WEIGHT, k);
            var after := GroupTotal(events + [e], key, EVENT_WEIGHT, k);
            && GroupTotal([], key, EVENT_WEIGHT, k) == Totals(0, 0, 0, 0, 0.0, 0.0) && GroupCount([], key, k) == 0
            && GroupCount(events + [e], key, k)
               == GroupCount(events, key, k) + (if categoryOf(e.key) == k then 1 else 0)
            && if categoryOf(e.key) != k then after == before
               else
                 && after.closed == before.closed + e.totals.closed && after.wins == before.wins + e.totals.wins
                 && after.losses == before.losses + e.totals.losses && after.breakevens == before.breakevens
                 && after.pnl == before.pnl + e.totals.pnl && after.cost == before.cost + e.totals.cost
  {
    assert (events + [e])[..|events|] == events;
  }

  /** One more item brings its key in last, unless the key is known. */
  lemma GroupKeysGrow<T>(items: seq<T>, x: T, key: T -> string)
    ensures GroupKeys([], key) == []
    ensures GroupKeys(items + [x], key)
         == if key(x) in GroupKeys(items, key) then GroupKeys(items, key) else GroupKeys(items, key) + [key(x)]
  {
    assert (items + [x])[..|items|] == items;
  }
}
