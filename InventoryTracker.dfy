/**
 * `InventoryTracker`: the append-only production log and the queries over it.
 * A query keeps the records of a date window, groups them by item (by item
 * identity, as `GroupBy` does without a comparer), sums each group's counts
 * and drops every group whose sum is not positive.
 */
module Inventory {
  import opened GameItems
  import opened Calendar
  import opened TrackedItems

  /** A query row: an item and its net count. */
  type Row = (Item, int)

  // ---------------------------------------------------------------------------
  // The query pipeline: filter by date, group, sum, keep the positive sums
  // ---------------------------------------------------------------------------

  /** `Where(item => item.Date == date)`, log order kept. */
  function OnDate(log: seq<TrackedItem>, date: SDate): (r: seq<TrackedItem>)
    ensures forall t :: t in r ==> t in log && t.date == date
    ensures forall t :: t in log && t.date == date ==> t in r
    ensures forall t {:trigger multiset(r)[t]} :: t in log ==> multiset(r)[t] == if t.date == date then multiset(log)[t] else 0
    ensures |r| <= |log|
  {
    if log == [] then []
    else
      var t := log[|log| - 1];
      var rest := OnDate(log[..|log| - 1], date);
      assert log == log[..|log| - 1] + [t];
      if t.date == date then rest + [t] else rest
  }

  /** `Where(item => item.Date.IsBetween(start, end))`, log order kept. */
  function InRange(log: seq<TrackedItem>, start: SDate, end: SDate): (r: seq<TrackedItem>)
    ensures forall t :: t in r ==> t in log && IsBetween(t.date, start, end)
    ensures forall t :: t in log && IsBetween(t.date, start, end) ==> t in r
    ensures forall t {:trigger multiset(r)[t]} :: t in log ==> multiset(r)[t] == if IsBetween(t.date, start, end) then multiset(log)[t] else 0
    ensures |r| <= |log|
  {
    if log == [] then []
    else
      var t := log[|log| - 1];
      var rest := InRange(log[..|log| - 1], start, end);
      assert log == log[..|log| - 1] + [t];
      if IsBetween(t.date, start, end) then rest + [t] else rest
  }

  /** The records of one season of one year (reference definition of the season window). */
  function InSeason(log: seq<TrackedItem>, season: Season, year: YearNumber): (r: seq<TrackedItem>)
    ensures forall t :: t in r ==> t in log && t.date.season == season && t.date.year == year
    ensures forall t :: t in log && t.date.season == season && t.date.year == year ==> t in r
    ensures forall t {:trigger multiset(r)[t]} :: t in log ==> multiset(r)[t] == if t.date.season == season && t.date.year == year then multiset(log)[t] else 0
  {
    if log == [] then []
    else
      var t := log[|log| - 1];
      var rest := InSeason(log[..|log| - 1], season, year);
      assert log == log[..|log| - 1] + [t];
      if t.date.season == season && t.date.year == year then rest + [t] else rest
  }

  /** The records of one year (reference definition of the year window). */
  function InYear(log: seq<TrackedItem>, year: YearNumber): (r: seq<TrackedItem>)
    ensures forall t :: t in r ==> t in log && t.date.year == year
    ensures forall t :: t in log && t.date.year == year ==> t in r
    ensures forall t {:trigger multiset(r)[t]} :: t in log ==> multiset(r)[t] == if t.date.year == year then multiset(log)[t] else 0
  {
    if log == [] then []
    else
      var t := log[|log| - 1];
      var rest := InYear(log[..|log| - 1], year);
      assert log == log[..|log| - 1] + [t];
      if t.date.year == year then rest + [t] else rest
  }

  // Each filter keeps the log's order: filtering a concatenation filters each
  // part, so a record is kept where it stood and every copy of it is kept.

  lemma {:induction false} OnDateOfConcat(a: seq<TrackedItem>, b: seq<TrackedItem>, date: SDate)
    ensures OnDate(a + b, date) == OnDate(a, date) + OnDate(b, date)
  {
    if b == [] {
      assert a + b == a;
    } else {
      var init := b[..|b| - 1];
      var t := b[|b| - 1];
      var kept := if t.date == date then [t] else [];
      assert OnDate(a + b, date) == OnDate(a + init, date) + kept by {
        assert (a + b)[..|a + b| - 1] == a + init;
      }
      assert OnDate(b, date) == OnDate(init, date) + kept;
      OnDateOfConcat(a, init, date);
    }
  }

  lemma {:induction false} InRangeOfConcat(a: seq<TrackedItem>, b: seq<TrackedItem>, start: SDate, end: SDate)
    ensures InRange(a + b, start, end) == InRange(a, start, end) + InRange(b, start, end)
  {
    if b == [] {
      assert a + b == a;
    } else {
      var init := b[..|b| - 1];
      var t := b[|b| - 1];
      var kept := if IsBetween(t.date, start, end) then [t] else [];
      assert InRange(a + b, start, end) == InRange(a + init, start, end) + kept by {
        assert (a + b)[..|a + b| - 1] == a + init;
      }
      assert InRange(b, start, end) == InRange(init, start, end) + kept;
      InRangeOfConcat(a, init, start, end);
    }
  }

  lemma {:induction false} InSeasonOfConcat(a: seq<TrackedItem>, b: seq<TrackedItem>, season: Season, year: YearNumber)
    ensures InSeason(a + b, season, year) == InSeason(a, season, year) + InSeason(b, season, year)
  {
    if b == [] {
      assert a + b == a;
    } else {
      var init := b[..|b| - 1];
      var t := b[|b| - 1];
      var kept := if t.date.season == season && t.date.year == year then [t] else [];
      assert InSeason(a + b, season, year) == InSeason(a + init, season, year) + kept by {
        assert (a + b)[..|a + b| - 1] == a + init;
      }
      assert InSeason(b, season, year) == InSeason(init, season, year) + kept;
      InSeasonOfConcat(a, init, season, year);
    }
  }

  lemma {:induction false} InYearOfConcat(a: seq<TrackedItem>, b: seq<TrackedItem>, year: YearNumber)
    ensures InYear(a + b, year) == InYear(a, year) + InYear(b, year)
  {
    if b == [] {
      assert a + b == a;
    } else {
      var init := b[..|b| - 1];
      var t := b[|b| - 1];
      var kept := if t.date.year == year then [t] else [];
      assert InYear(a + b, year) == InYear(a + init, year) + kept by {
        assert (a + b)[..|a + b| - 1] == a + init;
      }
      assert InYear(b, year) == InYear(init, year) + kept;
      InYearOfConcat(a, init, year);
    }
  }

  /** `group.Sum(item => item.Count)` for the group of `item`. */
  function Total(log: seq<TrackedItem>, item: Item): int {
    if log == [] then 0
    else
      var t := log[|log| - 1];
      Total(log[..|log| - 1], item) + (if t.item == item then t.count else 0)
  }

  predicate Distinct(items: seq<Item>) {
    forall i, j :: 0 <= i < j < |items| ==> items[i] != items[j]
  }

  /** The group keys of `GroupBy(item => item.Item)`: each item once, in order of first record. */
  function Groups(log: seq<TrackedItem>): (keys: seq<Item>)
    ensures Distinct(keys)
    ensures forall x :: x in keys ==> exists k :: 0 <= k < |log| && log[k].item == x
    ensures forall k :: 0 <= k < |log| ==> log[k].item in keys
  {
    if log == [] then []
    else
      var t := log[|log| - 1];
      var keys := Groups(log[..|log| - 1]);
      assert forall k :: 0 <= k < |log| - 1 ==> log[..|log| - 1][k] == log[k];
      if t.item in keys then keys else keys + [t.item]
  }

  /** `Select(group => (group.Key, group.Sum(...)))`. */
  function Summed(log: seq<TrackedItem>, keys: seq<Item>): (rows: seq<Row>)
    ensures |rows| == |keys|
    ensures forall i :: 0 <= i < |keys| ==> rows[i] == (keys[i], Total(log, keys[i]))
  {
    if keys == [] then [] else [(keys[0], Total(log, keys[0]))] + Summed(log, keys[1..])
  }

  predicate KeysDistinct(rows: seq<Row>) {
    forall i, j :: 0 <= i < j < |rows| ==> rows[i].0 != rows[j].0
  }

  /** `Where(result => result.Count > 0)`, order kept. */
  function Positive(rows: seq<Row>): (r: seq<Row>)
    ensures forall row :: row in r ==> row in rows && row.1 > 0
    ensures forall row :: row in rows && row.1 > 0 ==> row in r
    ensures KeysDistinct(rows) ==> KeysDistinct(r)
  {
    if rows == [] then []
    else
      var rest := Positive(rows[1..]);
      assert forall row :: row in rows ==> row == rows[0] || row in rows[1..];
      if rows[0].1 > 0 then [rows[0]] + rest else rest
  }

  /** Group, sum and keep the positive sums. */
  function Aggregate(log: seq<TrackedItem>): seq<Row> {
    Positive(Summed(log, Groups(log)))
  }

  /**
   * What a query promises about its rows for the records `log` it kept: one row
   * per item, each row's count is that item's net count and is positive, and
   * every item whose net count is positive has a row.
   */
  ghost predicate IsNetProduction(rows: seq<Row>, log: seq<TrackedItem>) {
    && KeysDistinct(rows)
    && (forall i :: 0 <= i < |rows| ==> rows[i].1 == Total(log, rows[i].0) && rows[i].1 > 0)
    && (forall t :: t in log && Total(log, t.item) > 0 ==>
          exists i :: 0 <= i < |rows| && rows[i].0 == t.item)
  }

  // ---------------------------------------------------------------------------
  // Lemmas about the pipeline
  // ---------------------------------------------------------------------------

  /** Grouping and summing answers the query. */
  lemma AggregateIsNetProduction(log: seq<TrackedItem>)
    ensures IsNetProduction(Aggregate(log), log)
  {
    var keys := Groups(log);
    var rows := Summed(log, keys);
    var r := Positive(rows);
    assert KeysDistinct(rows);
    forall i | 0 <= i < |r|
      ensures r[i].1 == Total(log, r[i].0) && r[i].1 > 0
    {
      assert r[i] in rows;
      var j :| 0 <= j < |rows| && rows[j] == r[i];
    }
    forall t | t in log && Total(log, t.item) > 0
      ensures exists i :: 0 <= i < |r| && r[i].0 == t.item
    {
      var k :| 0 <= k < |log| && log[k] == t;
      var j :| 0 <= j < |keys| && keys[j] == t.item;
      assert rows[j] in r;
      var i :| 0 <= i < |r| && r[i] == rows[j];
    }
  }

  /** An item that has no record nets zero. */
  lemma TotalOfAbsentItem(log: seq<TrackedItem>, x: Item)
    requires forall t :: t in log ==> t.item != x
    ensures Total(log, x) == 0
  {
    if log != [] {
      assert log == log[..|log| - 1] + [log[|log| - 1]];
      TotalOfAbsentItem(log[..|log| - 1], x);
    }
  }

  /** An item whose records net to zero or less has no row. */
  lemma NonPositiveNetIsDropped(log: seq<TrackedItem>, x: Item)
    requires Total(log, x) <= 0
    ensures forall i :: 0 <= i < |Aggregate(log)| ==> Aggregate(log)[i].0 != x
  {
    AggregateIsNetProduction(log);
  }

  /** A gain of 5 and a loss of 5 on the same day leave nothing for that day. */
  lemma GainThenEqualLossNetsNothing(x: Item, day: SDate)
    ensures Aggregate(OnDate([TrackedItem(x, 5, day), TrackedItem(x, -5, day)], day)) == []
  {
    var log := [TrackedItem(x, 5, day), TrackedItem(x, -5, day)];
    assert OnDate(log, day) == log by {
      assert log[..1] == [TrackedItem(x, 5, day)];
      assert log[..1][..0] == [];
    }
    assert Groups(log) == [x] by {
      assert log[..1] == [TrackedItem(x, 5, day)];
      assert log[..1][..0] == [];
      assert Groups(log[..1]) == [x];
    }
    assert Summed(log, [x]) == [(x, 0)] by {
      assert log[..1] == [TrackedItem(x, 5, day)];
      assert log[..1][..0] == [];
      assert Total(log[..1], x) == 5;
      assert Total(log, x) == 0;
    }
    assert Positive([(x, 0)]) == [];
  }

  /** A query over no records has no rows. */
  lemma EmptyLogHasNoRows()
    ensures Aggregate([]) == []
  {
    assert Groups([]) == [];
    assert Summed([], []) == [];
  }

  /** The records of `date` are the records of the one-day range `[date, date]`. */
  lemma {:induction false} OnDateIsOneDayRange(log: seq<TrackedItem>, date: SDate)
    ensures OnDate(log, date) == InRange(log, date, date)
  {
    if log != [] {
      OnDateIsOneDayRange(log[..|log| - 1], date);
      IsBetweenOneDay(log[|log| - 1].date, date);
    }
  }

  /** The range day 1 to day 28 of a season keeps exactly that season's records. */
  lemma {:induction false} SeasonRangeIsSeason(log: seq<TrackedItem>, season: Season, year: YearNumber)
    ensures InRange(log, SDate(1, season, year), SDate(28, season, year)) == InSeason(log, season, year)
  {
    if log != [] {
      SeasonRangeIsSeason(log[..|log| - 1], season, year);
      SeasonRange(log[|log| - 1].date, season, year);
    }
  }

  /** The range Spring 1 to Winter 28 keeps exactly that year's records. */
  lemma {:induction false} YearRangeIsYear(log: seq<TrackedItem>, year: YearNumber)
    ensures InRange(log, SDate(1, Spring, year), SDate(28, Winter, year)) == InYear(log, year)
  {
    if log != [] {
      YearRangeIsYear(log[..|log| - 1], year);
      YearRange(log[|log| - 1].date, year);
    }
  }

  /** The day after `d` in a calendar of four 28-day seasons. */
  function NextDay(d: SDate): (n: SDate)
    ensures AtOrBefore(d, n) && n != d
    ensures forall e :: AtOrBefore(e, d) || AtOrBefore(n, e)
  {
    if d.day < 28 then SDate(d.day + 1, d.season, d.year)
    else match d.season
      case Spring => SDate(1, Summer, d.year)
      case Summer => SDate(1, Fall, d.year)
      case Fall => SDate(1, Winter, d.year)
      case Winter => SDate(1, Spring, d.year + 1)
  }

  /** Every date of `[start, end]` lies in exactly one of `[start, mid]` and `[NextDay(mid), end]`. */
  lemma SplitRange(date: SDate, start: SDate, mid: SDate, end: SDate)
    requires AtOrBefore(start, mid) && AtOrBefore(mid, end)
    ensures IsBetween(date, start, end) <==> IsBetween(date, start, mid) || IsBetween(date, NextDay(mid), end)
    ensures !(IsBetween(date, start, mid) && IsBetween(date, NextDay(mid), end))
  {
    AtOrBeforeIsTotalOrder(date, mid, end);
    AtOrBeforeIsTotalOrder(start, mid, date);
    AtOrBeforeIsTotalOrder(mid, NextDay(mid), date);
    AtOrBeforeIsTotalOrder(date, mid, NextDay(mid));
  }

  /**
   * Range additivity: splitting `[start, end]` after day `mid` splits every
   * item's net count (before the positive filter) into the two parts.
   */
  lemma {:induction false} RangeIsAdditive(log: seq<TrackedItem>, start: SDate, mid: SDate, end: SDate, x: Item)
    requires AtOrBefore(start, mid) && AtOrBefore(mid, end)
    ensures Total(InRange(log, start, end), x)
            == Total(InRange(log, start, mid), x) + Total(InRange(log, NextDay(mid), end), x)
  {
    if log != [] {
      var t := log[|log| - 1];
      var init := log[..|log| - 1];
      assert log == init + [t];
      RangeIsAdditive(init, start, mid, end, x);
      SplitRange(t.date, start, mid, end);
      InRangeOfAppend(init, t, start, end);
      InRangeOfAppend(init, t, start, mid);
      InRangeOfAppend(init, t, NextDay(mid), end);
      TotalOfAppend(InRange(init, start, end), t, x);
      TotalOfAppend(InRange(init, start, mid), t, x);
      TotalOfAppend(InRange(init, NextDay(mid), end), t, x);
    }
  }

  lemma {:induction false} TotalOfAppend(log: seq<TrackedItem>, t: TrackedItem, x: Item)
    ensures Total(log + [t], x) == Total(log, x) + (if t.item == x then t.count else 0)
  {
    assert (log + [t])[..|log|] == log;
  }

  lemma {:induction false} InRangeOfAppend(log: seq<TrackedItem>, t: TrackedItem, start: SDate, end: SDate)
    ensures InRange(log + [t], start, end) == if IsBetween(t.date, start, end) then InRange(log, start, end) + [t] else InRange(log, start, end)
  {
    assert (log + [t])[..|log|] == log;
  }

  // ---------------------------------------------------------------------------
  // The tracker
  // ---------------------------------------------------------------------------

  class InventoryTracker {
    /** `_trackedItems`, in the order the records were added. */
    var trackedItems: seq<TrackedItem>
    /** `_dateProvider`. */
    const dateProvider: DateProvider
    /** `Start`: the date tracking began; nothing changes it. */
    const start: SDate

    constructor (dateProvider: DateProvider, start: SDate)
      ensures this.dateProvider == dateProvider && this.start == start
      ensures trackedItems == []
    {
      this.dateProvider := dateProvider;
      this.start := start;
      trackedItems := [];
    }

    /** `Today => _dateProvider.Now`. */
    function Today(): SDate
      reads dateProvider
    {
      dateProvider.now
    }

    /** `Add(item, count)`: a record dated today. */
    method Add(item: Item, count: int)
      modifies this`trackedItems
      ensures trackedItems == old(trackedItems) + [TrackedItem(item, count, Today())]
    {
      AddOnDate(item, count, Today());
    }

    /** `Add(item, count, date)`: exactly one new record, at the end. */
    method AddOnDate(item: Item, count: int, date: SDate)
      modifies this`trackedItems
      ensures trackedItems == old(trackedItems) + [TrackedItem(item, count, date)]
    {
      trackedItems := trackedItems + [TrackedItem(item, count, date)];
    }

    /** `Produced(date)`. */
    function Produced(date: SDate): (rows: seq<Row>)
      reads this
      ensures IsNetProduction(rows, OnDate(trackedItems, date))
      ensures rows == ProducedInBetween(date, date)
    {
      AggregateIsNetProduction(OnDate(trackedItems, date));
      OnDateIsOneDayRange(trackedItems, date);
      Aggregate(OnDate(trackedItems, date))
    }

    /** `ProducedInBetween(start, end)`. */
    function ProducedInBetween(start: SDate, end: SDate): (rows: seq<Row>)
      reads this
      ensures IsNetProduction(rows, InRange(trackedItems, start, end))
    {
      AggregateIsNetProduction(InRange(trackedItems, start, end));
      Aggregate(InRange(trackedItems, start, end))
    }

    /** `ProducedToday()`. */
    function ProducedToday(): (rows: seq<Row>)
      reads this, dateProvider
      ensures IsNetProduction(rows, OnDate(trackedItems, Today()))
    {
      Produced(Today())
    }

    /** `ProducedYesterday()`; `addDays` stands for SMAPI's `SDate.AddDays`. */
    function ProducedYesterday(addDays: (SDate, int) -> SDate): (rows: seq<Row>)
      reads this, dateProvider
      ensures IsNetProduction(rows, OnDate(trackedItems, addDays(Today(), -1)))
    {
      Produced(addDays(Today(), -1))
    }

    /** `ProducedThisWeek()`; the two functions stand for SMAPI's `FirstWeekday` and `LastWeekday`. */
    function ProducedThisWeek(firstWeekday: SDate -> SDate, lastWeekday: SDate -> SDate): (rows: seq<Row>)
      reads this, dateProvider
      ensures IsNetProduction(rows, InRange(trackedItems, firstWeekday(Today()), lastWeekday(Today())))
    {
      ProducedInBetween(firstWeekday(Today()), lastWeekday(Today()))
    }

    /** `ProducedThisSeason()`: the records of today's season and year. */
    function ProducedThisSeason(): (rows: seq<Row>)
      reads this, dateProvider
      ensures IsNetProduction(rows, InSeason(trackedItems, Today().season, Today().year))
      ensures rows == Aggregate(InSeason(trackedItems, Today().season, Today().year))
    {
      SeasonRangeIsSeason(trackedItems, Today().season, Today().year);
      ProducedInBetween(SDate(1, Today().season, Today().year), SDate(28, Today().season, Today().year))
    }

    /** `ProducedThisYear()`: the records of today's year. */
    function ProducedThisYear(): (rows: seq<Row>)
      reads this, dateProvider
      ensures IsNetProduction(rows, InYear(trackedItems, Today().year))
      ensures rows == Aggregate(InYear(trackedItems, Today().year))
    {
      YearRangeIsYear(trackedItems, Today().year);
      ProducedInBetween(SDate(1, Spring, Today().year), SDate(28, Winter, Today().year))
    }

    /** `Reset()`: every record goes; `start` stays. */
    method Reset()
      modifies this`trackedItems
      ensures trackedItems == []
      ensures forall date :: Produced(date) == []
      ensures forall s, e :: ProducedInBetween(s, e) == []
    {
      trackedItems := [];
      EmptyLogHasNoRows();
    }
  }
}
