/**
 * In-game dates (SMAPI's `SDate`) and the source of "today" (`IDateProvider`).
 * A year has four seasons of 28 days; dates are ordered by year, then season,
 * then day.
 */
module Calendar {

  datatype Season = Spring | Summer | Fall | Winter

  /** Position of a season within the year. */
  function SeasonIndex(s: Season): (i: nat)
    ensures i < 4
    ensures s == Spring <==> i == 0
    ensures s == Winter <==> i == 3
  {
    match s
    case Spring => 0
    case Summer => 1
    case Fall => 2
    case Winter => 3
  }

  /** `SDate` refuses a day outside 1..28 and a year below 1. */
  type DayOfSeason = d: int | 1 <= d <= 28 witness 1
  type YearNumber = y: int | 1 <= y witness 1

  datatype SDate = SDate(day: DayOfSeason, season: Season, year: YearNumber)

  /** The order on dates: `a <= b`. */
  predicate AtOrBefore(a: SDate, b: SDate) {
    || a.year < b.year
    || (a.year == b.year && SeasonIndex(a.season) < SeasonIndex(b.season))
    || (a.year == b.year && a.season == b.season && a.day <= b.day)
  }

  /** `date.IsBetween(start, end)`: `start <= date <= end`, both ends included. */
  predicate IsBetween(date: SDate, start: SDate, end: SDate) {
    AtOrBefore(start, date) && AtOrBefore(date, end)
  }

  lemma SeasonIndexInjective(s: Season, t: Season)
    ensures SeasonIndex(s) == SeasonIndex(t) ==> s == t
  {
  }

  /** `AtOrBefore` is a total order. */
  lemma AtOrBeforeIsTotalOrder(a: SDate, b: SDate, c: SDate)
    ensures AtOrBefore(a, a)
    ensures AtOrBefore(a, b) && AtOrBefore(b, a) ==> a == b
    ensures AtOrBefore(a, b) && AtOrBefore(b, c) ==> AtOrBefore(a, c)
    ensures AtOrBefore(a, b) || AtOrBefore(b, a)
  {
    SeasonIndexInjective(a.season, b.season);
  }

  /** A one-day range holds exactly its own day. */
  lemma IsBetweenOneDay(date: SDate, d: SDate)
    ensures IsBetween(date, d, d) <==> date == d
  {
    AtOrBeforeIsTotalOrder(date, d, d);
  }

  /** Day 1 to day 28 of a season is that whole season and nothing else. */
  lemma SeasonRange(date: SDate, season: Season, year: YearNumber)
    ensures IsBetween(date, SDate(1, season, year), SDate(28, season, year))
            <==> date.season == season && date.year == year
  {
  }

  /** Spring 1 to Winter 28 of a year is that whole year and nothing else. */
  lemma YearRange(date: SDate, year: YearNumber)
    ensures IsBetween(date, SDate(1, Spring, year), SDate(28, Winter, year))
            <==> date.year == year
  {
  }

  /** The clock the tracker asks for today's date; the game moves it on. */
  class DateProvider {
    var now: SDate

    constructor (now: SDate)
      ensures this.now == now
    {
      this.now := now;
    }
  }
}
