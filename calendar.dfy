/** The proleptic Gregorian calendar as Python's `datetime.date` computes it:
    day ordinals (`toordinal`), weekdays and the ISO 8601 week date
    (`isocalendar`), which the ledger uses to decide which records fall in
    the reference date's week. */
module Calendar {

  /** A year, month and day, not necessarily a real date. */
  datatype CivilDate = CivilDate(year: int, month: int, day: int)

  /** The range of years `datetime.date` accepts. */
  const MinYear: int := 1
  const MaxYear: int := 9999

  predicate IsLeap(year: int) {
    year % 4 == 0 && (year % 100 != 0 || year % 400 == 0)
  }

  function DaysInYear(year: int): int {
    if IsLeap(year) then 366 else 365
  }

  function DaysInMonth(year: int, month: int): (n: int)
    requires 1 <= month <= 12
    ensures 28 <= n <= 31
  {
    if month == 2 then (if IsLeap(year) then 29 else 28)
    else if month == 4 || month == 6 || month == 9 || month == 11 then 30
    else 31
  }

  predicate Valid(d: CivilDate) {
    MinYear <= d.year <= MaxYear && 1 <= d.month <= 12 && 1 <= d.day <= DaysInMonth(d.year, d.month)
  }

  /** A date `datetime.date` would accept. */
  type Date = d: CivilDate | Valid(d) witness CivilDate(2025, 6, 3)

  /** Days in the years before `year`; year 1 starts after day 0. */
  function DaysBeforeYear(year: int): int {
    var y := year - 1;
    y * 365 + y / 4 - y / 100 + y / 400
  }

  /** Days in the months of `year` before `month`. */
  function DaysBeforeMonth(year: int, month: int): int
    requires 1 <= month <= 12
  {
    var before :=
      if month == 1 then 0 else if month == 2 then 31 else if month == 3 then 59
      else if month == 4 then 90 else if month == 5 then 120 else if month == 6 then 151
      else if month == 7 then 181 else if month == 8 then 212 else if month == 9 then 243
      else if month == 10 then 273 else if month == 11 then 304 else 334;
    before + (if month > 2 && IsLeap(year) then 1 else 0)
  }

  /** The day number of a year, month and day; 0001-01-01 is day 1. */
  function YmdToOrdinal(year: int, month: int, day: int): int
    requires 1 <= month <= 12
  {
    DaysBeforeYear(year) + DaysBeforeMonth(year, month) + day
  }

  function Ordinal(d: Date): int {
    YmdToOrdinal(d.year, d.month, d.day)
  }

  /** Day of the week of a day number: 0 is Monday, 6 is Sunday. */
  function Weekday(n: int): (w: int)
    ensures 0 <= w < 7
  {
    (n + 6) % 7
  }

  /** The day number of the Monday that starts ISO week 1 of `year`,
      the week holding the year's first Thursday. */
  function IsoWeek1Monday(year: int): int {
    Week1MondayFrom(YmdToOrdinal(year, 1, 1))
  }

  /** The Monday of the week holding the first Thursday on or after day `firstDay`. */
  function Week1MondayFrom(firstDay: int): int {
    var firstWeekday := Weekday(firstDay);
    if firstWeekday > 3 then firstDay - firstWeekday + 7 else firstDay - firstWeekday
  }

  /** An ISO 8601 week date: week-numbering year, week 1..53, weekday 1 (Monday)..7. */
  datatype IsoDate = IsoDate(year: int, week: int, weekday: int)

  /** The ISO week date of `d`, following `date.isocalendar`: the week is
      counted from week 1 of the calendar year, and moved to the previous
      year when it falls before that week, or to week 1 of the next year
      when the day is on or after the next year's week 1. */
  function IsoCalendar(d: Date): IsoDate {
    IsoCalendarOf(Ordinal(d), d.year)
  }

  /** `IsoCalendar` for day number `today` of calendar year `year`. */
  function IsoCalendarOf(today: int, year: int): IsoDate {
    IsoWeekDate(today, year, IsoWeek1Monday(year - 1), IsoWeek1Monday(year), IsoWeek1Monday(year + 1))
  }

  /** The branches of `date.isocalendar` for day `today` of calendar year
      `year`, given the week-1 Mondays of the previous, the same and the next year. */
  function IsoWeekDate(today: int, year: int, previous: int, current: int, next: int): IsoDate {
    var week := (today - current) / 7;
    var day := (today - current) % 7;
    if week < 0 then
      IsoDate(year - 1, (today - previous) / 7 + 1, (today - previous) % 7 + 1)
    else if week >= 52 && today >= next then
      IsoDate(year + 1, 1, day + 1)
    else
      IsoDate(year, week + 1, day + 1)
  }

  /** The weekly test of the ledger: same ISO week-numbering year and week. */
  predicate SameIsoWeek(d: Date, e: Date) {
    IsoCalendar(d).year == IsoCalendar(e).year && IsoCalendar(d).week == IsoCalendar(e).week
  }

  /** Index of the Monday-to-Sunday week holding day `n`; day 1 is a Monday. */
  function WeekIndex(n: int): int {
    (n - 1) / 7
  }

  // ---------------------------------------------------------------------
  // Lemmas

  /** Consecutive years are 365 or 366 days apart, by the leap-year rule. */
  lemma YearLength(year: int)
    ensures DaysBeforeYear(year + 1) == DaysBeforeYear(year) + DaysInYear(year)
  {
    var y := year;
    assert y / 4 - (y - 1) / 4 == (if y % 4 == 0 then 1 else 0);
    assert y / 100 - (y - 1) / 100 == (if y % 100 == 0 then 1 else 0);
    assert y / 400 - (y - 1) / 400 == (if y % 400 == 0 then 1 else 0);
    assert y % 400 == 0 ==> y % 100 == 0;
    assert y % 100 == 0 ==> y % 4 == 0;
  }

  /** A valid date lies between the first day of its year and the first day of the next. */
  lemma OrdinalWithinYear(d: Date)
    ensures YmdToOrdinal(d.year, 1, 1) <= Ordinal(d) < YmdToOrdinal(d.year + 1, 1, 1)
  {
    YearLength(d.year);
  }

  /** Week 1 starts on a Monday at most three days away from January 1. */
  lemma Week1MondayNearNewYear(year: int)
    ensures Weekday(IsoWeek1Monday(year)) == 0
    ensures YmdToOrdinal(year, 1, 1) - 3 <= IsoWeek1Monday(year) <= YmdToOrdinal(year, 1, 1) + 3
  {
    Week1MondayFromSpec(YmdToOrdinal(year, 1, 1));
  }

  lemma Week1MondayFromSpec(n: int)
    ensures Weekday(Week1MondayFrom(n)) == 0
    ensures n - 3 <= Week1MondayFrom(n) <= n + 3
  {
    var q := (n + 6) / 7;
    assert n + 6 == 7 * q + Weekday(n);
    if Weekday(n) > 3 {
      assert Week1MondayFrom(n) + 6 == 7 * (q + 1);
    } else {
      assert Week1MondayFrom(n) + 6 == 7 * q;
    }
  }

  /** An ISO year has 52 or 53 whole weeks. */
  lemma IsoYearLength(year: int)
    ensures IsoWeek1Monday(year + 1) - IsoWeek1Monday(year) == 364
         || IsoWeek1Monday(year + 1) - IsoWeek1Monday(year) == 371
  {
    YearLength(year);
    Week1MondayNearNewYear(year);
    Week1MondayNearNewYear(year + 1);
    var a, b := IsoWeek1Monday(year), IsoWeek1Monday(year + 1);
    MondaysWholeWeeksApart(a, b);
  }

  /** Two Mondays are a whole number of weeks apart. */
  lemma MondaysWholeWeeksApart(a: int, b: int)
    requires Weekday(a) == 0 && Weekday(b) == 0
    ensures (b - a) % 7 == 0
    ensures WeekIndex(b) - WeekIndex(a) == (b - a) / 7
  {
    var p, q := (a + 6) / 7, (b + 6) / 7;
    assert a + 6 == 7 * p;
    assert b + 6 == 7 * q;
    assert b - a == 7 * (q - p);
    assert WeekIndex(a) == p - 1;
    assert WeekIndex(b) == q - 1;
  }

  /** Week 1 of a later ISO year never starts before the end of an earlier one. */
  lemma {:induction false} IsoYearsIncrease(y: int, z: int)
    requires y < z
    ensures IsoWeek1Monday(y + 1) <= IsoWeek1Monday(z)
    decreases z - y
  {
    if y + 1 < z {
      IsoYearsIncrease(y + 1, z);
      IsoYearLength(y + 1);
    }
  }

  /** The ISO year holding a day is unique. */
  lemma IsoYearUnique(n: int, y: int, z: int)
    requires IsoWeek1Monday(y) <= n < IsoWeek1Monday(y + 1)
    requires IsoWeek1Monday(z) <= n < IsoWeek1Monday(z + 1)
    ensures y == z
  {
    if y < z {
      IsoYearsIncrease(y, z);
    } else if z < y {
      IsoYearsIncrease(z, y);
    }
  }

  /** The arithmetic behind `IsoCalendar`: with three consecutive week-1
      Mondays, each ISO year 52 or 53 weeks long, and the day between the
      first and the last, the branches pick the ISO year holding the day. */
  lemma IsoWeekDateSpec(today: int, year: int, previous: int, current: int, next: int, following: int)
      returns (start: int, end: int)
    requires Weekday(previous) == 0 && Weekday(current) == 0 && Weekday(next) == 0
    requires current - previous == 364 || current - previous == 371
    requires next - current == 364 || next - current == 371
    requires following - next == 364 || following - next == 371
    requires previous <= today < next + 7
    ensures var iso := IsoWeekDate(today, year, previous, current, next);
      && start == (if iso.year == year - 1 then previous else if iso.year == year then current else next)
      && end == (if iso.year == year - 1 then current else if iso.year == year then next else following)
      && year - 1 <= iso.year <= year + 1
      && start <= today < end
      && today == start + 7 * (iso.week - 1) + (iso.weekday - 1)
      && 1 <= iso.week <= 53 && 1 <= iso.weekday <= 7
      && iso.weekday == Weekday(today) + 1
  {
    var w := Weekday(today);
    var q := (today + 6) / 7;
    assert today + 6 == 7 * q + w;
    var c := (current + 6) / 7;
    assert current + 6 == 7 * c;
    var p := (previous + 6) / 7;
    assert previous + 6 == 7 * p;
    assert today - current == 7 * (q - c) + w;
    assert (today - current) % 7 == w;
    assert today - previous == 7 * (q - p) + w;
    assert (today - previous) % 7 == w;
    assert (today - current) / 7 == q - c;
    assert (today - previous) / 7 == q - p;
    var iso := IsoWeekDate(today, year, previous, current, next);
    start := if iso.year == year - 1 then previous else if iso.year == year then current else next;
    end := if iso.year == year - 1 then current else if iso.year == year then next else following;
  }

  /** `iso` places day `today` in ISO year `iso.year`: between that year's
      week-1 Monday and the next one, at the given week and weekday. */
  predicate IsoPlaces(today: int, iso: IsoDate) {
    && IsoWeek1Monday(iso.year) <= today < IsoWeek1Monday(iso.year + 1)
    && today == IsoWeek1Monday(iso.year) + 7 * (iso.week - 1) + (iso.weekday - 1)
    && 1 <= iso.week <= 53 && 1 <= iso.weekday <= 7
    && iso.weekday == Weekday(today) + 1
  }

  /** `IsoWeekDate` for a day of `year`, with that year's and its neighbours' week-1 Mondays. */
  lemma IsoWeekDateInYear(year: int, today: int)
    requires YmdToOrdinal(year, 1, 1) <= today < YmdToOrdinal(year + 1, 1, 1)
    ensures IsoPlaces(today, IsoCalendarOf(today, year))
    ensures year - 1 <= IsoCalendarOf(today, year).year <= year + 1
  {
    var start, end := IsoYearBounds(year, today);
    IsoPlacesIntro(today, IsoCalendarOf(today, year), start, end);
  }

  /** The week-1 Mondays that bracket a day of `year` in its ISO year. */
  lemma IsoYearBounds(year: int, today: int) returns (start: int, end: int)
    requires YmdToOrdinal(year, 1, 1) <= today < YmdToOrdinal(year + 1, 1, 1)
    ensures var iso := IsoCalendarOf(today, year);
      && year - 1 <= iso.year <= year + 1
      && start == IsoWeek1Monday(iso.year) && end == IsoWeek1Monday(iso.year + 1)
      && start <= today < end
      && today == start + 7 * (iso.week - 1) + (iso.weekday - 1)
      && 1 <= iso.week <= 53 && 1 <= iso.weekday <= 7
      && iso.weekday == Weekday(today) + 1
  {
    var m0, m1, m2, m3 := IsoWeek1Monday(year - 1), IsoWeek1Monday(year), IsoWeek1Monday(year + 1), IsoWeek1Monday(year + 2);
    IsoNeighbours(year, today);
    start, end := IsoWeekDateSpec(today, year, m0, m1, m2, m3);
  }

  /** `IsoPlaces` from the week-1 Mondays of `iso.year` and the year after. */
  lemma IsoPlacesIntro(today: int, iso: IsoDate, start: int, end: int)
    requires start == IsoWeek1Monday(iso.year) && end == IsoWeek1Monday(iso.year + 1)
    requires start <= today < end
    requires today == start + 7 * (iso.week - 1) + (iso.weekday - 1)
    requires 1 <= iso.week <= 53 && 1 <= iso.weekday <= 7
    requires iso.weekday == Weekday(today) + 1
    ensures IsoPlaces(today, iso)
  {
  }

  /** The week-1 Mondays around a day of `year`: Mondays, 52 or 53 weeks
      apart, the earliest before the day and the one of `year + 1` less
      than a week before the day's end of year. */
  lemma IsoNeighbours(year: int, today: int)
    requires YmdToOrdinal(year, 1, 1) <= today < YmdToOrdinal(year + 1, 1, 1)
    ensures Weekday(IsoWeek1Monday(year - 1)) == 0 && Weekday(IsoWeek1Monday(year)) == 0
    ensures Weekday(IsoWeek1Monday(year + 1)) == 0
    ensures IsoWeek1Monday(year) - IsoWeek1Monday(year - 1) == 364 || IsoWeek1Monday(year) - IsoWeek1Monday(year - 1) == 371
    ensures IsoWeek1Monday(year + 1) - IsoWeek1Monday(year) == 364 || IsoWeek1Monday(year + 1) - IsoWeek1Monday(year) == 371
    ensures IsoWeek1Monday(year + 2) - IsoWeek1Monday(year + 1) == 364 || IsoWeek1Monday(year + 2) - IsoWeek1Monday(year + 1) == 371
    ensures IsoWeek1Monday(year - 1) <= today < IsoWeek1Monday(year + 1) + 7
  {
    Week1MondayNearNewYear(year - 1);
    Week1MondayNearNewYear(year);
    Week1MondayNearNewYear(year + 1);
    IsoYearLength(year - 1);
    IsoYearLength(year);
    IsoYearLength(year + 1);
  }

  /** What `IsoCalendar` computes: the ISO year whose weeks hold the day
      (the calendar year or a neighbour), and the week and weekday counted
      from that year's week-1 Monday. */
  lemma IsoCalendarSpec(d: Date)
    ensures IsoPlaces(Ordinal(d), IsoCalendar(d))
    ensures d.year - 1 <= IsoCalendar(d).year <= d.year + 1
  {
    OrdinalWithinYear(d);
    IsoWeekDateInYear(d.year, Ordinal(d));
  }

  /** Day `n` before Monday `m` lies in an earlier week; later days never in an earlier week. */
  lemma WeekIndexOrder(n: int, m: int)
    requires Weekday(m) == 0
    ensures n < m ==> WeekIndex(n) < WeekIndex(m)
    ensures m <= n ==> WeekIndex(m) <= WeekIndex(n)
  {
    var q := (m + 6) / 7;
    assert m + 6 == 7 * q;
    assert WeekIndex(m) == q - 1;
  }

  /** The ISO week of a date, as a Monday-to-Sunday week index. */
  lemma IsoWeekIndex(d: Date)
    ensures WeekIndex(Ordinal(d)) == WeekIndex(IsoWeek1Monday(IsoCalendar(d).year)) + IsoCalendar(d).week - 1
  {
    var iso := IsoCalendar(d);
    IsoCalendarSpec(d);
    var m := IsoWeek1Monday(iso.year);
    Week1MondayNearNewYear(iso.year);
    var q := (m + 6) / 7;
    assert m + 6 == 7 * q;
    assert Ordinal(d) - 1 == 7 * (q - 1 + iso.week - 1) + (iso.weekday - 1);
  }

  /** Two dates share an ISO week exactly when they fall in the same
      Monday-to-Sunday week, whatever their calendar years. */
  lemma SameIsoWeekIff(d: Date, e: Date)
    ensures SameIsoWeek(d, e) <==> WeekIndex(Ordinal(d)) == WeekIndex(Ordinal(e))
  {
    var i, j := IsoCalendar(d), IsoCalendar(e);
    IsoWeekIndex(d);
    IsoWeekIndex(e);
    if i.year < j.year {
      EarlierIsoYearEarlierWeek(d, e);
    } else if j.year < i.year {
      EarlierIsoYearEarlierWeek(e, d);
    }
  }

  /** A day of an earlier ISO year lies in an earlier week. */
  lemma EarlierIsoYearEarlierWeek(d: Date, e: Date)
    requires IsoCalendar(d).year < IsoCalendar(e).year
    ensures WeekIndex(Ordinal(d)) < WeekIndex(Ordinal(e))
  {
    IsoCalendarSpec(d);
    IsoCalendarSpec(e);
    EarlierIsoYearEarlierDay(Ordinal(d), IsoCalendar(d).year, Ordinal(e), IsoCalendar(e).year);
  }

  lemma EarlierIsoYearEarlierDay(n: int, y: int, p: int, z: int)
    requires y < z
    requires n < IsoWeek1Monday(y + 1) && IsoWeek1Monday(z) <= p
    ensures WeekIndex(n) < WeekIndex(p)
  {
    IsoYearsIncrease(y, z);
    Week1MondayNearNewYear(y + 1);
    Week1MondayNearNewYear(z);
    WeekIndexOrder(n, IsoWeek1Monday(y + 1));
    WeekIndexOrder(IsoWeek1Monday(y + 1), IsoWeek1Monday(z));
    WeekIndexOrder(p, IsoWeek1Monday(z));
  }

  /** Dates in the same ISO week are at most six days apart. */
  lemma SameIsoWeekIsClose(d: Date, e: Date)
    requires SameIsoWeek(d, e)
    ensures -6 <= Ordinal(d) - Ordinal(e) <= 6
  {
    SameIsoWeekIff(d, e);
  }

  /** Day numbers and week-1 Mondays used by the worked examples below. */
  lemma KnownDayNumbers()
    ensures YmdToOrdinal(2020, 1, 1) == 737425 && IsoWeek1Monday(2020) == 737423
    ensures YmdToOrdinal(2021, 1, 1) == 737791 && IsoWeek1Monday(2021) == 737794
    ensures YmdToOrdinal(2023, 1, 1) == 738521 && IsoWeek1Monday(2023) == 738522
    ensures YmdToOrdinal(2024, 1, 1) == 738886 && IsoWeek1Monday(2024) == 738886
    ensures YmdToOrdinal(2025, 1, 1) == 739252 && IsoWeek1Monday(2025) == 739250
    ensures YmdToOrdinal(2026, 1, 1) == 739617 && IsoWeek1Monday(2026) == 739614
  {
  }

  /** Monday 30 December 2024 opens week 1 of ISO year 2025. */
  lemma LastMondayOf2024(d: Date)
    requires d == CivilDate(2024, 12, 30)
    ensures IsoCalendar(d) == IsoDate(2025, 1, 1)
  {
    KnownDayNumbers();
    assert Ordinal(d) == 739250;
  }

  /** 1 January 2025 is the Wednesday of that same week. */
  lemma NewYearsDay2025(d: Date)
    requires d == CivilDate(2025, 1, 1)
    ensures IsoCalendar(d) == IsoDate(2025, 1, 3)
  {
    KnownDayNumbers();
    assert Ordinal(d) == 739252;
  }

  /** 2 June 2025 is the Monday of ISO week 23. */
  lemma FirstMondayOfJune2025(d: Date)
    requires d == CivilDate(2025, 6, 2)
    ensures IsoCalendar(d) == IsoDate(2025, 23, 1)
  {
    KnownDayNumbers();
    assert Ordinal(d) == 739404;
  }

  /** 3 June 2025 is the Tuesday of ISO week 23. */
  lemma FirstTuesdayOfJune2025(d: Date)
    requires d == CivilDate(2025, 6, 3)
    ensures IsoCalendar(d) == IsoDate(2025, 23, 2)
  {
    KnownDayNumbers();
    assert Ordinal(d) == 739405;
  }

  /** Sunday 3 January 2021 closes week 53 of ISO year 2020. */
  lemma ThirdOfJanuary2021(d: Date)
    requires d == CivilDate(2021, 1, 3)
    ensures IsoCalendar(d) == IsoDate(2020, 53, 7)
  {
    KnownDayNumbers();
    assert Ordinal(d) == 737793;
  }
}
