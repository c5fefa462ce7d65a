/** When an account resets: the date and time read from a provider's sentence, placed on the calendar (UTC). */
module ResetTime {
  import opened Prelude

  const MINUTE := 60_000_000
  const DAY := 1440 * MINUTE
  const YEAR_SEARCH := 9

  predicate IsLeap(y: int) {
    y % 4 == 0 && (y % 100 != 0 || y % 400 == 0)
  }

  function DaysIn(y: int, m: int): int
    requires 1 <= m <= 12
  {
    if m == 2 then (if IsLeap(y) then 29 else 28)
    else if m == 4 || m == 6 || m == 9 || m == 11 then 30
    else 31
  }

  /** What datetime accepts; it raises ValueError for any other date. */
  predicate ValidDate(y: int, m: int, d: int) {
    1 <= y <= 9999 && 1 <= m <= 12 && 1 <= d <= DaysIn(y, m)
  }

  function DaysBeforeYear(y: int): int {
    365 * (y - 1) + (y - 1) / 4 - (y - 1) / 100 + (y - 1) / 400
  }

  function DaysBeforeMonth(y: int, m: int): int
    requires 1 <= m <= 12
  {
    if m == 1 then 0 else DaysBeforeMonth(y, m - 1) + DaysIn(y, m - 1)
  }

  /** The instant, in microseconds since the start of year 1. */
  function At(y: int, m: int, d: int, inDay: int): int
    requires 1 <= m <= 12
  {
    (DaysBeforeYear(y) + DaysBeforeMonth(y, m) + d - 1) * DAY + inDay
  }

  datatype Moment = Moment(year: int, month: int, day: int, inDay: int) {
    predicate Valid() {
      ValidDate(year, month, day) && 0 <= inDay < DAY
    }

    function Instant(): int
      requires Valid()
    {
      At(year, month, day, inDay)
    }
  }

  datatype DateField = NoDate | MonthDay(month: int, day: int) | FullDate(month: int, day: int, year: int)

  /** The fields the reset pattern captured; a month is 0 when its name is no month's. */
  datatype Fields = Fields(date: DateField, hour: int, minute: int, pm: bool)

  predicate GoodTime(f: Fields) {
    1 <= f.hour <= 12 && 0 <= f.minute <= 59
  }

  function InDay(f: Fields): (t: int)
    ensures GoodTime(f) ==> 0 <= t < DAY
  {
    ((f.hour % 12 + (if f.pm then 12 else 0)) * 60 + f.minute) * MINUTE
  }

  // ---- The calendar -------------------------------------------------------

  lemma FourthYear(y: int)
    ensures y / 4 == (y - 1) / 4 + (if y % 4 == 0 then 1 else 0)
  {
  }

  lemma HundredthYear(y: int)
    ensures y / 100 == (y - 1) / 100 + (if y % 100 == 0 then 1 else 0)
  {
  }

  lemma FourHundredthYear(y: int)
    ensures y / 400 == (y - 1) / 400 + (if y % 400 == 0 then 1 else 0)
  {
  }

  /** What is a 400th year is a 100th one, and that a fourth one. */
  lemma Nested(y: int)
    ensures (y % 400 == 0 ==> y % 100 == 0) && (y % 100 == 0 ==> y % 4 == 0)
  {
  }

  lemma YearLength(y: int)
    requires 1 <= y
    ensures DaysBeforeYear(y + 1) == DaysBeforeYear(y) + (if IsLeap(y) then 366 else 365)
  {
    FourthYear(y);
    HundredthYear(y);
    FourHundredthYear(y);
    Nested(y);
  }

  lemma DayInYear(y: int, m: int, d: int)
    requires ValidDate(y, m, d)
    ensures 0 <= DaysBeforeMonth(y, m) + d - 1 < (if IsLeap(y) then 366 else 365)
  {
    var feb := DaysIn(y, 2);
    assert DaysBeforeMonth(y, 2) == 31;
    assert DaysBeforeMonth(y, 3) == 31 + feb;
    assert DaysBeforeMonth(y, 5) == 92 + feb;
    assert DaysBeforeMonth(y, 7) == 153 + feb;
    assert DaysBeforeMonth(y, 9) == 215 + feb;
    assert DaysBeforeMonth(y, 11) == 276 + feb;
  }

  /** A moment of an earlier year is an earlier instant. */
  lemma {:induction false} LaterYear(y: int, m: int, d: int, t: int, y': int, m': int, d': int, t': int)
    requires ValidDate(y, m, d) && ValidDate(y', m', d') && 0 <= t < DAY && 0 <= t' < DAY && y < y'
    ensures At(y, m, d, t) < At(y', m', d', t')
  {
    DayInYear(y, m, d);
    DayInYear(y', m', d');
    DaysGrow(y + 1, y');
    YearLength(y);
    Scaled(DaysBeforeYear(y) + DaysBeforeMonth(y, m) + d - 1, DaysBeforeYear(y') + DaysBeforeMonth(y', m') + d' - 1, t, t');
  }

  lemma Scaled(a: int, b: int, t: int, t': int)
    requires a < b && 0 <= t < DAY && 0 <= t'
    ensures a * DAY + t < b * DAY + t'
  {
  }

  lemma {:induction false} DaysGrow(y: int, y': int)
    requires 1 <= y <= y'
    ensures DaysBeforeYear(y) <= DaysBeforeYear(y')
    decreases y' - y
  {
    if y < y' {
      YearLength(y);
      DaysGrow(y + 1, y');
    }
  }

  /** Eight years hold a leap year: the next multiple of four, or the one after it across a century. */
  lemma LeapWithin(y: int) returns (leap: int)
    ensures y < leap <= y + 8 && IsLeap(leap)
  {
    leap := NextFour(y);
    if leap % 100 == 0 && leap % 400 != 0 {
      AfterCentury(leap);
      leap := leap + 4;
    }
  }

  lemma NextFour(y: int) returns (four: int)
    ensures y < four <= y + 4 && four % 4 == 0
  {
    four := y + 4 - y % 4;
  }

  lemma AfterCentury(y: int)
    requires y % 4 == 0 && y % 100 == 0
    ensures (y + 4) % 4 == 0 && (y + 4) % 100 != 0
  {
  }

  /** The month and day of f, in year y, at its time. */
  function Candidate(f: Fields, y: int): int
    requires f.date.MonthDay? && 1 <= f.date.month <= 12
  {
    At(y, f.date.month, f.date.day, InDay(f))
  }

  /** Year y has the date, and its instant is not past. */
  predicate Ahead(f: Fields, now: Moment, y: int)
    requires now.Valid()
  {
    f.date.MonthDay? && ValidDate(y, f.date.month, f.date.day) && Candidate(f, y) >= now.Instant()
  }

  /** Whenever some year has the date ahead, one of the nine years searched has. */
  lemma WithinNineYears(f: Fields, now: Moment, far: int)
    requires now.Valid() && GoodTime(f) && Ahead(f, now, far)
    ensures exists y :: now.year <= y < now.year + YEAR_SEARCH && Ahead(f, now, y)
  {
    var m, d := f.date.month, f.date.day;
    if far < now.year {
      LaterYear(far, m, d, InDay(f), now.year, now.month, now.day, now.inDay);
      assert false;
    }
    if far >= now.year + YEAR_SEARCH {
      var y := now.year + 1;
      if m == 2 && d == 29 {
        y := LeapWithin(now.year);
      }
      assert ValidDate(y, m, d);
      LaterYear(now.year, now.month, now.day, now.inDay, y, m, d, InDay(f));
      assert Ahead(f, now, y);
    }
  }

  /** The reset instant, or None when the fields do not place one. */
  method ParseReset(f: Fields, now: Moment) returns (r: Option<int>)
    requires now.Valid()
    ensures !GoodTime(f) ==> r == None
    ensures GoodTime(f) && f.date.NoDate? ==>
              r.Some? && now.Instant() <= r.value < now.Instant() + DAY && (r.value - InDay(f)) % DAY == 0
    ensures GoodTime(f) && f.date.FullDate? ==>
              r == if ValidDate(f.date.year, f.date.month, f.date.day)
                   then Some(At(f.date.year, f.date.month, f.date.day, InDay(f))) else None
    ensures GoodTime(f) && f.date.MonthDay? ==>
              (r.Some? <==> exists y :: Ahead(f, now, y))
              && (r.Some? ==> (exists y :: Ahead(f, now, y) && r.value == Candidate(f, y))
                              && forall y | Ahead(f, now, y) :: r.value <= Candidate(f, y))
  {
    if !GoodTime(f) {
      return None;
    }
    match f.date
    case NoDate =>
      var candidate := now.Instant() - now.inDay + InDay(f);
      if candidate < now.Instant() {
        candidate := candidate + DAY;
      }
      ghost var days := DaysBeforeYear(now.year) + DaysBeforeMonth(now.year, now.month) + now.day - 1;
      WholeDays(days);
      WholeDays(days + 1);
      r := Some(candidate);
    case FullDate(month, day, year) =>
      r := if ValidDate(year, month, day) then Some(At(year, month, day, InDay(f))) else None;
    case MonthDay(_, _) =>
      r := SearchYears(f, now);
  }

  lemma WholeDays(n: int)
    ensures (n * DAY) % DAY == 0
  {
  }

  /** A month and day with no year: the next such date at or after now. */
  method SearchYears(f: Fields, now: Moment) returns (r: Option<int>)
    requires now.Valid() && GoodTime(f) && f.date.MonthDay?
    ensures r.Some? <==> exists y :: Ahead(f, now, y)
    ensures r.Some? ==> exists y :: Ahead(f, now, y) && r.value == Candidate(f, y)
    ensures r.Some? ==> forall y | Ahead(f, now, y) :: r.value <= Candidate(f, y)
  {
    for year := now.year to now.year + YEAR_SEARCH
      invariant forall y | now.year <= y < year :: !Ahead(f, now, y)
    {
      if ValidDate(year, f.date.month, f.date.day) {
        var candidate := At(year, f.date.month, f.date.day, InDay(f));
        if candidate >= now.Instant() {
          assert Ahead(f, now, year);
          forall y | Ahead(f, now, y)
            ensures candidate <= Candidate(f, y)
          {
            EarliestYear(f, now, year, y);
          }
          return Some(candidate);
        }
      }
    }
    if far :| Ahead(f, now, far) {
      WithinNineYears(f, now, far);
    }
    r := None;
  }

  lemma EarliestYear(f: Fields, now: Moment, first: int, y: int)
    requires now.Valid() && GoodTime(f) && Ahead(f, now, first) && Ahead(f, now, y)
    requires now.year <= first && forall k | now.year <= k < first :: !Ahead(f, now, k)
    ensures Candidate(f, first) <= Candidate(f, y)
  {
    if y < now.year {
      LaterYear(y, f.date.month, f.date.day, InDay(f), now.year, now.month, now.day, now.inDay);
    } else if first < y {
      LaterYear(first, f.date.month, f.date.day, InDay(f), y, f.date.month, f.date.day, InDay(f));
    }
  }

  /** Nine years is tight: on 1 March 2096 the next 29 February is that of 2104, the ninth year of the search. */
  lemma NineIsTight(f: Fields, now: Moment)
    requires f == Fields(MonthDay(2, 29), 12, 0, false) && now == Moment(2096, 3, 1, 0)
    ensures now.Valid() && GoodTime(f)
    ensures Ahead(f, now, 2104)
    ensures forall y | now.year <= y < now.year + (YEAR_SEARCH - 1) :: !Ahead(f, now, y)
  {
    LaterYear(2096, 3, 1, 0, 2104, 2, 29, InDay(f));
    assert DaysBeforeMonth(2096, 3) == 60 && DaysBeforeMonth(2096, 2) == 31;
    forall y | 2096 <= y < 2104
      ensures !Ahead(f, now, y)
    {
      assert y == 2096 || !IsLeap(y);
    }
  }
}
