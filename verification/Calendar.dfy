/** The build timestamp's calendar arithmetic (`satld/build.rs`): days since
    1970-01-01 to a proleptic Gregorian date, against an independent count of
    days from leap years and month lengths. */
module Calendar {

  /** Rust's `/` on i64: towards zero. */
  function TruncDiv(a: int, b: int): int
    requires b > 0
  {
    if a >= 0 then a / b else -((-a) / b)
  }

  datatype Date = Date(year: int, month: int, day: int)

  /** `civil_from_days`, in its stages: the 400-year era that starts on
      0000-03-01, the year of the era, the month and day of that year. */
  function CivilFromDays(days: int): Date
  {
    var z := days + 719_468;
    var era := EraOf(z);
    CivilInEra(era, z - era * 146_097)
  }

  function CivilInEra(era: int, doe: int): Date
  {
    var yoe := YearOfEra(doe);
    CivilInYear(yoe + era * 400, DayOfYear(doe, yoe))
  }

  function EraOf(z: int): int
  {
    TruncDiv(if z >= 0 then z else z - 146_096, 146_097)
  }

  function YearOfEra(doe: int): int
  {
    TruncDiv(doe - TruncDiv(doe, 1460) + TruncDiv(doe, 36_524) - TruncDiv(doe, 146_096), 365)
  }

  function DayOfYear(doe: int, yoe: int): int
  {
    doe - (365 * yoe + TruncDiv(yoe, 4) - TruncDiv(yoe, 100))
  }

  function CivilInYear(y: int, doy: int): Date
  {
    var mp := TruncDiv(5 * doy + 2, 153);
    var d := doy - TruncDiv(153 * mp + 2, 5) + 1;
    var m := if mp < 10 then mp + 3 else mp - 9;
    Date(if m <= 2 then y + 1 else y, m, d)
  }

  // ---- The calendar --------------------------------------------------------

  /** Appendix C of RFC 3339. */
  predicate IsLeap(year: int) { year % 4 == 0 && (year % 100 != 0 || year % 400 == 0) }

  function LeapDay(year: int): int { if IsLeap(year) then 1 else 0 }

  /** Section 5.7 of RFC 3339. */
  function MonthLength(year: int, month: int): int
  {
    if month == 2 then 28 + LeapDay(year)
    else if month == 4 || month == 6 || month == 9 || month == 11 then 30
    else 31
  }

  predicate ValidDate(date: Date)
  {
    1 <= date.month <= 12 && 1 <= date.day <= MonthLength(date.year, date.month)
  }

  function DaysBeforeMonth(year: int, month: int): int
    requires 1 <= month <= 13
    decreases month
  {
    if month == 1 then 0 else DaysBeforeMonth(year, month - 1) + MonthLength(year, month - 1)
  }

  /** The day number of 1 January: whole years counted from 1970. */
  function YearStart(year: int): int
    decreases if year >= 1970 then year - 1970 else 1970 - year
  {
    if year == 1970 then 0
    else if year > 1970 then YearStart(year - 1) + 365 + LeapDay(year - 1)
    else YearStart(year + 1) - 365 - LeapDay(year)
  }

  /** Days from 1970-01-01 to a date, counted year by year and month by month. */
  function DayNumber(date: Date): int
    requires ValidDate(date)
  {
    YearStart(date.year) + DaysBeforeMonth(date.year, date.month) + date.day - 1
  }

  // ---- Counting years in closed form ---------------------------------------

  /** Leap years up to and including `year`, relative to year 0. */
  function Leaps(year: int): int { year / 4 - year / 100 + year / 400 }

  lemma LeapsStep(year: int)
    ensures Leaps(year) == Leaps(year - 1) + LeapDay(year)
  {
    DivStep(year, 4);
    DivStep(year, 100);
    DivStep(year, 400);
    Divisible(year);
  }

  lemma Divisible(year: int)
    ensures year % 400 == 0 ==> year % 100 == 0
    ensures year % 100 == 0 ==> year % 4 == 0
  {
    if year % 400 == 0 {
      Quotient(year, 100, 4 * (year / 400), 0);
    }
    if year % 100 == 0 {
      Quotient(year, 4, 25 * (year / 100), 0);
    }
  }

  /** Division is known from the quotient and the remainder. */
  lemma Quotient(n: int, k: int, q: int, r: int)
    requires 0 <= r < k && n == k * q + r
    ensures n / k == q && n % k == r
  {
    var d := n / k - q;
    assert k * d == r - n % k;
    Multiples(k, d);
  }

  lemma Multiples(k: int, d: int)
    requires k > 0
    ensures d >= 1 ==> k * d >= k
    ensures d <= -1 ==> k * d <= -k
  {
  }

  lemma DivStep(n: int, k: int)
    requires k == 4 || k == 100 || k == 400
    ensures n / k == (n - 1) / k + if n % k == 0 then 1 else 0
  {
  }

  lemma {:induction false} YearStartClosed(year: int)
    ensures YearStart(year) == 365 * (year - 1970) + Leaps(year - 1) - Leaps(1969)
    decreases if year >= 1970 then year - 1970 else 1970 - year
  {
    if year > 1970 {
      YearStartClosed(year - 1);
      LeapsStep(year - 1);
    } else if year < 1970 {
      YearStartClosed(year + 1);
      LeapsStep(year);
    }
  }

  // ---- The year of the era -------------------------------------------------

  /** A day of a 400-year era that starts on 1 March: `c` centuries, `q`
      four-year groups, `s` years and `r` days in. */
  datatype EraDay = EraDay(c: int, q: int, s: int, r: int) {
    predicate Valid()
    {
      && 0 <= c <= 3 && 0 <= q <= 24 && 0 <= s <= 3 && 0 <= r <= 365
      && (r == 365 ==> s == 3 && (q < 24 || c == 3))
    }

    function Year(): int { 100 * c + 4 * q + s }

    function Day(): int { 36_524 * c + 1461 * q + 365 * s + r }
  }

  /** Every day of an era has such a place. */
  lemma PlaceOf(doe: int) returns (p: EraDay)
    requires 0 <= doe <= 146_096
    ensures p.Valid() && p.Day() == doe
  {
    var c := if doe == 146_096 then 3 else doe / 36_524;
    var doc := doe - 36_524 * c;
    var q := doc / 1461;
    var dog := doc - 1461 * q;
    var s := if dog == 1460 then 3 else dog / 365;
    p := EraDay(c, q, s, dog - 365 * s);
  }

  /** The year formula finds the year of the era. */
  lemma YearAtPlace(p: EraDay)
    requires p.Valid()
    ensures 0 <= p.Day() <= 146_096
    ensures YearOfEra(p.Day()) == p.Year() && DayOfYear(p.Day(), p.Year()) == p.r
  {
    assert p.Year() / 4 == 25 * p.c + p.q && p.Year() / 100 == p.c;
    var doe := p.Day();
    var rest := 24 * p.c + p.q + 365 * p.s + p.r;
    var carry := if rest >= 1460 then 1 else 0;
    assert doe == 1460 * (25 * p.c + p.q) + rest;
    assert doe / 1460 == 25 * p.c + p.q + carry;
    if doe == 146_096 {
    } else {
      assert doe / 36_524 == p.c && doe / 146_096 == 0;
      assert doe - doe / 1460 + doe / 36_524 == 365 * p.Year() + (p.r - carry);
    }
  }

  // ---- The month -----------------------------------------------------------

  /** The month and day of a year that starts in March are a valid date, and
      count to the right day of it. */
  lemma CivilInYearIsRight(y: int, doy: int)
    requires 0 <= doy <= 365 && (doy == 365 ==> IsLeap(y + 1))
    ensures var date := CivilInYear(y, doy);
            && ValidDate(date)
            && (date.year == y ==> DaysBeforeMonth(y, date.month) + date.day - 1 == 59 + LeapDay(y) + doy)
            && (date.year != y ==>
                  date.year == y + 1 && DaysBeforeMonth(y + 1, date.month) + date.day - 1 == doy - 306)
  {
    MonthTable(y);
    MonthTable(y + 1);
    var mp := (5 * doy + 2) / 153;
    assert 153 * mp <= 5 * doy + 2 < 153 * (mp + 1);
    if mp == 0 {
    } else if mp == 1 {
    } else if mp == 2 {
    } else if mp == 3 {
    } else if mp == 4 {
    } else if mp == 5 {
    } else if mp == 6 {
    } else if mp == 7 {
    } else if mp == 8 {
    } else if mp == 9 {
    } else if mp == 10 {
    } else {
    }
  }

  lemma MonthTable(year: int)
    ensures DaysBeforeMonth(year, 1) == 0 && DaysBeforeMonth(year, 2) == 31
    ensures DaysBeforeMonth(year, 3) == 59 + LeapDay(year) && DaysBeforeMonth(year, 4) == 90 + LeapDay(year)
    ensures DaysBeforeMonth(year, 5) == 120 + LeapDay(year) && DaysBeforeMonth(year, 6) == 151 + LeapDay(year)
    ensures DaysBeforeMonth(year, 7) == 181 + LeapDay(year) && DaysBeforeMonth(year, 8) == 212 + LeapDay(year)
    ensures DaysBeforeMonth(year, 9) == 243 + LeapDay(year) && DaysBeforeMonth(year, 10) == 273 + LeapDay(year)
    ensures DaysBeforeMonth(year, 11) == 304 + LeapDay(year) && DaysBeforeMonth(year, 12) == 334 + LeapDay(year)
    ensures DaysBeforeMonth(year, 13) == 365 + LeapDay(year)
  {
    assert DaysBeforeMonth(year, 3) == 59 + LeapDay(year);
    assert DaysBeforeMonth(year, 5) == 120 + LeapDay(year);
    assert DaysBeforeMonth(year, 7) == 181 + LeapDay(year);
    assert DaysBeforeMonth(year, 9) == 243 + LeapDay(year);
    assert DaysBeforeMonth(year, 11) == 304 + LeapDay(year);
  }

  // ---- Correctness ---------------------------------------------------------

  /** The era of a day is its floor quotient, truncation notwithstanding. */
  lemma EraAtPlace(z: int, era: int, doe: int)
    requires z == 146_097 * era + doe && 0 <= doe <= 146_096
    ensures EraOf(z) == era
  {
    assert z / 146_097 == era;
    if z < 0 {
      assert 146_096 - z == 146_097 * (-era) + (146_096 - doe);
      assert (146_096 - z) / 146_097 == -era;
    }
  }

  lemma EraStage(days: int, era: int, doe: int)
    requires EraOf(days + 719_468) == era && doe == days + 719_468 - era * 146_097
    ensures CivilFromDays(days) == CivilInEra(era, doe)
  {
  }

  lemma YearStage(era: int, doe: int, yoe: int, doy: int)
    requires YearOfEra(doe) == yoe && DayOfYear(doe, yoe) == doy
    ensures CivilInEra(era, doe) == CivilInYear(yoe + era * 400, doy)
  {
  }

  /** A day number's place, and the algorithm's answer in terms of it. */
  lemma Located(days: int) returns (era: int, p: EraDay)
    ensures p.Valid() && 146_097 * era + p.Day() - 719_468 == days
    ensures CivilFromDays(days) == CivilInYear(p.Year() + era * 400, p.r)
  {
    var z := days + 719_468;
    era := z / 146_097;
    p := PlaceOf(z - 146_097 * era);
    EraAtPlace(z, era, p.Day());
    YearAtPlace(p);
    EraStage(days, era, p.Day());
    YearStage(era, p.Day(), p.Year(), p.r);
  }

  /** Every day number becomes a valid date whose independent day count is that
      number. */
  lemma CivilFromDaysIsRight(days: int)
    ensures ValidDate(CivilFromDays(days))
    ensures DayNumber(CivilFromDays(days)) == days
  {
    var era, p := Located(days);
    CivilCounts(p, era);
  }

  lemma CivilCounts(p: EraDay, era: int)
    requires p.Valid()
    ensures var date := CivilInYear(p.Year() + era * 400, p.r);
            ValidDate(date) && DayNumber(date) == 146_097 * era + p.Day() - 719_468
  {
    var y := p.Year() + era * 400;
    YearInEra(p, era);
    CivilInYearIsRight(y, p.r);
    YearStartClosed(y);
    YearStartClosed(y + 1);
    LeapsStep(y);
  }

  /** Leap years counted inside an era agree with leap years counted overall. */
  lemma YearInEra(p: EraDay, era: int)
    requires p.Valid()
    ensures Leaps(p.Year() + era * 400) == 25 * p.c + p.q - p.c + 97 * era
    ensures p.r == 365 ==> IsLeap(p.Year() + era * 400 + 1)
  {
    var y := p.Year() + era * 400;
    Quotient(y, 4, 25 * p.c + p.q + 100 * era, p.s);
    Quotient(y, 100, p.c + 4 * era, 4 * p.q + p.s);
    Quotient(y, 400, era, p.Year());
    if p.r == 365 {
      Quotient(y + 1, 4, 25 * p.c + p.q + 1 + 100 * era, 0);
      if p.q < 24 {
        Quotient(y + 1, 100, p.c + 4 * era, 4 * p.q + 4);
      } else {
        Quotient(y + 1, 400, era + 1, 0);
      }
    }
  }

  // ---- 64-bit arithmetic ---------------------------------------------------

  predicate FitsI64(n: int) { -0x8000_0000_0000_0000 <= n <= 0x7FFF_FFFF_FFFF_FFFF }

  /** No intermediate value leaves the i64 range as long as the shifted day
      number, and for a negative one its floor adjustment, do not. */
  lemma IntermediatesFit(days: int)
    requires FitsI64(days) && FitsI64(days + 719_468)
    requires days + 719_468 < 0 ==> FitsI64(days + 719_468 - 146_096)
    ensures var z := days + 719_468;
            var era := EraOf(z);
            && FitsI64(era) && FitsI64(era * 146_097) && FitsI64(era * 400)
            && 0 <= z - era * 146_097 <= 146_096
            && FitsI64(CivilFromDays(days).year)
  {
    var z := days + 719_468;
    var era, p := Located(days);
    EraAtPlace(z, era, p.Day());
    YearAtPlace(p);
    assert CivilFromDays(days).year <= p.Year() + era * 400 + 1;
    assert era * 146_097 == z - p.Day();
  }

  // ---- Order and uniqueness ------------------------------------------------

  predicate Earlier(a: Date, b: Date)
  {
    a.year < b.year || (a.year == b.year && (a.month < b.month || (a.month == b.month && a.day < b.day)))
  }

  lemma {:induction false} MonthsAscend(year: int, m1: int, m2: int)
    requires 1 <= m1 < m2 <= 13
    ensures DaysBeforeMonth(year, m1) + MonthLength(year, m1) <= DaysBeforeMonth(year, m2)
    decreases m2
  {
    if m1 + 1 < m2 {
      MonthsAscend(year, m1, m2 - 1);
    }
  }

  lemma {:induction false} YearsAscend(y1: int, y2: int)
    requires y1 < y2
    ensures YearStart(y1) + 365 + LeapDay(y1) <= YearStart(y2)
    decreases y2 - y1
  {
    if y1 + 1 < y2 {
      YearsAscend(y1, y2 - 1);
    }
  }

  /** A later date has a larger day number. */
  lemma DayNumberAscends(a: Date, b: Date)
    requires ValidDate(a) && ValidDate(b) && Earlier(a, b)
    ensures DayNumber(a) < DayNumber(b)
  {
    if a.year < b.year {
      YearsAscend(a.year, b.year);
      MonthsAscend(a.year, a.month, 13);
      MonthTable(a.year);
      if b.month > 1 {
        MonthsAscend(b.year, 1, b.month);
      }
    } else if a.month < b.month {
      MonthsAscend(a.year, a.month, b.month);
    }
  }

  /** The conversion is a bijection between day numbers and valid dates. */
  lemma DatesRoundTrip(date: Date)
    requires ValidDate(date)
    ensures CivilFromDays(DayNumber(date)) == date
  {
    var back := CivilFromDays(DayNumber(date));
    CivilFromDaysIsRight(DayNumber(date));
    if Earlier(back, date) {
      DayNumberAscends(back, date);
    } else if Earlier(date, back) {
      DayNumberAscends(date, back);
    }
  }

  /** A larger day number is a later date. */
  lemma CivilAscends(a: int, b: int)
    requires a < b
    ensures Earlier(CivilFromDays(a), CivilFromDays(b))
  {
    CivilFromDaysIsRight(a);
    CivilFromDaysIsRight(b);
    var x, y := CivilFromDays(a), CivilFromDays(b);
    if Earlier(y, x) {
      DayNumberAscends(y, x);
    }
  }

  // ---- The time of day -----------------------------------------------------

  datatype Stamp = Stamp(date: Date, hour: int, minute: int, second: int)

  /** The split of `utc_now`. */
  function UtcFromSeconds(secs: nat): Stamp
  {
    var rem := secs % 86_400;
    Stamp(CivilFromDays(secs / 86_400), rem / 3600, rem % 3600 / 60, rem % 60)
  }

  /** The stamp is a valid UTC time and names exactly that second. */
  lemma UtcIsExact(secs: nat)
    ensures var s := UtcFromSeconds(secs);
            && ValidDate(s.date) && 0 <= s.hour < 24 && 0 <= s.minute < 60 && 0 <= s.second < 60
            && 86_400 * DayNumber(s.date) + 3600 * s.hour + 60 * s.minute + s.second == secs
  {
    CivilFromDaysIsRight(secs / 86_400);
    TimeOfDay(secs % 86_400);
  }

  lemma TimeOfDay(rem: int)
    requires 0 <= rem < 86_400
    ensures 0 <= rem / 3600 < 24 && 0 <= rem % 3600 / 60 < 60
    ensures 3600 * (rem / 3600) + 60 * (rem % 3600 / 60) + rem % 60 == rem
  {
    var past := rem % 3600;
    assert rem == 60 * (60 * (rem / 3600) + past / 60) + past % 60;
    assert rem % 60 == past % 60;
  }
}
