/** `date_to_julian` and `julian_to_date`: conversion between a calendar
    date and its ordinal day of the year (section 4.1.3 of ISO 8601:2004) in
    the proleptic Gregorian calendar, as `datetime.strptime` and `strftime`
    with the `%j` directive perform it. */
module JulianDate {
  import opened Results
  import opened PyText

  /** `str(year)` must match the four digits of `%Y`. */
  const MinYear: int := 1000
  const MaxYear: int := 9999
  /** Python 2's `strftime` refuses a date before 1 January 1900. */
  const StrftimeMinYear: int := 1900

  /** Why `strptime` raises ValueError. */
  datatype DateError =
    | FormatMismatch   // a field does not match its directive (`%Y`, `%m`, `%d`, `%j`)
    | DayOutOfRange    // the fields parse but name no real date
    | YearOutOfRange   // the date lies after 31 December 9999
    | BeforeStrftime   // `strftime` is given a date before 1900

  predicate IsLeapYear(y: int)
  {
    y % 4 == 0 && (y % 100 != 0 || y % 400 == 0)
  }

  function DaysInYear(y: int): int
  {
    if IsLeapYear(y) then 366 else 365
  }

  function DaysInMonth(y: int, m: int): (n: int)
    requires 1 <= m <= 12
    ensures 28 <= n <= 31
    ensures n == 29 <==> (m == 2 && IsLeapYear(y))
  {
    if m == 2 then (if IsLeapYear(y) then 29 else 28)
    else if m == 4 || m == 6 || m == 9 || m == 11 then 30
    else 31
  }

  predicate IsValidDate(y: int, m: int, d: int)
  {
    1 <= m <= 12 && 1 <= d <= DaysInMonth(y, m)
  }

  /** The number of days of year `y` before the first of month `m`
      (`m == 13` stands for the end of the year). */
  function DaysBeforeMonth(y: int, m: int): int
    requires 1 <= m <= 13
  {
    [0, 31, 59, 90, 120, 151, 181, 212, 243, 273, 304, 334, 365][m - 1]
      + (if IsLeapYear(y) && m > 2 then 1 else 0)
  }

  /** The table agrees with the month lengths, and the months fill the year. */
  lemma DaysBeforeMonthStep(y: int, m: int)
    requires 1 <= m <= 12
    ensures DaysBeforeMonth(y, m + 1) == DaysBeforeMonth(y, m) + DaysInMonth(y, m)
    ensures DaysBeforeMonth(y, 1) == 0 && DaysBeforeMonth(y, 13) == DaysInYear(y)
  {
  }

  lemma {:induction false} DaysBeforeMonthIncreasing(y: int, m1: int, m2: int)
    requires 1 <= m1 <= m2 <= 13
    ensures DaysBeforeMonth(y, m1) <= DaysBeforeMonth(y, m2)
    ensures m1 < m2 ==> DaysBeforeMonth(y, m1) < DaysBeforeMonth(y, m2)
    decreases m2 - m1
  {
    if m1 < m2 {
      DaysBeforeMonthStep(y, m1);
      DaysBeforeMonthIncreasing(y, m1 + 1, m2);
    }
  }

  /** The 1-based ordinal day of a valid date. */
  function DayOfYear(y: int, m: int, d: int): (j: int)
    requires IsValidDate(y, m, d)
    ensures DaysBeforeMonth(y, m) < j <= DaysBeforeMonth(y, m + 1)
    ensures 1 <= j <= DaysInYear(y)
  {
    DaysBeforeMonthStep(y, m);
    DaysBeforeMonthIncreasing(y, m + 1, 13);
    DaysBeforeMonth(y, m) + d
  }

  /** The month, from `m` on, in which ordinal day `j` falls. */
  function MonthOfDay(y: int, j: int, m: int): (r: int)
    requires 1 <= m <= 12 && DaysBeforeMonth(y, m) < j <= DaysInYear(y)
    ensures m <= r <= 12 && DaysBeforeMonth(y, r) < j <= DaysBeforeMonth(y, r + 1)
    decreases 12 - m
  {
    DaysBeforeMonthStep(y, m);
    if j <= DaysBeforeMonth(y, m + 1) then m else MonthOfDay(y, j, m + 1)
  }

  /** The calendar date of ordinal day `j` of year `y`: the inverse of DayOfYear. */
  function DateOfDay(y: int, j: int): (md: (int, int))
    requires 1 <= j <= DaysInYear(y)
    ensures IsValidDate(y, md.0, md.1) && DayOfYear(y, md.0, md.1) == j
  {
    DaysBeforeMonthStep(y, 1);
    var m := MonthOfDay(y, j, 1);
    DaysBeforeMonthStep(y, m);
    (m, j - DaysBeforeMonth(y, m))
  }

  /** Ordinal days determine the date: DateOfDay undoes DayOfYear. */
  lemma DateOfDayOfYear(y: int, m: int, d: int)
    requires IsValidDate(y, m, d)
    ensures DateOfDay(y, DayOfYear(y, m, d)) == (m, d)
  {
    var j := DayOfYear(y, m, d);
    var md := DateOfDay(y, j);
    if md.0 < m {
      DaysBeforeMonthIncreasing(y, md.0 + 1, m);
      DaysBeforeMonthIncreasing(y, md.0, md.0 + 1);
    }
    if m < md.0 {
      DaysBeforeMonthIncreasing(y, m + 1, md.0);
      DaysBeforeMonthIncreasing(y, m, m + 1);
    }
  }

  /** `date_to_julian(year, month, day)`: `strptime` of "year.month.day"
      with "%Y.%m.%d", then `strftime('%j')`, which raises for a year before 1900. */
  function DateToJulian(year: int, month: int, day: int): Result<string, DateError>
  {
    if !(MinYear <= year <= MaxYear && 1 <= month <= 12 && 1 <= day <= 31) then
      Failure(FormatMismatch)
    else if day > DaysInMonth(year, month) then
      Failure(DayOutOfRange)
    else if year < StrftimeMinYear then
      Failure(BeforeStrftime)
    else
      Success(ZeroPadded(DayOfYear(year, month, day), 3))
  }

  /** `julian_to_date(year, j_day)`: `strptime` of "year.j_day" with
      "%Y.%j", then `strftime('%m')` and `strftime('%d')`. `strptime` counts
      the day from January 1 of `year` without checking it against the
      year's length, so day 366 of a common year is January 1 of the next.
      `strftime` then raises when the resulting date lies before 1900. */
  function JulianToDate(year: int, jday: int): Result<(string, string), DateError>
  {
    if !(MinYear <= year <= MaxYear && 1 <= jday <= 366) then
      Failure(FormatMismatch)
    else if jday <= DaysInYear(year) then
      if year < StrftimeMinYear then Failure(BeforeStrftime)
      else
        var md := DateOfDay(year, jday);
        Success((ZeroPadded(md.0, 2), ZeroPadded(md.1, 2)))
    else if year == MaxYear then
      Failure(YearOutOfRange)
    else if year + 1 < StrftimeMinYear then
      Failure(BeforeStrftime)
    else
      var md := DateOfDay(year + 1, jday - DaysInYear(year));
      Success((ZeroPadded(md.0, 2), ZeroPadded(md.1, 2)))
  }

  /** date_to_julian succeeds exactly on real dates from 1900 to 9999, and
      then yields three digits naming the date's ordinal day, "001" to "366".
      A real date of a four-digit year before 1900 parses, but `strftime` refuses it. */
  lemma DateToJulianSpec(year: int, month: int, day: int)
    ensures DateToJulian(year, month, day).Success?
        <==> StrftimeMinYear <= year <= MaxYear && IsValidDate(year, month, day)
    ensures MinYear <= year < StrftimeMinYear && IsValidDate(year, month, day)
        ==> DateToJulian(year, month, day) == Failure(BeforeStrftime)
    ensures DateToJulian(year, month, day).Success? ==>
      var s := DateToJulian(year, month, day).value;
      && |s| == 3 && AllDigits(s)
      && DecimalValue(s) == DayOfYear(year, month, day)
      && 1 <= DecimalValue(s) <= DaysInYear(year) <= 366
    ensures MinYear <= year <= MaxYear && 1 <= month <= 12 && 1 <= day <= 31
              && !IsValidDate(year, month, day)
        ==> DateToJulian(year, month, day) == Failure(DayOutOfRange)
  {
    if StrftimeMinYear <= year <= MaxYear && IsValidDate(year, month, day) {
      assert Pow10(3) == 1000;
      ZeroPaddedDigits(DayOfYear(year, month, day), 3);
    }
  }

  /** julian_to_date fails exactly when `j_day` is outside 1..366, the year
      is not four digits, the rollover leaves year 9999, or the date read
      lies before 1900 (every day of a year before 1900 except day 366 of
      1899, which is 1 January 1900); on a day of a year from 1900 on it
      yields two-digit month and day strings naming the date with that
      ordinal day. */
  lemma JulianToDateSpec(year: int, jday: int)
    ensures JulianToDate(year, jday).Failure?
        <==> !(MinYear <= year <= MaxYear && 1 <= jday <= 366)
             || (year == MaxYear && jday == 366)
             || (year < StrftimeMinYear && !(year == StrftimeMinYear - 1 && jday == 366))
    ensures MinYear <= year < StrftimeMinYear && 1 <= jday <= 366
              && !(year == StrftimeMinYear - 1 && jday == 366)
        ==> JulianToDate(year, jday) == Failure(BeforeStrftime)
    ensures StrftimeMinYear <= year <= MaxYear && 1 <= jday <= DaysInYear(year) ==>
      var (mm, dd) := JulianToDate(year, jday).value;
      && |mm| == 2 && |dd| == 2 && AllDigits(mm) && AllDigits(dd)
      && IsValidDate(year, DecimalValue(mm), DecimalValue(dd))
      && DayOfYear(year, DecimalValue(mm), DecimalValue(dd)) == jday
  {
    assert !IsLeapYear(MaxYear) && !IsLeapYear(StrftimeMinYear - 1);
    if StrftimeMinYear <= year <= MaxYear && 1 <= jday <= DaysInYear(year) {
      var md := DateOfDay(year, jday);
      assert Pow10(2) == 100;
      ZeroPaddedDigits(md.0, 2);
      ZeroPaddedDigits(md.1, 2);
    }
  }

  /** In a common year day 366 is read as January 1 of the following year,
      which `strftime` accepts from 1900 on, so from the year 1899 on. */
  lemma JulianToDateRollover(year: int)
    requires StrftimeMinYear - 1 <= year < MaxYear && !IsLeapYear(year)
    ensures JulianToDate(year, 366) == Success(("01", "01"))
  {
    assert DateOfDay(year + 1, 1) == (1, 1) by {
      DateOfDayOfYear(year + 1, 1, 1);
    }
    assert ZeroPadded(1, 2) == "01";
  }

  /** Round trip from a date: the ordinal day date_to_julian writes, given
      to julian_to_date, yields the month and day back as two-digit strings. */
  lemma DateRoundTrip(year: int, month: int, day: int)
    requires StrftimeMinYear <= year <= MaxYear && IsValidDate(year, month, day)
    ensures DateToJulian(year, month, day).Success?
    ensures JulianToDate(year, DecimalValue(DateToJulian(year, month, day).value))
         == Success((ZeroPadded(month, 2), ZeroPadded(day, 2)))
  {
    DateToJulianSpec(year, month, day);
    DateOfDayOfYear(year, month, day);
  }

  /** Round trip from an ordinal day: the month and day julian_to_date
      writes, given to date_to_julian, yield the day back as three digits. */
  lemma JulianRoundTrip(year: int, jday: int)
    requires StrftimeMinYear <= year <= MaxYear && 1 <= jday <= DaysInYear(year)
    ensures JulianToDate(year, jday).Success?
    ensures var (mm, dd) := JulianToDate(year, jday).value;
      && AllDigits(mm) && AllDigits(dd)
      && DateToJulian(year, DecimalValue(mm), DecimalValue(dd)) == Success(ZeroPadded(jday, 3))
  {
    JulianToDateSpec(year, jday);
  }

  /** The documented example: December 5, 2014 is day 339. */
  lemma ExampleDecember5()
    ensures DateToJulian(2014, 12, 5) == Success("339")
  {
    assert DayOfYear(2014, 12, 5) == 339;
    assert Decimal(33) == "33";
    assert Decimal(339) == "339";
  }

  /** February 29 exists in 2016, as day 60, and not in 2015; April has no day 31. */
  lemma ExampleLeapDay()
    ensures DateToJulian(2016, 2, 29) == Success("060")
    ensures DateToJulian(2015, 2, 29) == Failure(DayOutOfRange)
    ensures DateToJulian(2014, 4, 31) == Failure(DayOutOfRange)
  {
    assert DayOfYear(2016, 2, 29) == 60;
    assert Decimal(60) == "60";
    assert Zeros(1) == "0";
    assert ZFill("60", 3) == "0" + "60" == "060";
  }

  /** Day 34 of 2015 is February 3; the docstring's day 399 does not parse. */
  lemma ExampleJulianDay()
    ensures JulianToDate(2015, 34) == Success(("02", "03"))
    ensures JulianToDate(2014, 399) == Failure(FormatMismatch)
  {
    assert DateOfDay(2015, 34) == (2, 3) by { DateOfDayOfYear(2015, 2, 3); }
    assert Zeros(1) == "0";
    assert ZeroPadded(2, 2) == "02" && ZeroPadded(3, 2) == "03";
  }

  /** Dates before 1900 parse but are refused by `strftime`; day 366 of 1899
      rolls over into 1900 and is accepted, day 366 of 1500 rolls over into
      1501 and is not. */
  lemma ExampleBefore1900()
    ensures DateToJulian(1899, 12, 31) == Failure(BeforeStrftime)
    ensures JulianToDate(1899, 1) == Failure(BeforeStrftime)
    ensures JulianToDate(1899, 366) == Success(("01", "01"))
    ensures JulianToDate(1500, 366) == Failure(BeforeStrftime)
  {
    assert DaysInMonth(1899, 12) == 31;
    assert DaysInYear(1899) == 365 && DaysInYear(1500) == 365;
    JulianToDateRollover(1899);
  }
}
