/** The proleptic Gregorian calendar as src/common/util/date.cpp computes it, and in closed form. */
module Calendar {
  import opened Arithmetic

  newtype int32 = x: int | -0x8000_0000 <= x < 0x8000_0000

  /** The 4/100/400 rule. */
  predicate LeapYear(year: int) {
    year % 4 == 0 && (year % 100 != 0 || year % 400 == 0)
  }

  method IsLeapYear(year: int) returns (result: bool)
    ensures result == LeapYear(year)
  {
    result := false;
    if year % 400 == 0 {
      result := true;
    } else if year % 100 == 0 {
      result := false;
    } else if year % 4 == 0 {
      result := true;
    }
  }

  /** Leap years in 1..year. */
  function LeapYears(year: int): int {
    year / 4 - year / 100 + year / 400
  }

  /** Days from 1970-01-01 to the first day of the year, in closed form. */
  function DaysBeforeYear(year: int): int {
    365 * (year - 1970) + LeapYears(year - 1) - LeapYears(1969)
  }

  function YearLength(year: int): int {
    if LeapYear(year) then 366 else 365
  }

  lemma Multiples(year: int)
    ensures year / 4 == (year - 1) / 4 + if year % 4 == 0 then 1 else 0
    ensures year / 100 == (year - 1) / 100 + if year % 100 == 0 then 1 else 0
    ensures year / 400 == (year - 1) / 400 + if year % 400 == 0 then 1 else 0
  {
  }

  lemma Cycles(year: int)
    ensures year % 400 == 0 ==> year % 100 == 0
    ensures year % 100 == 0 ==> year % 4 == 0
  {
    if year % 400 == 0 {
      Quotient(year, 100, 4 * (year / 400), 0);
    }
    if year % 100 == 0 {
      Quotient(year, 4, 25 * (year / 100), 0);
    }
  }

  lemma LeapStep(year: int)
    ensures LeapYears(year) == LeapYears(year - 1) + if LeapYear(year) then 1 else 0
  {
    Multiples(year);
    Cycles(year);
    var a, b, c := year % 4 == 0, year % 100 == 0, year % 400 == 0;
    assert LeapYear(year) == (a && (!b || c));
  }

  /** One turn of the loops over years. */
  lemma YearStep(year: int)
    ensures DaysBeforeYear(year + 1) == DaysBeforeYear(year) + YearLength(year)
  {
    LeapStep(year);
    hide LeapYears, LeapYear;
  }

  /** One turn of the 400-year cycle. */
  lemma GregorianCycle(year: int)
    ensures DaysBeforeYear(year + 400) == DaysBeforeYear(year) + 146097
    ensures LeapYear(year + 400) == LeapYear(year)
  {
    var y := year - 1;
    assert (y + 400) / 4 == y / 4 + 100;
    assert (y + 400) / 100 == y / 100 + 4;
    assert (y + 400) / 400 == y / 400 + 1;
  }

  lemma {:induction false} YearsGrow(a: int, b: int)
    requires a < b
    ensures DaysBeforeYear(a) + 365 <= DaysBeforeYear(a + 1) <= DaysBeforeYear(b)
    decreases b - a
  {
    YearStep(a);
    if a + 1 < b {
      YearsGrow(a + 1, b);
    }
  }

  /** The lengths the switch statements give; outside 1..12 the source's default applies. */
  function MonthLength(leap: bool, month: int): int {
    match month
    case 2 => if leap then 29 else 28
    case 4 => 30
    case 6 => 30
    case 9 => 30
    case 11 => 30
    case _ => 31
  }

  /** Days before the month in its year. */
  function DaysBeforeMonth(leap: bool, month: int): int
    requires 1 <= month <= 13
  {
    [0, 31, 59, 90, 120, 151, 181, 212, 243, 273, 304, 334, 365][month - 1] + if leap && month > 2 then 1 else 0
  }

  lemma MonthStep(leap: bool, month: int)
    requires 1 <= month <= 12
    ensures DaysBeforeMonth(leap, month + 1) == DaysBeforeMonth(leap, month) + MonthLength(leap, month)
  {
  }

  lemma {:induction false} MonthsGrow(leap: bool, a: int, b: int)
    requires 1 <= a < b <= 13
    ensures DaysBeforeMonth(leap, a + 1) <= DaysBeforeMonth(leap, b)
    decreases b - a
  {
    if a + 1 < b {
      MonthStep(leap, a + 1);
      MonthsGrow(leap, a + 1, b);
    }
  }

  datatype Date = Date(year: int, month: int, day: int)

  predicate ValidDate(d: Date) {
    && 1970 <= d.year <= 9999
    && 1 <= d.month <= 12
    && 1 <= d.day <= MonthLength(LeapYear(d.year), d.month)
  }

  /** The day's number, 1970-01-01 being day 0. */
  function DayNumber(d: Date): int
    requires 1 <= d.month <= 12
  {
    DaysBeforeYear(d.year) + DaysBeforeMonth(LeapYear(d.year), d.month) + d.day - 1
  }

  predicate DateBefore(a: Date, b: Date) {
    a.year < b.year || (a.year == b.year && (a.month < b.month || (a.month == b.month && a.day < b.day)))
  }

  /** A valid date lies in its year, and dates and day numbers are ordered alike; so a day number
      names at most one valid date. */
  lemma DaysOrderDates(a: Date, b: Date)
    requires ValidDate(a) && ValidDate(b)
    ensures 0 <= DayNumber(a) < DaysBeforeYear(10000) == 2932897
    ensures DayNumber(a) < DayNumber(b) <==> DateBefore(a, b)
    ensures DayNumber(a) == DayNumber(b) <==> a == b
  {
    assert DaysBeforeYear(10000) == 2932897;
    InItsYear(a);
    hide DayNumber, DaysBeforeYear, MonthLength, LeapYear;
    if DateBefore(a, b) {
      EarlierDate(a, b);
    } else if DateBefore(b, a) {
      EarlierDate(b, a);
    }
  }

  lemma InItsYear(a: Date)
    requires ValidDate(a)
    ensures DaysBeforeYear(a.year) <= DayNumber(a) < DaysBeforeYear(a.year + 1)
    ensures 0 <= DayNumber(a) < DaysBeforeYear(10000)
  {
    var leap := LeapYear(a.year);
    YearStep(a.year);
    MonthStep(leap, a.month);
    if a.month < 12 {
      MonthsGrow(leap, a.month, 13);
    }
    YearsGrow(a.year, 10000);
    if a.year > 1970 {
      YearsGrow(1970, a.year);
    }
  }

  lemma EarlierDate(a: Date, b: Date)
    requires ValidDate(a) && ValidDate(b) && DateBefore(a, b)
    ensures DayNumber(a) < DayNumber(b)
  {
    InItsYear(a);
    InItsYear(b);
    if a.year < b.year {
      YearsGrow(a.year, b.year);
    } else if a.month < b.month {
      MonthStep(LeapYear(a.year), a.month);
      MonthsGrow(LeapYear(a.year), a.month, b.month);
    }
  }

  /** The date the printer's loops search for: the one whose year and month contain the day. */
  function CivilDate(days: int): (d: Date)
    requires 0 <= days < DaysBeforeYear(10000)
    ensures ValidDate(d) && DayNumber(d) == days
  {
    var year := YearOf(1970, days);
    YearStep(year);
    var rest := days - DaysBeforeYear(year);
    var month := MonthOf(LeapYear(year), 1, rest);
    Date(year, month, rest - DaysBeforeMonth(LeapYear(year), month) + 1)
  }

  function YearOf(from: int, days: int): (year: int)
    requires 1970 <= from <= 9999 && DaysBeforeYear(from) <= days < DaysBeforeYear(10000)
    ensures from <= year <= 9999 && DaysBeforeYear(year) <= days < DaysBeforeYear(year + 1)
    decreases 10000 - from
  {
    if days < DaysBeforeYear(from + 1) then from else YearOf(from + 1, days)
  }

  function MonthOf(leap: bool, from: int, rest: int): (month: int)
    requires 1 <= from <= 12 && DaysBeforeMonth(leap, from) <= rest < DaysBeforeMonth(leap, 13)
    ensures from <= month <= 12 && DaysBeforeMonth(leap, month) <= rest < DaysBeforeMonth(leap, month + 1)
    decreases 12 - from
  {
    if rest < DaysBeforeMonth(leap, from + 1) then from else MonthOf(leap, from + 1, rest)
  }

  function YearDays(leap: bool): int32 {
    if leap then 366 else 365
  }

  /** The printer's year loop.  The day count never leaves 32 bits. */
  method FindYear(epoch: int) returns (year: int, rest: int)
    requires 0 <= epoch < DaysBeforeYear(10000)
    ensures 1970 <= year <= 9999
    ensures DaysBeforeYear(year) <= epoch < DaysBeforeYear(year + 1) && rest == epoch - DaysBeforeYear(year)
  {
    year := 1970;
    var days: int32 := 0;
    var leap := IsLeapYear(year);
    days := days + YearDays(leap);
    YearStep(1970);
    while days as int <= epoch
      invariant 1970 <= year <= 9999 && leap == LeapYear(year)
      invariant days as int == DaysBeforeYear(year + 1) <= DaysBeforeYear(10000) == 2932897
      invariant DaysBeforeYear(year) <= epoch
      decreases 9999 - year
    {
      YearStep(year + 1);
      YearsGrow(year + 1, 10000);
      if year + 2 < 10000 {
        YearsGrow(year + 2, 10000);
      }
      hide DaysBeforeYear, LeapYear;
      year := year + 1;
      leap := IsLeapYear(year);
      days := days + YearDays(leap);
    }
    YearStep(year);
    hide DaysBeforeYear, LeapYear;
    days := days - YearDays(leap);
    rest := epoch - days as int;
  }

  /** The printer's month loop. */
  method FindMonth(leap: bool, dayOfYear: int) returns (month: int, rest: int)
    requires 0 <= dayOfYear < DaysBeforeMonth(leap, 13)
    ensures 1 <= month <= 12 && 0 <= rest < MonthLength(leap, month)
    ensures rest == dayOfYear - DaysBeforeMonth(leap, month)
  {
    month := 1;
    rest := dayOfYear;
    while month < 13
      invariant 1 <= month <= 12
      invariant 0 <= rest == dayOfYear - DaysBeforeMonth(leap, month)
      decreases 13 - month
    {
      MonthStep(leap, month);
      var length := MonthLength(leap, month);
      if rest >= length {
        rest := rest - length;
        month := month + 1;
      } else {
        return;
      }
    }
  }

  method SplitDays(epoch: int) returns (year: int, month: int, day: int)
    requires 0 <= epoch < DaysBeforeYear(10000)
    ensures Date(year, month, day) == CivilDate(epoch)
  {
    var rest;
    year, rest := FindYear(epoch);
    YearStep(year);
    var leap := IsLeapYear(year);
    hide DaysBeforeYear, LeapYear;
    month, rest := FindMonth(leap, rest);
    day := rest + 1;
    DaysOrderDates(Date(year, month, day), CivilDate(epoch));
  }
}
