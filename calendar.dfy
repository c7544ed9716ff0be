/**
 * The proleptic Gregorian calendar over .NET's day numbers: day 0 is
 * 0001-01-01 and the last representable day is 9999-12-31.  The
 * decomposition into 400-, 100-, 4- and 1-year cycles is the one .NET uses
 * to take a `DateTime` apart before formatting it.
 */
module Calendar {

  const DaysPerYear := 365
  const DaysPer4Years := 4 * DaysPerYear + 1         // 1461
  const DaysPer100Years := 25 * DaysPer4Years - 1    // 36524
  const DaysPer400Years := 4 * DaysPer100Years + 1   // 146097
  /** Number of days from 0001-01-01 to 10000-01-01. */
  const DaysTo10000 := 25 * DaysPer400Years - 366    // 3652059

  datatype Date = Date(year: nat, month: nat, day: nat)

  predicate IsLeapYear(year: int) {
    year % 4 == 0 && (year % 100 != 0 || year % 400 == 0)
  }

  /** Days before the first of `month` (1..13) in a year of the given kind. */
  function DaysToMonth(leap: bool, month: int): (r: int)
    requires 1 <= month <= 13
    ensures 0 <= r <= 366
  {
    var common := [0, 31, 59, 90, 120, 151, 181, 212, 243, 273, 304, 334, 365];
    var leapYear := [0, 31, 60, 91, 121, 152, 182, 213, 244, 274, 305, 335, 366];
    if leap then leapYear[month - 1] else common[month - 1]
  }

  function DaysInMonth(year: int, month: int): (r: int)
    requires 1 <= month <= 12
    ensures 28 <= r <= 31
  {
    MonthSpan(IsLeapYear(year), month);
    DaysToMonth(IsLeapYear(year), month + 1) - DaysToMonth(IsLeapYear(year), month)
  }

  /** Every month has 28 to 31 days. */
  lemma MonthSpan(leap: bool, month: int)
    requires 1 <= month <= 12
    ensures 28 <= DaysToMonth(leap, month + 1) - DaysToMonth(leap, month) <= 31
  {
  }

  /** A date `DateTime` can represent. */
  predicate ValidDate(d: Date) {
    && 1 <= d.year <= 9999
    && 1 <= d.month <= 12
    && 1 <= d.day <= DaysInMonth(d.year, d.month)
  }

  /** The day number of a date: days elapsed since 0001-01-01. */
  function DayNumber(d: Date): int
    requires ValidDate(d)
  {
    var y := d.year - 1;
    y * 365 + y / 4 - y / 100 + y / 400 + DaysToMonth(IsLeapYear(d.year), d.month) + d.day - 1
  }

  /** The month whose days contain `dayOfYear`, searching upward from `month`. */
  function MonthContaining(leap: bool, dayOfYear: int, month: int): (m: int)
    requires 1 <= month <= 12
    requires DaysToMonth(leap, month) <= dayOfYear < DaysToMonth(leap, 13)
    ensures month <= m <= 12
    ensures DaysToMonth(leap, m) <= dayOfYear < DaysToMonth(leap, m + 1)
    decreases 12 - month
  {
    if dayOfYear < DaysToMonth(leap, month + 1) then month
    else MonthContaining(leap, dayOfYear, month + 1)
  }

  /**
   * A year count written in 400-, 100-, 4- and 1-year cycles: its days before
   * New Year are the cycles' days, and its leap-year rule reads off the cycles.
   */
  lemma YearOfCycles(y400: int, y100: int, y4: int, y1: int)
    requires 0 <= y400 && 0 <= y100 <= 3 && 0 <= y4 <= 24 && 0 <= y1 <= 3
    ensures var y := y400 * 400 + y100 * 100 + y4 * 4 + y1;
      && y * 365 + y / 4 - y / 100 + y / 400
         == y400 * DaysPer400Years + y100 * DaysPer100Years + y4 * DaysPer4Years + y1 * DaysPerYear
      && (IsLeapYear(y + 1) <==> y1 == 3 && (y4 != 24 || y100 == 3))
  {
    YearsBeforeCycles(y400, y100, y4, y1);
    LeapAfterCycles(y400, y100, y4, y1);
  }

  lemma YearsBeforeCycles(y400: int, y100: int, y4: int, y1: int)
    requires 0 <= y400 && 0 <= y100 <= 3 && 0 <= y4 <= 24 && 0 <= y1 <= 3
    ensures var y := y400 * 400 + y100 * 100 + y4 * 4 + y1;
      y * 365 + y / 4 - y / 100 + y / 400
      == y400 * DaysPer400Years + y100 * DaysPer100Years + y4 * DaysPer4Years + y1 * DaysPerYear
  {
    var y := y400 * 400 + y100 * 100 + y4 * 4 + y1;
    assert y / 4 == y400 * 100 + y100 * 25 + y4;
    assert y / 100 == y400 * 4 + y100;
    assert y / 400 == y400;
  }

  lemma LeapAfterCycles(y400: int, y100: int, y4: int, y1: int)
    requires 0 <= y400 && 0 <= y100 <= 3 && 0 <= y4 <= 24 && 0 <= y1 <= 3
    ensures var y := y400 * 400 + y100 * 100 + y4 * 4 + y1;
      IsLeapYear(y + 1) <==> y1 == 3 && (y4 != 24 || y100 == 3)
  {
    MultipleOf4(y400 * 100 + y100 * 25 + y4, y1 + 1);
    MultipleOf100(y400 * 4 + y100, y4 * 4 + y1 + 1);
    MultipleOf400(y400, y100 * 100 + y4 * 4 + y1 + 1);
  }

  lemma MultipleOf4(q: int, r: int)
    requires 1 <= r <= 4
    ensures (4 * q + r) % 4 == 0 <==> r == 4
  {
  }

  lemma MultipleOf100(q: int, r: int)
    requires 1 <= r <= 100
    ensures (100 * q + r) % 100 == 0 <==> r == 100
  {
  }

  lemma MultipleOf400(q: int, r: int)
    requires 1 <= r <= 400
    ensures (400 * q + r) % 400 == 0 <==> r == 400
  {
  }

  /**
   * A day number taken apart as .NET does: whole 400-, 100-, 4- and 1-year
   * cycles, then the zero-based day within the year.  The 100- and 1-year
   * counts are capped at 3 so that the last day of a 400- or 4-year cycle
   * falls in that cycle's leap year.
   */
  datatype Cycles = Cycles(y400: int, y100: int, y4: int, y1: int, dayOfYear: int)

  function Decompose(n: int): Cycles {
    var y400 := n / DaysPer400Years;
    var n1 := n - y400 * DaysPer400Years;
    var y100 := if n1 / DaysPer100Years == 4 then 3 else n1 / DaysPer100Years;
    var n2 := n1 - y100 * DaysPer100Years;
    var y4 := n2 / DaysPer4Years;
    var n3 := n2 - y4 * DaysPer4Years;
    var y1 := if n3 / DaysPerYear == 4 then 3 else n3 / DaysPerYear;
    Cycles(y400, y100, y4, y1, n3 - y1 * DaysPerYear)
  }

  /** The leap-year rule for the year a decomposition falls in. */
  function CycleIsLeap(c: Cycles): bool {
    c.y1 == 3 && (c.y4 != 24 || c.y100 == 3)
  }

  lemma Peel100(n1: int)
    requires 0 <= n1 < DaysPer400Years
    ensures var y100 := if n1 / DaysPer100Years == 4 then 3 else n1 / DaysPer100Years;
      && 0 <= y100 <= 3
      && 0 <= n1 - y100 * DaysPer100Years <= DaysPer100Years
      && (n1 - y100 * DaysPer100Years == DaysPer100Years ==> y100 == 3)
  {
  }

  lemma Peel4(n2: int)
    requires 0 <= n2 <= DaysPer100Years
    ensures var y4 := n2 / DaysPer4Years;
      && 0 <= y4 <= 24
      && 0 <= n2 - y4 * DaysPer4Years < DaysPer4Years
      && (y4 == 24 ==> n2 - y4 * DaysPer4Years == n2 - 35064)
  {
  }

  lemma Peel1(n3: int)
    requires 0 <= n3 < DaysPer4Years
    ensures var y1 := if n3 / DaysPerYear == 4 then 3 else n3 / DaysPerYear;
      && 0 <= y1 <= 3
      && 0 <= n3 - y1 * DaysPerYear <= 365
      && (n3 - y1 * DaysPerYear == 365 ==> y1 == 3)
  {
  }

  /** The ranges the parts of a decomposition fall in, and that they add back up. */
  lemma CycleBounds(n: int)
    requires 0 <= n < DaysTo10000
    ensures var c := Decompose(n);
      && 0 <= c.y400 && 0 <= c.y100 <= 3 && 0 <= c.y4 <= 24 && 0 <= c.y1 <= 3
      && c.y400 * 400 + c.y100 * 100 + c.y4 * 4 + c.y1 + 1 <= 9999
      && n == c.y400 * DaysPer400Years + c.y100 * DaysPer100Years + c.y4 * DaysPer4Years
              + c.y1 * DaysPerYear + c.dayOfYear
      && 0 <= c.dayOfYear < DaysToMonth(CycleIsLeap(c), 13)
  {
    var c := Decompose(n);
    var n1 := n - c.y400 * DaysPer400Years;
    Peel400(n);
    Peel100(n1);
    var n2 := n1 - c.y100 * DaysPer100Years;
    Peel4(n2);
    var n3 := n2 - c.y4 * DaysPer4Years;
    Peel1(n3);
  }

  lemma Peel400(n: int)
    requires 0 <= n < DaysTo10000
    ensures var y400 := n / DaysPer400Years;
      && 0 <= y400 <= 24
      && 0 <= n - y400 * DaysPer400Years < DaysPer400Years
      && (y400 == 24 ==> n - y400 * DaysPer400Years < 145731)
  {
  }

  /** The calendar date of a day number. */
  function CivilFromDays(n: int): (d: Date)
    requires 0 <= n < DaysTo10000
    ensures 1 <= d.year <= 9999 && 1 <= d.month <= 12 && 1 <= d.day <= 31
  {
    var c := Decompose(n);
    CycleBounds(n);
    var month := MonthContaining(CycleIsLeap(c), c.dayOfYear, 1);
    MonthSpan(CycleIsLeap(c), month);
    Date(c.y400 * 400 + c.y100 * 100 + c.y4 * 4 + c.y1 + 1, month, c.dayOfYear - DaysToMonth(CycleIsLeap(c), month) + 1)
  }

  /**
   * The date of a day number is a valid date whose day number is the one it
   * came from, so distinct day numbers have distinct dates.
   */
  lemma CivilFromDaysRoundTrip(n: int)
    requires 0 <= n < DaysTo10000
    ensures ValidDate(CivilFromDays(n)) && DayNumber(CivilFromDays(n)) == n
  {
    var c := Decompose(n);
    CycleBounds(n);
    YearOfCycles(c.y400, c.y100, c.y4, c.y1);
  }
}
