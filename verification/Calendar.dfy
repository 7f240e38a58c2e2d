/**
 Calendar dates as ECMAScript has them: a date is a day number (0 is 1 January 1970), and
 getDate, setDate and setMonth go through the proleptic Gregorian calendar.  A month is
 numbered 12 * year + month, months of a year counted from 0.
 */
module Calendar {

  const JANUARY_1970 := 12 * 1970

  predicate IsLeap(year: int) {
    year % 4 == 0 && (year % 100 != 0 || year % 400 == 0)
  }

  function LengthInYear(month: int, leap: bool): (days: int)
    ensures 28 <= days <= 31
  {
    if month == 1 then (if leap then 29 else 28)
    else if month == 3 || month == 5 || month == 8 || month == 10 then 30
    else 31
  }

  function MonthLength(month: int): (days: int)
    ensures 28 <= days <= 31
  {
    LengthInYear(month % 12, IsLeap(month / 12))
  }

  /** The day number of the first of a month. */
  function FirstDay(month: int): int
    decreases if month >= JANUARY_1970 then month - JANUARY_1970 else JANUARY_1970 - month
  {
    if month == JANUARY_1970 then 0
    else if month > JANUARY_1970 then FirstDay(month - 1) + MonthLength(month - 1)
    else FirstDay(month + 1) - MonthLength(month)
  }

  lemma MonthsAbut(month: int)
    ensures FirstDay(month + 1) == FirstDay(month) + MonthLength(month)
  {
  }

  /** MakeDay: a date outside the month runs over into its neighbours, date 0 being the day before. */
  function MakeDay(month: int, date: int): int {
    FirstDay(month) + date - 1
  }

  /** The month a day lies in, searched from a first guess. */
  function MonthFrom(day: int, guess: int): (month: int)
    ensures FirstDay(month) <= day < FirstDay(month) + MonthLength(month)
    decreases day < FirstDay(guess), if day < FirstDay(guess) then FirstDay(guess) - day else day - FirstDay(guess)
  {
    MonthsAbut(guess);
    MonthsAbut(guess - 1);
    if day < FirstDay(guess) then MonthFrom(day, guess - 1)
    else if FirstDay(guess) + MonthLength(guess) <= day then MonthFrom(day, guess + 1)
    else guess
  }

  function MonthOf(day: int): int {
    MonthFrom(day, JANUARY_1970)
  }

  /** getDate */
  function DateOf(day: int): (date: int)
    ensures 1 <= date <= MonthLength(MonthOf(day))
  {
    day - FirstDay(MonthOf(day)) + 1
  }

  lemma {:induction false} FirstDayMonotone(earlier: int, later: int)
    requires earlier < later
    ensures FirstDay(earlier) + MonthLength(earlier) <= FirstDay(later)
    decreases later - earlier
  {
    if earlier + 1 == later {
      MonthsAbut(earlier);
    } else {
      FirstDayMonotone(earlier, later - 1);
      MonthsAbut(later - 1);
    }
  }

  /** A date within a month is in that month: MakeDay and its two readings are inverse. */
  lemma MakeDayReadsBack(month: int, date: int)
    requires 1 <= date <= MonthLength(month)
    ensures MonthOf(MakeDay(month, date)) == month
    ensures DateOf(MakeDay(month, date)) == date
  {
    var found := MonthOf(MakeDay(month, date));
    if found < month {
      FirstDayMonotone(found, month);
    } else if month < found {
      FirstDayMonotone(month, found);
    }
  }

  // ---- The closed form of ECMA-262 ----

  /** DayFromYear of ECMA-262, section 21.4.1.3. */
  function DayFromYear(year: int): int {
    365 * (year - 1970) + (year - 1969) / 4 - (year - 1901) / 100 + (year - 1601) / 400
  }

  lemma Quotient(x: int, divisor: int)
    requires divisor == 4 || divisor == 100 || divisor == 400
    ensures (x + 1) / divisor == x / divisor + (if (x + 1) % divisor == 0 then 1 else 0)
  {
  }

  // The divisors of the formula, shifted by its years.

  lemma SameInFour(year: int)
    ensures (year - 1968) % 4 == year % 4
  {
    assert year - 1968 == 4 * (year / 4 - 492) + year % 4;
  }

  lemma SameInHundred(year: int)
    ensures (year - 1900) % 100 == year % 100
  {
    assert year - 1900 == 100 * (year / 100 - 19) + year % 100;
  }

  lemma SameInFourHundred(year: int)
    ensures (year - 1600) % 400 == year % 400
  {
    assert year - 1600 == 400 * (year / 400 - 4) + year % 400;
  }

  lemma CenturiesDivide(year: int)
    ensures year % 400 == 0 ==> year % 100 == 0
    ensures year % 100 == 0 ==> year % 4 == 0
  {
  }

  lemma YearLength(year: int)
    ensures DayFromYear(year + 1) == DayFromYear(year) + (if IsLeap(year) then 366 else 365)
  {
    SameInFour(year);
    SameInHundred(year);
    SameInFourHundred(year);
    CenturiesDivide(year);
    Quotient(year - 1969, 4);
    Quotient(year - 1901, 100);
    Quotient(year - 1601, 400);
  }

  function DaysToMonth(month: nat, leap: bool): int {
    if month == 0 then 0 else DaysToMonth(month - 1, leap) + LengthInYear(month - 1, leap)
  }

  lemma {:induction false} WithinYear(year: int, month: nat)
    requires month <= 12
    ensures FirstDay(12 * year + month) == FirstDay(12 * year) + DaysToMonth(month, IsLeap(year))
  {
    if month > 0 {
      WithinYear(year, month - 1);
      MonthsAbut(12 * year + month - 1);
      assert (12 * year + month - 1) / 12 == year && (12 * year + month - 1) % 12 == month - 1;
    }
  }

  /** Counting month by month agrees with the standard's leap-year arithmetic for every year. */
  lemma {:induction false} JanuaryIsDayFromYear(year: int)
    ensures FirstDay(12 * year) == DayFromYear(year)
    decreases if year >= 1970 then year - 1970 else 1970 - year
  {
    if year > 1970 {
      JanuaryIsDayFromYear(year - 1);
      WithinYear(year - 1, 12);
      DaysToEachMonth(12, IsLeap(year - 1));
      YearLength(year - 1);
    } else if year < 1970 {
      JanuaryIsDayFromYear(year + 1);
      WithinYear(year, 12);
      DaysToEachMonth(12, IsLeap(year));
      YearLength(year);
    }
  }

  /**
   DayWithinYear of ECMA-262, section 21.4.1.4: the days before each month of every year, a leap day counted from
   March on.
   */
  lemma MonthsBegin(year: int, month: nat)
    requires month <= 12
    ensures FirstDay(12 * year + month)
         == DayFromYear(year)
            + [0, 31, 59, 90, 120, 151, 181, 212, 243, 273, 304, 334, 365][month]
            + (if month >= 2 && year % 4 == 0 && (year % 100 != 0 || year % 400 == 0) then 1 else 0)
  {
    WithinYear(year, month);
    JanuaryIsDayFromYear(year);
    DaysToEachMonth(month, IsLeap(year));
  }

  lemma {:induction false} DaysToEachMonth(month: nat, leap: bool)
    requires month <= 12
    ensures DaysToMonth(month, leap)
         == [0, 31, 59, 90, 120, 151, 181, 212, 243, 273, 304, 334, 365][month] + (if month >= 2 && leap then 1 else 0)
  {
    if month > 0 {
      DaysToEachMonth(month - 1, leap);
    }
  }

  // ---- Adding months ----

  function Clamp(date: int, month: int): int {
    if date <= MonthLength(month) then date else MonthLength(month)
  }

  /** The same date `months` months later, or the last date there is in that month. */
  function SameDateClamped(first: int, months: int): int {
    MakeDay(MonthOf(first) + months, Clamp(DateOf(first), MonthOf(first) + months))
  }

  /** Each date is reckoned from the first one, so clamping in a short month leaves no trace later. */
  lemma ClampedDate(first: int, months: int)
    ensures MonthOf(SameDateClamped(first, months)) == MonthOf(first) + months
    ensures DateOf(SameDateClamped(first, months)) == Clamp(DateOf(first), MonthOf(first) + months)
    ensures DateOf(SameDateClamped(first, months))
         == if DateOf(first) <= MonthLength(MonthOf(first) + months) then DateOf(first)
            else MonthLength(MonthOf(first) + months)
  {
    var month := MonthOf(first) + months;
    MakeDayReadsBack(month, Clamp(DateOf(first), month));
  }

  lemma LastDay(month: int)
    ensures DateOf(MakeDay(month + 1, 0)) == MonthLength(month)
  {
    MonthsAbut(month);
    MakeDayReadsBack(month, MonthLength(month));
  }

  /** setDate: the month stays, the date may run over. */
  function SetDate(day: int, date: int): int {
    MakeDay(MonthOf(day), date)
  }

  /** setMonth(getMonth() + months): the date number stays. */
  function AddToMonth(day: int, months: int): int {
    MakeDay(MonthOf(day) + months, DateOf(day))
  }

  lemma FirstOfMonth(day: int, months: int)
    ensures MonthOf(AddToMonth(SetDate(day, 1), months)) == MonthOf(day) + months
  {
    MakeDayReadsBack(MonthOf(day), 1);
    MakeDayReadsBack(MonthOf(day) + months, 1);
  }

  /** addMonthsClamped: the date is moved to the first, then by months, then back to its day. */
  method AddMonthsClamped(date: int, monthsToAdd: int) returns (result: int)
    ensures MonthOf(result) == MonthOf(date) + monthsToAdd
    ensures DateOf(result) == if DateOf(date) <= MonthLength(MonthOf(result)) then DateOf(date)
                              else MonthLength(MonthOf(result))
    ensures result == SameDateClamped(date, monthsToAdd)
  {
    var originalDay := DateOf(date);
    result := date;
    result := SetDate(result, 1);
    result := AddToMonth(result, monthsToAdd);
    FirstOfMonth(date, monthsToAdd);

    var lastDayOfTargetMonth := DateOf(MakeDay(MonthOf(result) + 1, 0));
    LastDay(MonthOf(result));
    result := SetDate(result, if originalDay <= lastDayOfTargetMonth then originalDay else lastDayOfTargetMonth);
    ClampedDate(date, monthsToAdd);
  }

  lemma OneOfTwoMonthsIsLong(month: int)
    ensures MonthLength(month) == 31 || MonthLength(month + 1) == 31
  {
    assert (month + 1) % 12 == if month % 12 == 11 then 0 else month % 12 + 1;
  }

  /** Dates a month apart strictly increase, by at least a February and at most a long month. */
  lemma ConsecutiveDates(first: int, months: int)
    ensures 28 <= SameDateClamped(first, months + 1) - SameDateClamped(first, months) <= 31
  {
    MonthsAbut(MonthOf(first) + months);
    OneOfTwoMonthsIsLong(MonthOf(first) + months);
  }
}
