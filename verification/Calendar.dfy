/** Calendar dates, and adding months to them: a day the target month lacks
    falls to its last day. */
module Calendar {
  datatype Date = Date(year: int, month: int, day: int)

  predicate Leap(year: int) { (year % 4 == 0 && year % 100 != 0) || year % 400 == 0 }

  function DaysIn(year: int, month: int): (days: int)
    ensures 28 <= days <= 31
  {
    if month == 2 then (if Leap(year) then 29 else 28)
    else if month == 4 || month == 6 || month == 9 || month == 11 then 30
    else 31
  }

  /** Date.UTC reads the years 0 to 99 as 1900 to 1999. */
  function UtcYear(year: int): int { if 0 <= year <= 99 then 1900 + year else year }

  function UtcDaysIn(year: int, month: int): (days: int)
    ensures 28 <= days <= 31
  {
    DaysIn(UtcYear(year), month)
  }

  predicate Valid(d: Date) { 1 <= d.month <= 12 && 1 <= d.day <= DaysIn(d.year, d.month) }

  /** Months since the start of year 0. */
  function Index(d: Date): int { d.year * 12 + d.month - 1 }

  predicate Before(a: Date, b: Date) { Index(a) < Index(b) || (Index(a) == Index(b) && a.day < b.day) }

  function YearOf(index: int): int { index / 12 }

  function MonthOf(index: int): int { index - YearOf(index) * 12 + 1 }

  function Clamp(day: int, days: int): int { if day <= days then day else days }

  /** `shiftMonths` of the lease option rules. */
  function ShiftMonths(d: Date, months: int): Date {
    var index := Index(d) + months;
    Date(YearOf(index), MonthOf(index), Clamp(d.day, DaysIn(YearOf(index), MonthOf(index))))
  }

  /** `addMonthsClamped` of the Darwin date helpers. */
  function AddMonthsClamped(d: Date, months: int): Date {
    var index := Index(d) + months;
    Date(YearOf(index), MonthOf(index), Clamp(d.day, UtcDaysIn(YearOf(index), MonthOf(index))))
  }

  /** The date Date.UTC makes of a date: 29 February of year 0, a day 1900 lacks,
      is carried over to 1 March. */
  function Utc(d: Date): Date {
    var year := UtcYear(d.year);
    if d.month == 2 && d.day > DaysIn(year, 2)
    then Date(year, 3, d.day - DaysIn(year, 2))
    else Date(year, d.month, d.day)
  }

  /** A day later or earlier, through Date.UTC. */
  function NextDay(d: Date): Date {
    var utc := Utc(d);
    if utc.day < DaysIn(utc.year, utc.month) then utc.(day := utc.day + 1)
    else if utc.month < 12 then Date(utc.year, utc.month + 1, 1)
    else Date(utc.year + 1, 1, 1)
  }

  function PreviousDay(d: Date): Date {
    var utc := Utc(d);
    if utc.day > 1 then utc.(day := utc.day - 1)
    else if utc.month > 1 then Date(utc.year, utc.month - 1, DaysIn(utc.year, utc.month - 1))
    else Date(utc.year - 1, 12, 31)
  }

  lemma SameDate(a: Date, b: Date)
    requires Valid(a) && Valid(b) && !Before(a, b) && !Before(b, a)
    ensures a == b
  {
  }

  lemma ShiftLands(d: Date, months: int)
    requires Valid(d)
    ensures Valid(ShiftMonths(d, months)) && Index(ShiftMonths(d, months)) == Index(d) + months
    ensures Index(AddMonthsClamped(d, months)) == Index(d) + months && 1 <= AddMonthsClamped(d, months).month <= 12
    ensures ShiftMonths(d, 0) == d
  {
  }

  /** More months, strictly later; and no two months apart land on one date. */
  lemma ShiftGrows(d: Date, a: int, b: int)
    requires Valid(d) && a < b
    ensures Before(ShiftMonths(d, a), ShiftMonths(d, b))
    ensures Before(AddMonthsClamped(d, a), AddMonthsClamped(d, b))
  {
    ShiftLands(d, a);
    ShiftLands(d, b);
    hide ShiftMonths, AddMonthsClamped;
  }

  lemma UtcDaysAgree(year: int, month: int)
    ensures UtcDaysIn(year, month) == DaysIn(year, month) <==> !(year == 0 && month == 2)
  {
    if 0 < year < 100 {
      assert Leap(1900 + year) <==> year % 4 == 0;
    }
  }

  /** The two month sums differ only on 29 February of year 0, a year Date.UTC
      takes for 1900. */
  lemma SumsAgree(d: Date, months: int)
    requires Valid(d)
    ensures AddMonthsClamped(d, months) == ShiftMonths(d, months)
       <==> !(Index(d) + months == 1 && d.day > 28)
  {
    var index := Index(d) + months;
    UtcDaysAgree(YearOf(index), MonthOf(index));
    assert YearOf(index) == 0 && MonthOf(index) == 2 <==> index == 1;
    if index != 1 {
      hide *;
      SameSum(d, months);
    }
  }

  lemma SameSum(d: Date, months: int)
    requires UtcDaysIn(YearOf(Index(d) + months), MonthOf(Index(d) + months))
          == DaysIn(YearOf(Index(d) + months), MonthOf(Index(d) + months))
    ensures AddMonthsClamped(d, months) == ShiftMonths(d, months)
  {
    hide UtcDaysIn, DaysIn, YearOf, MonthOf, Index;
  }

  /** The day after, and nothing between, exactly outside the years 0 to 99. */
  lemma NextDayIsNext(d: Date)
    requires Valid(d) && d.year >= 0
    ensures Valid(NextDay(d))
    ensures d.year >= 100 <==>
      Before(d, NextDay(d)) && forall e: Date :: Valid(e) && Before(d, e) ==> !Before(e, NextDay(d))
  {
    if d.year < 100 {
      var e := Date(d.year + 1, 1, 1);
      assert Valid(e) && Before(d, e) && Before(e, NextDay(d));
    }
  }

  lemma PreviousUndoesNext(d: Date)
    requires Valid(d) && d.year >= 100
    ensures PreviousDay(NextDay(d)) == d
    ensures d != Date(100, 1, 1) ==> NextDay(PreviousDay(d)) == d
  {
  }

  /** Days before the year that starts on 1 March of `year`, and before its month. */
  function YearStart(year: int): int { 365 * year + year / 4 - year / 100 + year / 400 }

  function MonthStart(month: int): int { (153 * month + 2) / 5 }

  /** Days since 1 March of year 0: of the years before, counted from March, and of
      the days since, the months being of 153 days in fives. */
  function DayNumber(d: Date): int {
    if d.month <= 2 then YearStart(d.year - 1) + MonthStart(d.month + 9) + d.day - 1
    else YearStart(d.year) + MonthStart(d.month - 3) + d.day - 1
  }

  lemma FourStep(year: int)
    ensures year / 4 - (year - 1) / 4 == if year % 4 == 0 then 1 else 0
  {
  }

  lemma HundredStep(year: int)
    ensures year / 100 - (year - 1) / 100 == if year % 100 == 0 then 1 else 0
  {
  }

  lemma FourHundredStep(year: int)
    ensures year / 400 - (year - 1) / 400 == if year % 400 == 0 then 1 else 0
  {
  }

  function LeapDays(year: int): int {
    (if year % 4 == 0 then 1 else 0) - (if year % 100 == 0 then 1 else 0) + (if year % 400 == 0 then 1 else 0)
  }

  lemma YearLength(year: int)
    ensures YearStart(year) - YearStart(year - 1) == 365 + LeapDays(year)
  {
    FourStep(year);
    HundredStep(year);
    FourHundredStep(year);
  }

  lemma MonthLength(month: int)
    requires 1 <= month <= 12
    ensures month > 2 ==> MonthStart(month - 2) - MonthStart(month - 3) == DaysIn(1, month)
    ensures month == 1 ==> MonthStart(11) - MonthStart(10) == 31
    ensures month == 12 ==> MonthStart(10) - MonthStart(9) == 31
    ensures MonthStart(0) == 0 && MonthStart(11) == 337
  {
  }

  /** From year 100 on the days are numbered without a gap: the month lengths and
      leap years are those of the Gregorian calendar. */
  lemma DaysCountUp(d: Date)
    requires Valid(d) && d.year >= 100
    ensures Valid(NextDay(d)) && DayNumber(NextDay(d)) == DayNumber(d) + 1
  {
    hide YearStart, MonthStart, Leap, LeapDays;
    if d.day < DaysIn(d.year, d.month) {
      assert NextDay(d) == d.(day := d.day + 1);
    } else if d.month == 2 {
      YearLength(d.year);
      LeapDay(d.year);
      MonthLength(2);
    } else {
      MonthLength(d.month);
      MonthAnyYear(d.year, d.month);
    }
  }

  lemma MonthAnyYear(year: int, month: int)
    ensures month != 2 ==> DaysIn(year, month) == DaysIn(1, month)
  {
  }

  lemma LeapDay(year: int)
    ensures DaysIn(year, 2) == 28 + LeapDays(year)
  {
    assert year % 100 == 0 ==> year % 4 == 0 by {
      assert year == 100 * (year / 100) + year % 100;
    }
    assert year % 400 == 0 ==> year % 100 == 0 by {
      assert year == 400 * (year / 400) + year % 400;
    }
  }

  /** `r` is the same day of the month numbered `index`, or its last day when it is
      shorter. */
  ghost predicate SameDayIn(d: Date, index: int, r: Date) {
    && Valid(r) && r.year * 12 + r.month - 1 == index
    && r.day <= d.day && (r.day < d.day ==> !Valid(r.(day := r.day + 1)))
  }

  /** Months later or earlier is the same day of that month, or its last. */
  lemma ShiftIsSameDay(d: Date, months: int, r: Date)
    requires Valid(d)
    ensures SameDayIn(d, d.year * 12 + d.month - 1 + months, r) <==> r == ShiftMonths(d, months)
  {
    ShiftLands(d, months);
  }
}
