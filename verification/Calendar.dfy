/**
 * The proleptic Gregorian calendar with the month lengths of section 5.7 and the
 * leap year rule of Appendix C of RFC 3339, as Go's `time` package computes it.
 */
module Calendar {
  import opened Text
  import opened Decimal

  datatype Date = Date(year: int, month: int, day: int)

  predicate IsLeap(year: int) {
    year % 4 == 0 && (year % 100 != 0 || year % 400 == 0)
  }

  function DaysInMonth(year: int, month: int): (days: int)
    requires 1 <= month <= 12
    ensures 28 <= days <= 31
  {
    if month == 2 then (if IsLeap(year) then 29 else 28)
    else if month in {4, 6, 9, 11} then 30
    else 31
  }

  predicate Valid(d: Date) {
    1 <= d.year && 1 <= d.month <= 12 && 1 <= d.day <= DaysInMonth(d.year, d.month)
  }

  function NextDay(d: Date): (next: Date)
    requires Valid(d)
    ensures Valid(next)
  {
    if d.day < DaysInMonth(d.year, d.month) then d.(day := d.day + 1)
    else if d.month < 12 then Date(d.year, d.month + 1, 1)
    else Date(d.year + 1, 1, 1)
  }

  /** `AddDate(0, 0, k)`. */
  function AddDays(d: Date, k: nat): (later: Date)
    requires Valid(d)
    ensures Valid(later)
  {
    if k == 0 then d else NextDay(AddDays(d, k - 1))
  }

  predicate Before(a: Date, b: Date) {
    || a.year < b.year
    || (a.year == b.year && a.month < b.month)
    || (a.year == b.year && a.month == b.month && a.day < b.day)
  }

  function DaysBeforeYear(year: int): int {
    if year <= 1 then 0
    else DaysBeforeYear(year - 1) + (if IsLeap(year - 1) then 366 else 365)
  }

  function DaysBeforeMonth(year: int, month: int): int
    requires 1 <= month <= 12
  {
    [0, 31, 59, 90, 120, 151, 181, 212, 243, 273, 304, 334][month - 1]
    + (if month > 2 && IsLeap(year) then 1 else 0)
  }

  /** Days from 0000-12-31 on; 0001-01-01 is day 1, a Monday. */
  function DayNumber(d: Date): int
    requires Valid(d)
  {
    DaysBeforeYear(d.year) + DaysBeforeMonth(d.year, d.month) + d.day
  }

  /** `time.Weekday`: Sunday is 0. */
  function Weekday(d: Date): int
    requires Valid(d)
  {
    DayNumber(d) % 7
  }

  predicate IsMonday(d: Date)
    requires Valid(d)
  {
    Weekday(d) == 1
  }

  /** `Format(time.DateOnly)`, the full-date of section 5.6 of RFC 3339. */
  function FormatDate(d: Date): string
    requires Valid(d)
  {
    Padded(d.year, 4) + "-" + Padded(d.month, 2) + "-" + Padded(d.day, 2)
  }

  // ------------------------------------------------------------ day numbers

  /** Leap days up to a year: every fourth, less every hundredth, plus every four hundredth. */
  function LeapYears(years: int): int {
    years / 4 - years / 100 + years / 400
  }

  lemma EveryFourth(years: int)
    ensures (years + 1) / 4 == years / 4 + (if (years + 1) % 4 == 0 then 1 else 0)
  {
  }

  lemma EveryHundredth(years: int)
    ensures (years + 1) / 100 == years / 100 + (if (years + 1) % 100 == 0 then 1 else 0)
  {
  }

  lemma EveryFourHundredth(years: int)
    ensures (years + 1) / 400 == years / 400 + (if (years + 1) % 400 == 0 then 1 else 0)
  {
  }

  lemma Multiples(year: int)
    ensures year % 400 == 0 ==> year % 100 == 0
    ensures year % 100 == 0 ==> year % 4 == 0
  {
  }

  lemma LeapYearsStep(years: int)
    ensures LeapYears(years + 1) == LeapYears(years) + (if IsLeap(years + 1) then 1 else 0)
  {
    EveryFourth(years);
    EveryHundredth(years);
    EveryFourHundredth(years);
    Multiples(years + 1);
  }

  lemma {:induction false} DaysBeforeYearClosed(year: int)
    requires year >= 1
    ensures DaysBeforeYear(year) == 365 * (year - 1) + LeapYears(year - 1)
    decreases year
  {
    if year > 1 {
      DaysBeforeYearClosed(year - 1);
      LeapYearsStep(year - 2);
    }
  }

  lemma MonthStep(year: int, month: int)
    requires 1 <= month < 12
    ensures DaysBeforeMonth(year, month + 1) == DaysBeforeMonth(year, month) + DaysInMonth(year, month)
  {
  }

  lemma NextDayNumber(d: Date)
    requires Valid(d)
    ensures DayNumber(NextDay(d)) == DayNumber(d) + 1
  {
    if d.day == DaysInMonth(d.year, d.month) {
      if d.month < 12 { MonthStep(d.year, d.month); }
    }
  }

  lemma {:induction false} AddDaysNumber(d: Date, k: nat)
    requires Valid(d)
    ensures DayNumber(AddDays(d, k)) == DayNumber(d) + k
  {
    if k > 0 {
      AddDaysNumber(d, k - 1);
      NextDayNumber(AddDays(d, k - 1));
    }
  }

  lemma {:induction false} YearsGrow(a: int, b: int)
    requires 1 <= a <= b
    ensures DaysBeforeYear(a) + 365 * (b - a) <= DaysBeforeYear(b)
    decreases b - a
  {
    if a < b {
      YearsGrow(a, b - 1);
    }
  }

  lemma {:induction false} MonthsGrow(year: int, a: int, b: int)
    requires 1 <= a < b <= 12
    ensures DaysBeforeMonth(year, a) + DaysInMonth(year, a) <= DaysBeforeMonth(year, b)
    decreases b - a
  {
    MonthStep(year, b - 1);
    if a < b - 1 {
      MonthsGrow(year, a, b - 1);
    }
  }

  lemma InYear(d: Date)
    requires Valid(d)
    ensures DaysBeforeYear(d.year) < DayNumber(d) <= DaysBeforeYear(d.year + 1)
  {
    if d.month < 12 { MonthsGrow(d.year, d.month, 12); }
  }

  lemma BeforeNumber(a: Date, b: Date)
    requires Valid(a) && Valid(b) && Before(a, b)
    ensures DayNumber(a) < DayNumber(b)
  {
    InYear(a);
    InYear(b);
    if a.year < b.year {
      YearsGrow(a.year + 1, b.year);
    } else if a.month < b.month {
      MonthsGrow(a.year, a.month, b.month);
    }
  }

  /** The day number orders the dates and tells them apart. */
  lemma DayNumberOrder(a: Date, b: Date)
    requires Valid(a) && Valid(b)
    ensures DayNumber(a) < DayNumber(b) <==> Before(a, b)
    ensures DayNumber(a) == DayNumber(b) <==> a == b
  {
    if Before(a, b) {
      BeforeNumber(a, b);
    } else if Before(b, a) {
      BeforeNumber(b, a);
    }
  }

  /** Every positive day number is the number of a date. */
  lemma DateOf(n: int) returns (d: Date)
    requires n >= 1
    ensures Valid(d) && DayNumber(d) == n
  {
    var origin := Date(1, 1, 1);
    AddDaysNumber(origin, n - 1);
    d := AddDays(origin, n - 1);
  }

  lemma DayNumberPositive(d: Date)
    requires Valid(d)
    ensures DayNumber(d) >= 1
  {
    DayNumberOrder(Date(1, 1, 1), d);
  }

  // -------------------------------------------------------------- formatting

  /** Up to year 9999 the string order of full-dates is the order of the dates. */
  lemma FormatOrder(a: Date, b: Date)
    requires Valid(a) && Valid(b) && a.year <= 9999 && b.year <= 9999
    ensures LexLess(FormatDate(a), FormatDate(b)) <==> Before(a, b)
    ensures FormatDate(a) == FormatDate(b) <==> a == b
  {
    assert Pow10(2) == 100 && Pow10(4) == 10000;
    PaddedOrder(a.year, b.year, 4);
    PaddedOrder(a.month, b.month, 2);
    PaddedOrder(a.day, b.day, 2);
    var ya, yb := Padded(a.year, 4), Padded(b.year, 4);
    var ma, mb := Padded(a.month, 2), Padded(b.month, 2);
    var da, db := Padded(a.day, 2), Padded(b.day, 2);
    Dashed(ya, ma + "-" + da, yb, mb + "-" + db);
    Dashed(ma, da, mb, db);
    assert FormatDate(a) == ya + "-" + (ma + "-" + da) && FormatDate(b) == yb + "-" + (mb + "-" + db);
  }

  lemma Dashed(a: string, u: string, b: string, v: string)
    requires |a| == |b|
    ensures LexLess(a + "-" + u, b + "-" + v) <==> LexLess(a, b) || (a == b && LexLess(u, v))
    ensures a + "-" + u == b + "-" + v <==> a == b && u == v
  {
    assert a + "-" + u == a + ("-" + u) && b + "-" + v == b + ("-" + v);
    LexPrefix(a, "-" + u, b, "-" + v);
    LexPrefix("-", u, "-", v);
    LexIrreflexive("-");
    var x, y := a + "-" + u, b + "-" + v;
    assert x[..|a|] == a && y[..|b|] == b && x[|a| + 1..] == u && y[|b| + 1..] == v;
  }

  /** The text is the full-date of d: four, two and two digits that read as year, month and day. */
  ghost predicate Reads(s: string, d: Date) {
    && |s| == 10 && s[4] == '-' && s[7] == '-'
    && AllDigits(s[..4]) && AllDigits(s[5..7]) && AllDigits(s[8..])
    && Value(s[..4]) == d.year && Value(s[5..7]) == d.month && Value(s[8..]) == d.day
  }

  lemma FormatReads(d: Date)
    requires Valid(d) && d.year <= 9999
    ensures Reads(FormatDate(d), d)
  {
    var y, m, n := Padded(d.year, 4), Padded(d.month, 2), Padded(d.day, 2);
    var s := FormatDate(d);
    assert Pow10(2) == 100 && Pow10(4) == 10000;
    ValuePadded(d.year, 4);
    ValuePadded(d.month, 2);
    ValuePadded(d.day, 2);
    assert s[..4] == y && s[5..7] == m && s[8..] == n;
  }
}
