/** The sprint periods of internal/parser/retro_metadata.go: Monday to Sunday, by the N-th Monday of a month. */
module Sprints {
  import opened Options
  import opened Text
  import opened Decimal
  import opened Calendar
  import opened RetroLabels

  datatype SprintPolicy = SprintPolicy(fromMonth: string)
  datatype RetroPeriod = RetroPeriod(startDate: string, endDate: string)
  datatype YearMonth = YearMonth(year: nat, month: nat)

  /** `time.Parse("2006-01", s)`. */
  function ParseMonth(s: string): Option<YearMonth> {
    if |s| == 7 && AllDigits(s[..4]) && s[4] == '-' && AllDigits(s[5..]) && 1 <= Value(s[5..]) <= 12
    then Some(YearMonth(Value(s[..4]), Value(s[5..])))
    else None
  }

  /** None is the configuration error. The empty start month disables the policy. */
  function NewSprintPolicy(fromMonth: string): Option<SprintPolicy> {
    if fromMonth == "" then Some(SprintPolicy(""))
    else
      var month := ParseMonth(fromMonth);
      if month.None? || month.value.year < 1 || MonthString(month.value.year, month.value.month) != fromMonth
      then None
      else Some(SprintPolicy(fromMonth))
  }

  /** Start and end of a label's period. */
  function PeriodDates(p: SprintPolicy, title: Option<RetroLabel>): Option<(Date, Date)> {
    if p.fromMonth == "" || title.None? || LexLess(title.value.month, p.fromMonth)
       || title.value.sequence < 1 || title.value.sequence > 5
    then None
    else
      var month := ParseMonth(title.value.month);
      if month.None? || month.value.year < 1 || MonthString(month.value.year, month.value.month) != title.value.month
      then None
      else
        var (start, end) := Week(month.value.year, month.value.month, title.value.sequence);
        if start.month != month.value.month || end.year > 9999 then None else Some((start, end))
  }

  /** Days before the first Monday of a month. */
  function MondayOffset(year: int, month: int): (offset: int)
    requires 1 <= year && 1 <= month <= 12
    ensures 0 <= offset <= 6
  {
    (1 - Weekday(Date(year, month, 1)) + 7) % 7
  }

  /** The week that starts n - 1 weeks after the first Monday of a month. */
  function Week(year: nat, month: nat, n: nat): (Date, Date)
    requires 1 <= year && 1 <= month <= 12 && n >= 1
  {
    var start := AddDays(Date(year, month, 1), MondayOffset(year, month) + 7 * (n - 1));
    (start, AddDays(start, 6))
  }

  /** `SprintPolicy.Period`. */
  function Period(p: SprintPolicy, title: Option<RetroLabel>): Option<RetroPeriod> {
    match PeriodDates(p, title)
    case None => None
    case Some((start, end)) =>
      Some(RetroPeriod(FormatDate(start), FormatDate(end)))
  }

  // ------------------------------------------------------------------ months

  lemma ParseMonthSpec(s: string)
    ensures ParseMonth(s).Some? ==>
              var ym := ParseMonth(s).value;
              ym.year <= 9999 && 1 <= ym.month <= 12 && MonthString(ym.year, ym.month) == s
  {
    if ParseMonth(s).Some? {
      PaddedValue(s[..4]);
      PaddedValue(s[5..]);
      assert Pow10(4) == 10000;
      assert s == s[..4] + [s[4]] + s[5..];
    }
  }

  lemma ParseMonthString(year: nat, month: nat)
    requires year <= 9999 && 1 <= month <= 12
    ensures ParseMonth(MonthString(year, month)) == Some(YearMonth(year, month))
  {
    assert Pow10(4) == 10000 && Pow10(2) == 100;
    ValuePadded(year, 4);
    ValuePadded(month, 2);
    var s := MonthString(year, month);
    assert s[..4] == Padded(year, 4) && s[5..] == Padded(month, 2);
  }

  /** The accepted start months are the empty one and YYYY-MM of the years 0001 through 9999. */
  lemma PolicyAccepts(fromMonth: string)
    ensures NewSprintPolicy(fromMonth).Some?
            <==> fromMonth == ""
                 || exists y: nat, m: nat :: 1 <= y <= 9999 && 1 <= m <= 12 && fromMonth == MonthString(y, m)
    ensures NewSprintPolicy(fromMonth).Some? ==> NewSprintPolicy(fromMonth).value.fromMonth == fromMonth
  {
    ParseMonthSpec(fromMonth);
    if y: nat, m: nat :| 1 <= y <= 9999 && 1 <= m <= 12 && fromMonth == MonthString(y, m) {
      ParseMonthString(y, m);
    }
    if NewSprintPolicy(fromMonth).Some? && fromMonth != "" {
      var ym := ParseMonth(fromMonth).value;
      assert fromMonth == MonthString(ym.year, ym.month);
    }
  }

  // ----------------------------------------------------------------- Mondays

  /** Number of Mondays among the days 1..day of a month. */
  function MondaysThrough(year: int, month: int, day: int): nat
    requires 1 <= year && 1 <= month <= 12 && 0 <= day <= DaysInMonth(year, month)
    decreases day
  {
    if day <= 0 then 0
    else MondaysThrough(year, month, day - 1) + (if IsMonday(Date(year, month, day)) then 1 else 0)
  }

  /** d is the n-th Monday of its month, counted. */
  predicate NthMonday(d: Date, n: nat) {
    Valid(d) && IsMonday(d) && MondaysThrough(d.year, d.month, d.day) == n
  }

  lemma Mod7(n: int, k: int)
    ensures (n + k) % 7 == (n % 7 + k) % 7
  {
  }

  lemma WeekdayAfter(a: Date, b: Date, k: int)
    requires Valid(a) && Valid(b) && DayNumber(b) == DayNumber(a) + k
    ensures Weekday(b) == (Weekday(a) + k) % 7
  {
    Mod7(DayNumber(a), k);
  }

  lemma SundayAfter(monday: Date)
    requires Valid(monday) && IsMonday(monday)
    ensures Weekday(AddDays(monday, 6)) == 0
  {
    AddDaysNumber(monday, 6);
    WeekdayAfter(monday, AddDays(monday, 6), 6);
  }

  lemma OffsetMod(w: int, k: int)
    requires 0 <= w < 7
    ensures (w + k) % 7 == 1 <==> k % 7 == (1 - w + 7) % 7
  {
  }

  /** Mondays fall on the days offset + 1, offset + 8, ... */
  lemma MondayDays(year: int, month: int, day: int)
    requires Valid(Date(year, month, day))
    ensures IsMonday(Date(year, month, day)) <==> (day - 1) % 7 == MondayOffset(year, month)
  {
    var first := Date(year, month, 1);
    WeekdayAfter(first, Date(year, month, day), day - 1);
    OffsetMod(Weekday(first), day - 1);
  }

  lemma {:induction false} CountMondays(year: int, month: int, day: int)
    requires 1 <= year && 1 <= month <= 12 && 0 <= day <= DaysInMonth(year, month)
    ensures MondaysThrough(year, month, day) == (day + 6 - MondayOffset(year, month)) / 7
    decreases day
  {
    if day > 0 {
      CountMondays(year, month, day - 1);
      MondayDays(year, month, day);
      CountStep(day, MondayOffset(year, month));
    }
  }

  lemma CountStep(day: int, offset: int)
    requires 0 <= offset <= 6 && day >= 1
    ensures (day + 6 - offset) / 7 == (day + 5 - offset) / 7 + (if (day - 1) % 7 == offset then 1 else 0)
  {
  }

  lemma NthMondayDay(d: Date, n: nat)
    requires Valid(d)
    ensures NthMonday(d, n) <==> n >= 1 && d.day == MondayOffset(d.year, d.month) + 1 + 7 * (n - 1)
  {
    var offset := MondayOffset(d.year, d.month);
    MondayDays(d.year, d.month, d.day);
    CountMondays(d.year, d.month, d.day);
    NthArithmetic(d.day, offset, n);
  }

  lemma NthArithmetic(day: int, offset: int, n: int)
    requires 0 <= offset <= 6 && day >= 1
    ensures (day - 1) % 7 == offset && (day + 6 - offset) / 7 == n <==> n >= 1 && day == offset + 1 + 7 * (n - 1)
  {
  }

  lemma AddDaysInMonth(first: Date, k: nat)
    requires Valid(first) && first.day == 1 && k <= 34
    ensures AddDays(first, k).month == first.month <==> k < DaysInMonth(first.year, first.month)
    ensures k < DaysInMonth(first.year, first.month) ==> AddDays(first, k) == first.(day := k + 1)
  {
    AddDaysNumber(first, k);
    var d := AddDays(first, k);
    if k < DaysInMonth(first.year, first.month) {
      DayNumberOrder(d, first.(day := k + 1));
    } else {
      var last := first.(day := DaysInMonth(first.year, first.month));
      DayNumberOrder(last, d);
      if first.month < 12 {
        var over := Date(first.year, first.month + 1, 7);
        MonthStep(first.year, first.month);
        DayNumberOrder(over, d);
      } else {
        var over := Date(first.year + 1, 1, 7);
        DayNumberOrder(over, d);
      }
    }
  }

  // ------------------------------------------------------- what a period is

  /** The enabled policies: a start month that NewSprintPolicy accepts. */
  ghost predicate Active(p: SprintPolicy) {
    p.fromMonth != "" && NewSprintPolicy(p.fromMonth) == Some(p)
  }

  /** The month has an n-th Monday. */
  ghost predicate HasNthMonday(year: int, month: int, n: nat) {
    exists d :: NthMonday(d, n) && d.year == year && d.month == month
  }

  /** A label for month (year, month), n-th Monday, as extraction yields it. */
  lemma PeriodOfLabel(p: SprintPolicy, year: nat, month: nat, n: nat)
    requires Active(p) && InRange(year, month, n)
    requires !LexLess(MonthString(year, month), p.fromMonth)
    ensures PeriodDates(p, Some(LabelOf(year, month, n))).Some?
            <==> HasNthMonday(year, month, n) && !(year == 9999 && month == 12 && n >= 4)
    ensures PeriodDates(p, Some(LabelOf(year, month, n))).Some? ==>
              var (start, end) := PeriodDates(p, Some(LabelOf(year, month, n))).value;
              && NthMonday(start, n) && start.year == year && start.month == month
              && end == AddDays(start, 6) && end.year <= 9999
  {
    PeriodWeek(p, year, month, n);
    WeekOfMonth(year, month, n);
  }

  lemma PeriodWeek(p: SprintPolicy, year: nat, month: nat, n: nat)
    requires p.fromMonth != "" && InRange(year, month, n)
    requires !LexLess(MonthString(year, month), p.fromMonth)
    ensures PeriodDates(p, Some(LabelOf(year, month, n)))
         == if n <= 5 && Week(year, month, n).0.month == month && Week(year, month, n).1.year <= 9999
            then Some(Week(year, month, n)) else None
  {
    ParseMonthString(year, month);
  }

  /** Counting weeks from the first Monday reaches the n-th Monday, or leaves the month. */
  lemma WeekOfMonth(year: nat, month: nat, n: nat)
    requires InRange(year, month, n)
    ensures HasNthMonday(year, month, n) <==> n <= 5 && Week(year, month, n).0.month == month
    ensures n <= 5 && Week(year, month, n).0.month == month ==>
              var start := Week(year, month, n).0;
              && NthMonday(start, n) && start.year == year
              && (Week(year, month, n).1.year > 9999 <==> year == 9999 && month == 12 && n >= 4)
  {
    if n <= 5 {
      WeekInMonth(year, month, n);
      if Week(year, month, n).0.month == month {
        LastYear(Week(year, month, n).0, n);
      }
    }
    forall d | NthMonday(d, n) && d.year == year && d.month == month
      ensures n <= 5 && Week(year, month, n).0.month == month
    {
      NthMondayDay(d, n);
      assert n <= 5;
      WeekInMonth(year, month, n);
    }
  }

  lemma WeekInMonth(year: nat, month: nat, n: nat)
    requires 1 <= year && 1 <= month <= 12 && 1 <= n <= 5
    ensures var start := Week(year, month, n).0;
            && (start.month == month <==> MondayOffset(year, month) + 7 * (n - 1) < DaysInMonth(year, month))
            && (start.month == month ==> NthMonday(start, n) && start.year == year)
  {
    var first := Date(year, month, 1);
    var k := MondayOffset(year, month) + 7 * (n - 1);
    AddDaysInMonth(first, k);
    NthMondayDay(AddDays(first, k), n);
  }

  lemma LastDays()
    ensures DayNumber(Date(9999, 12, 31)) == 3652059
    ensures DayNumber(Date(9999, 12, 26)) == 3652054
    ensures DayNumber(Date(9999, 12, 21)) == 3652049
    ensures MondayOffset(9999, 12) == 5
  {
    DaysBeforeYearClosed(9999);
  }

  /** Only the last week of 9999 runs over into year 10000. */
  lemma LastYear(start: Date, n: nat)
    requires NthMonday(start, n) && start.year <= 9999
    ensures AddDays(start, 6).year > 9999 <==> start.year == 9999 && start.month == 12 && n >= 4
  {
    NthMondayDay(start, n);
    var last := Date(9999, 12, 31);
    AddDaysNumber(start, 6);
    DayNumberOrder(last, AddDays(start, 6));
    LastDays();
    DayNumberOrder(start, Date(9999, 12, 26));
  }

  /** Every period comes from a label of that form. */
  lemma PeriodInversion(p: SprintPolicy, title: Option<RetroLabel>) returns (year: nat, month: nat, n: nat)
    requires Active(p) && PeriodDates(p, title).Some?
    ensures InRange(year, month, n) && n <= 5 && title == Some(LabelOf(year, month, n))
    ensures !LexLess(MonthString(year, month), p.fromMonth)
  {
    ParseMonthSpec(title.value.month);
    var ym := ParseMonth(title.value.month).value;
    year, month, n := ym.year, ym.month, title.value.sequence;
  }

  /** A period is a whole Monday-to-Sunday week that starts on the label's n-th Monday. */
  lemma PeriodShape(p: SprintPolicy, title: Option<RetroLabel>)
      returns (year: nat, month: nat, n: nat, start: Date)
    requires Active(p) && Period(p, title).Some?
    ensures InRange(year, month, n) && n <= 5 && title == Some(LabelOf(year, month, n))
    ensures !LexLess(MonthString(year, month), p.fromMonth)
    ensures NthMonday(start, n) && start.year == year && start.month == month
    ensures Weekday(AddDays(start, 6)) == 0 && AddDays(start, 6).year <= 9999
    ensures PeriodDates(p, title) == Some((start, AddDays(start, 6)))
    ensures Period(p, title) == Some(RetroPeriod(FormatDate(start), FormatDate(AddDays(start, 6))))
    ensures Reads(Period(p, title).value.startDate, start)
    ensures Reads(Period(p, title).value.endDate, AddDays(start, 6))
  {
    year, month, n := PeriodInversion(p, title);
    PeriodOfLabel(p, year, month, n);
    start := PeriodDates(p, title).value.0;
    SundayAfter(start);
    FormatReads(start);
    FormatReads(AddDays(start, 6));
  }

  /** The empty start month switches periods off, and a document without a label has none. */
  lemma NoPeriod(p: SprintPolicy, title: Option<RetroLabel>)
    ensures NewSprintPolicy("") == Some(p) || title.None? ==> Period(p, title) == None
  {
    PolicyAccepts("");
  }

  /** The fifth period is missing exactly when the month has no fifth Monday. */
  lemma FifthPeriod(p: SprintPolicy, year: nat, month: nat)
    requires Active(p) && InRange(year, month, 5)
    requires !LexLess(MonthString(year, month), p.fromMonth)
    ensures Period(p, Some(LabelOf(year, month, 5))).None?
            <==> MondaysThrough(year, month, DaysInMonth(year, month)) < 5
  {
    PeriodOfLabel(p, year, month, 5);
    LastDays();
    CountMondays(year, month, DaysInMonth(year, month));
    var offset := MondayOffset(year, month);
    var d := Date(year, month, offset + 29);
    if Valid(d) {
      NthMondayDay(d, 5);
    }
    forall start: Date | Valid(start) && start.year == year && start.month == month
      ensures NthMonday(start, 5) ==> start == d
    {
      NthMondayDay(start, 5);
    }
  }

  // ------------------------------------------------------------------ tiling

  /** First Monday of a month. */
  function FirstMonday(year: int, month: int): (d: Date)
    requires 1 <= year && 1 <= month <= 12
    ensures Valid(d)
  {
    Date(year, month, MondayOffset(year, month) + 1)
  }

  /** Full-dates between two full-dates, compared as strings. */
  predicate Within(lo: string, s: string, hi: string) {
    !LexLess(s, lo) && !LexLess(hi, s)
  }

  const LAST_SPRINT_DAY := Date(9999, 12, 26)

  /** d's week: it lies in the period of label (year, month, n). */
  ghost predicate Covers(p: SprintPolicy, title: RetroLabel, d: Date)
    requires Valid(d)
  {
    Period(p, Some(title)).Some?
    && Within(Period(p, Some(title)).value.startDate, FormatDate(d), Period(p, Some(title)).value.endDate)
  }

  lemma CoversByNumber(p: SprintPolicy, title: RetroLabel, d: Date)
    requires Active(p) && Valid(d) && d.year <= 9999
    ensures Covers(p, title, d) <==>
            PeriodDates(p, Some(title)).Some?
            && DayNumber(PeriodDates(p, Some(title)).value.0) <= DayNumber(d)
               <= DayNumber(PeriodDates(p, Some(title)).value.0) + 6
  {
    if Period(p, Some(title)).Some? {
      var _, _, _, start := PeriodShape(p, Some(title));
      var end := AddDays(start, 6);
      AddDaysNumber(start, 6);
      FormatOrder(d, start);
      FormatOrder(end, d);
      DayNumberOrder(d, start);
      DayNumberOrder(end, d);
    }
  }

  /** Two periods with one start have one label. */
  lemma StartDecides(p: SprintPolicy, a: RetroLabel, b: RetroLabel)
    requires Active(p) && PeriodDates(p, Some(a)).Some? && PeriodDates(p, Some(b)).Some?
    requires PeriodDates(p, Some(a)).value.0 == PeriodDates(p, Some(b)).value.0
    ensures a == b
  {
    var _, _, _, _ := PeriodShape(p, Some(a));
    var _, _, _, _ := PeriodShape(p, Some(b));
  }

  lemma MondayArithmetic(n: int)
    requires n >= 1
    ensures n - (n - 1) % 7 >= 1 && (n - (n - 1) % 7) % 7 == 1
  {
  }

  /** The Monday on or before a date. */
  lemma MondayOf(d: Date) returns (monday: Date)
    requires Valid(d)
    ensures Valid(monday) && IsMonday(monday)
    ensures DayNumber(monday) <= DayNumber(d) <= DayNumber(monday) + 6
  {
    DayNumberPositive(d);
    var n := DayNumber(d);
    MondayArithmetic(n);
    monday := DateOf(n - (n - 1) % 7);
  }

  /** The label whose period starts on a given Monday. */
  lemma LabelOfMonday(p: SprintPolicy, monday: Date) returns (title: RetroLabel)
    requires Active(p) && Valid(monday) && IsMonday(monday)
    requires !LexLess(MonthString(monday.year, monday.month), p.fromMonth)
    requires Before(monday, Date(9999, 12, 21))
    ensures PeriodDates(p, Some(title)).Some? && PeriodDates(p, Some(title)).value.0 == monday
  {
    var n := MondaysThrough(monday.year, monday.month, monday.day);
    CountMondays(monday.year, monday.month, monday.day);
    assert NthMonday(monday, n);
    NthMondayDay(monday, n);
    title := LabelOf(monday.year, monday.month, n);
    LastDays();
    PeriodOfLabel(p, monday.year, monday.month, n);
    var start := PeriodDates(p, Some(title)).value.0;
    NthMondayDay(start, n);
  }

  /**
   * The periods of an enabled policy tile the calendar: a date lies in the period of
   * some label exactly when it runs from the first Monday of the start month through
   * 9999-12-26, and then that label is the only one.
   */
  lemma SprintTiling(p: SprintPolicy, year: nat, month: nat, d: Date)
    requires Active(p) && p.fromMonth == MonthString(year, month) && 1 <= year <= 9999 && 1 <= month <= 12
    requires Valid(d) && d.year <= 9999
    ensures (exists title :: Covers(p, title, d))
            <==> !Before(d, FirstMonday(year, month)) && !Before(LAST_SPRINT_DAY, d)
    ensures forall a, b :: Covers(p, a, d) && Covers(p, b, d) ==> a == b
  {
    forall title | Covers(p, title, d)
      ensures !Before(d, FirstMonday(year, month)) && !Before(LAST_SPRINT_DAY, d)
    {
      CoveredInRange(p, year, month, title, d);
    }
    if !Before(d, FirstMonday(year, month)) && !Before(LAST_SPRINT_DAY, d) {
      var title := RangeCovered(p, year, month, d);
      assert Covers(p, title, d);
    }
    forall a, b | Covers(p, a, d) && Covers(p, b, d) ensures a == b {
      CoversByNumber(p, a, d);
      CoversByNumber(p, b, d);
      var _, _, _, sa := PeriodShape(p, Some(a));
      var _, _, _, sb := PeriodShape(p, Some(b));
      MondaysApart(sa, sb, DayNumber(d));
      StartDecides(p, a, b);
    }
  }

  lemma MondaysApart(a: Date, b: Date, n: int)
    requires Valid(a) && Valid(b) && IsMonday(a) && IsMonday(b)
    requires DayNumber(a) <= n <= DayNumber(a) + 6 && DayNumber(b) <= n <= DayNumber(b) + 6
    ensures a == b
  {
    SameResidue(DayNumber(a), DayNumber(b));
    DayNumberOrder(a, b);
  }

  lemma SameResidue(a: int, b: int)
    requires a % 7 == b % 7
    ensures a < b ==> a + 7 <= b
    ensures b < a ==> b + 7 <= a
  {
  }

  lemma WeekInRange(start: Date, n: nat, year: nat, month: nat, d: Date)
    requires NthMonday(start, n) && AddDays(start, 6).year <= 9999
    requires 1 <= year && 1 <= month <= 12
    requires year < start.year || (year == start.year && month <= start.month)
    requires Valid(d) && DayNumber(start) <= DayNumber(d) <= DayNumber(start) + 6
    ensures !Before(d, FirstMonday(year, month)) && !Before(LAST_SPRINT_DAY, d)
  {
    MondayNotBeforeFirst(start, n, year, month);
    DayNumberOrder(start, FirstMonday(year, month));
    DayNumberOrder(d, FirstMonday(year, month));
    WeekEndsInTime(start);
    DayNumberOrder(LAST_SPRINT_DAY, d);
  }

  lemma MondayNotBeforeFirst(start: Date, n: nat, year: nat, month: nat)
    requires NthMonday(start, n) && 1 <= year && 1 <= month <= 12
    requires year < start.year || (year == start.year && month <= start.month)
    ensures !Before(start, FirstMonday(year, month))
  {
    NthMondayDay(start, n);
  }

  lemma WeekEndsInTime(monday: Date)
    requires Valid(monday) && IsMonday(monday) && AddDays(monday, 6).year <= 9999
    ensures Valid(LAST_SPRINT_DAY) && DayNumber(monday) + 6 <= DayNumber(LAST_SPRINT_DAY)
  {
    var end := AddDays(monday, 6);
    AddDaysNumber(monday, 6);
    LastDays();
    DayNumberOrder(Date(9999, 12, 31), end);
    SameResidue(DayNumber(monday), 3652048);
  }

  lemma CoveredInRange(p: SprintPolicy, year: nat, month: nat, title: RetroLabel, d: Date)
    requires Active(p) && p.fromMonth == MonthString(year, month) && 1 <= year <= 9999 && 1 <= month <= 12
    requires Valid(d) && d.year <= 9999 && Covers(p, title, d)
    ensures !Before(d, FirstMonday(year, month)) && !Before(LAST_SPRINT_DAY, d)
  {
    CoversByNumber(p, title, d);
    var y, m, n, start := PeriodShape(p, Some(title));
    MonthOrder(y, m, year, month);
    WeekInRange(start, n, year, month, d);
  }

  lemma MondayInRange(year: nat, month: nat, d: Date) returns (monday: Date)
    requires 1 <= year <= 9999 && 1 <= month <= 12 && Valid(d)
    requires !Before(d, FirstMonday(year, month)) && !Before(LAST_SPRINT_DAY, d)
    ensures Valid(monday) && IsMonday(monday) && Before(monday, Date(9999, 12, 21))
    ensures DayNumber(monday) <= DayNumber(d) <= DayNumber(monday) + 6
    ensures year < monday.year || (year == monday.year && month <= monday.month)
  {
    monday := MondayOf(d);
    MondayNotBefore(year, month, d, monday);
    MondayInTime(monday, d);
  }

  lemma MondayNotBefore(year: nat, month: nat, d: Date, monday: Date)
    requires 1 <= year && 1 <= month <= 12 && Valid(d) && !Before(d, FirstMonday(year, month))
    requires Valid(monday) && IsMonday(monday) && DayNumber(monday) <= DayNumber(d) <= DayNumber(monday) + 6
    ensures !Before(monday, FirstMonday(year, month))
  {
    var first := FirstMonday(year, month);
    FirstMondayIsMonday(year, month);
    DayNumberOrder(d, first);
    SameResidue(DayNumber(monday), DayNumber(first));
    DayNumberOrder(monday, first);
  }

  lemma FirstMondayIsMonday(year: int, month: int)
    requires 1 <= year && 1 <= month <= 12
    ensures IsMonday(FirstMonday(year, month))
  {
    var first := FirstMonday(year, month);
    MondayDays(first.year, first.month, first.day);
  }

  lemma MondayInTime(monday: Date, d: Date)
    requires Valid(monday) && IsMonday(monday) && Valid(d) && !Before(LAST_SPRINT_DAY, d)
    requires DayNumber(monday) <= DayNumber(d)
    ensures Before(monday, Date(9999, 12, 21))
  {
    LastDays();
    DayNumberOrder(LAST_SPRINT_DAY, d);
    SameResidue(DayNumber(monday), 3652048);
    DayNumberOrder(monday, Date(9999, 12, 21));
  }

  lemma RangeCovered(p: SprintPolicy, year: nat, month: nat, d: Date) returns (title: RetroLabel)
    requires Active(p) && p.fromMonth == MonthString(year, month) && 1 <= year <= 9999 && 1 <= month <= 12
    requires Valid(d) && d.year <= 9999
    requires !Before(d, FirstMonday(year, month)) && !Before(LAST_SPRINT_DAY, d)
    ensures Covers(p, title, d)
  {
    var monday := MondayInRange(year, month, d);
    MonthOrder(monday.year, monday.month, year, month);
    title := LabelOfMonday(p, monday);
    CoversByNumber(p, title, d);
  }

  lemma WeeksInOrder(s1: Date, n1: nat, s2: Date, n2: nat)
    requires NthMonday(s1, n1) && NthMonday(s2, n2)
    ensures Before(AddDays(s1, 6), s2)
            <==> s1.year < s2.year || (s1.year == s2.year && s1.month < s2.month)
                 || (s1.year == s2.year && s1.month == s2.month && n1 < n2)
  {
    NthMondayDay(s1, n1);
    NthMondayDay(s2, n2);
    AddDaysNumber(s1, 6);
    DayNumberOrder(s1, s2);
    DayNumberOrder(AddDays(s1, 6), s2);
    SameResidue(DayNumber(s1), DayNumber(s2));
  }

  /** Labels in (month, sequence) order have periods in date order, one after the other. */
  lemma SprintOrder(p: SprintPolicy, a: RetroLabel, b: RetroLabel)
    requires Active(p) && Period(p, Some(a)).Some? && Period(p, Some(b)).Some?
    ensures LexLess(a.month, b.month) || (a.month == b.month && a.sequence < b.sequence)
            <==> LexLess(Period(p, Some(a)).value.endDate, Period(p, Some(b)).value.startDate)
  {
    var y1, m1, n1, s1 := PeriodShape(p, Some(a));
    var y2, m2, n2, s2 := PeriodShape(p, Some(b));
    MonthOrder(y1, m1, y2, m2);
    WeeksInOrder(s1, n1, s2, n2);
    FormatOrder(AddDays(s1, 6), s2);
  }
}
