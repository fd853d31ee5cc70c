/** How a recurring payment's expected date advances, and what recording its occurrences leaves behind. */
module Recurrence {
  import opened Wrappers

  // ---------------------------------------------------------------- the calendar

  const MAX_YEAR := 9999

  datatype Date = Date(year: int, month: int, day: int)
  {
    predicate Valid() { 1 <= year <= MAX_YEAR && 1 <= month <= 12 && 1 <= day <= MonthLength(year, month) }
    function Index(): int { year * 12 + month - 1 }
    predicate MonthEnd() { day == MonthLength(year, month) }
  }

  predicate Leap(year: int) { year % 4 == 0 && (year % 100 != 0 || year % 400 == 0) }

  function MonthLength(year: int, month: int): (n: int)
    ensures 28 <= n <= 31
  {
    if month == 2 then (if Leap(year) then 29 else 28)
    else if month == 4 || month == 6 || month == 9 || month == 11 then 30
    else 31
  }

  /** The length of the month with the given absolute index. */
  function LengthAt(index: int): (n: int)
    ensures 28 <= n <= 31
  {
    MonthLength(index / 12, index % 12 + 1)
  }

  function DaysBeforeYear(year: int): int
  {
    (year - 1) * 365 + (year - 1) / 4 - (year - 1) / 100 + (year - 1) / 400
  }

  function DaysBeforeMonth(year: int, month: nat): int
  {
    if month <= 1 then 0 else DaysBeforeMonth(year, month - 1) + MonthLength(year, month - 1)
  }

  /** The proleptic Gregorian day number. */
  function Ordinal(d: Date): int
    requires d.Valid()
  {
    DaysBeforeYear(d.year) + DaysBeforeMonth(d.year, d.month) + d.day
  }

  predicate Before(a: Date, b: Date)
  {
    a.year < b.year || (a.year == b.year && (a.month < b.month || (a.month == b.month && a.day < b.day)))
  }

  lemma YearLength(year: int)
    ensures DaysBeforeYear(year + 1) == DaysBeforeYear(year) + DaysBeforeMonth(year, 12) + MonthLength(year, 12)
  {
    DaysToDecember(year);
    LeapDays(year);
  }

  /** Which of the three counts of leap years a year raises. */
  lemma LeapDays(year: int)
    ensures year / 4 - year / 100 + year / 400 ==
              (year - 1) / 4 - (year - 1) / 100 + (year - 1) / 400 + if Leap(year) then 1 else 0
  {
    Fourth(year);
    Hundredth(year);
    FourHundredth(year);
    assert year % 400 == 0 ==> year % 100 == 0 by { assert year == 400 * (year / 400) + year % 400; }
    assert year % 100 == 0 ==> year % 4 == 0 by { assert year == 100 * (year / 100) + year % 100; }
  }

  lemma Fourth(year: int)
    ensures year / 4 == (year - 1) / 4 + if year % 4 == 0 then 1 else 0
  {
  }

  lemma Hundredth(year: int)
    ensures year / 100 == (year - 1) / 100 + if year % 100 == 0 then 1 else 0
  {
  }

  lemma FourHundredth(year: int)
    ensures year / 400 == (year - 1) / 400 + if year % 400 == 0 then 1 else 0
  {
  }

  lemma {:induction false} DaysIncrease(year: int, m: nat, n: nat)
    requires 1 <= m < n
    ensures DaysBeforeMonth(year, m) + MonthLength(year, m) <= DaysBeforeMonth(year, n)
  {
    if m < n - 1 { DaysIncrease(year, m, n - 1); }
  }

  lemma {:induction false} YearsIncrease(y: int, z: int)
    requires y < z
    ensures DaysBeforeYear(y) + DaysBeforeMonth(y, 12) + MonthLength(y, 12) <= DaysBeforeYear(z)
    decreases z - y
  {
    YearLength(z - 1);
    if y < z - 1 {
      YearsIncrease(y, z - 1);
      DaysIncrease(z - 1, 1, 12);
    }
  }

  /** A later date has a higher day number. */
  lemma LaterIsMore(a: Date, b: Date)
    requires a.Valid() && b.Valid() && Before(a, b)
    ensures Ordinal(a) < Ordinal(b)
  {
    if a.year < b.year {
      YearsIncrease(a.year, b.year);
      if a.month < 12 { DaysIncrease(a.year, a.month, 12); }
      if 1 < b.month { DaysIncrease(b.year, 1, b.month); }
    } else if a.month < b.month {
      DaysIncrease(a.year, a.month, b.month);
    }
  }

  lemma DaysToDecember(year: int)
    ensures DaysBeforeMonth(year, 12) == 334 + (if Leap(year) then 1 else 0)
  {
    var leap := if Leap(year) then 1 else 0;
    assert DaysBeforeMonth(year, 2) == 31;
    assert DaysBeforeMonth(year, 3) == 59 + leap;
    assert DaysBeforeMonth(year, 4) == 90 + leap;
    assert DaysBeforeMonth(year, 5) == 120 + leap;
    assert DaysBeforeMonth(year, 6) == 151 + leap;
    assert DaysBeforeMonth(year, 7) == 181 + leap;
    assert DaysBeforeMonth(year, 8) == 212 + leap;
    assert DaysBeforeMonth(year, 9) == 243 + leap;
    assert DaysBeforeMonth(year, 10) == 273 + leap;
    assert DaysBeforeMonth(year, 11) == 304 + leap;
  }

  // ---------------------------------------------------------------- one advance

  datatype Rule = Weekly | Monthly | Quarterly | Yearly

  function Months(rule: Rule): int
  {
    match rule case Weekly => 0 case Monthly => 1 case Quarterly => 3 case Yearly => 12
  }

  /** Seven days on, carrying into the next month; None past the last representable date. */
  function NextWeek(d: Date): Option<Date>
    requires d.Valid()
  {
    var day, length := d.day + 7, MonthLength(d.year, d.month);
    if day <= length then Some(d.(day := day))
    else if d.month < 12 then Some(Date(d.year, d.month + 1, day - length))
    else if d.year < MAX_YEAR then Some(Date(d.year + 1, 1, day - length))
    else None
  }

  /** The same day so many months on, clamped to the month; a month end stays a month end. */
  function AddMonths(d: Date, months: nat): Option<Date>
    requires d.Valid()
  {
    var index := d.year * 12 + d.month - 1 + months;
    var year, month := index / 12, index % 12 + 1;
    var end := MonthLength(year, month);
    if year > MAX_YEAR then None
    else Some(Date(year, month, if d.day == MonthLength(d.year, d.month) || d.day >= end then end else d.day))
  }

  function Advance(d: Date, rule: Rule): (r: Option<Date>)
    requires d.Valid()
    ensures r.Some? ==> r.value.Valid() && Before(d, r.value)
  {
    if rule == Weekly then NextWeek(d) else AddMonths(d, Months(rule))
  }

  /** A week is seven day numbers, across months, leap days and years, and fails only past the calendar's end. */
  lemma WeekIsSevenDays(d: Date)
    requires d.Valid()
    ensures match NextWeek(d)
            case Some(e) => e.Valid() && Ordinal(e) == Ordinal(d) + 7
            case None => d.year == MAX_YEAR && d.month == 12 && d.day > 24
  {
    YearLength(d.year);
  }

  lemma AdvanceMovesMonths(d: Date, rule: Rule)
    requires d.Valid() && rule != Weekly
    ensures Advance(d, rule).Some? <==> (d.Index() + Months(rule)) / 12 <= MAX_YEAR
    ensures Advance(d, rule).Some? ==> Advance(d, rule).value.Index() == d.Index() + Months(rule)
    ensures d.Index() / 12 == d.year && d.Index() % 12 + 1 == d.month
  {
  }

  // ---------------------------------------------------------------- the orbit

  function Orbit(d: Date, rule: Rule, n: nat): (r: Option<Date>)
    requires d.Valid()
    ensures r.Some? ==> r.value.Valid()
    decreases n
  {
    if n == 0 then Some(d)
    else match Orbit(d, rule, n - 1) case None => None case Some(e) => Advance(e, rule)
  }

  /** The absolute month of occurrence `n`. */
  function MonthAt(index: int, months: int, n: nat): int { index + n * months }

  predicate Short(index: int, day: int) { LengthAt(index) <= day }

  /** Up to occurrence `n` there has been a month no longer than `day`. */
  predicate Absorbed(index: int, months: int, day: int, n: nat)
  {
    Short(MonthAt(index, months, n), day) || (n > 0 && Absorbed(index, months, day, n - 1))
  }

  lemma {:induction false} AbsorbedIff(index: int, months: int, day: int, n: nat)
    ensures Absorbed(index, months, day, n) <==> exists i: nat :: i <= n && Short(MonthAt(index, months, i), day)
  {
    if n > 0 { AbsorbedIff(index, months, day, n - 1); }
  }

  lemma NextMonth(index: int, months: int, n: nat)
    requires n > 0
    ensures MonthAt(index, months, n) == MonthAt(index, months, n - 1) + months
    ensures months >= 0 ==> MonthAt(index, months, n - 1) / 12 <= MonthAt(index, months, n) / 12
  {
    assert n * months == (n - 1) * months + months;
  }

  /** Occurrence `n` has the month and the day of the closed form. */
  predicate InClosedForm(d: Date, rule: Rule, n: nat, e: Date)
  {
    var index := MonthAt(d.Index(), Months(rule), n);
    e.Index() == index && e.day == if Absorbed(d.Index(), Months(rule), d.day, n) then LengthAt(index) else d.day
  }

  /**
   * The closed form of a monthly, quarterly or yearly orbit: occurrence n is n*k months on; its day is the
   * original day until the first month no longer than that day, and the month's end from then on.
   */
  lemma {:induction false} OrbitClosedForm(d: Date, rule: Rule, n: nat)
    requires d.Valid() && rule != Weekly
    ensures Orbit(d, rule, n).Some? <==> MonthAt(d.Index(), Months(rule), n) / 12 <= MAX_YEAR
    ensures Orbit(d, rule, n).Some? ==> InClosedForm(d, rule, n, Orbit(d, rule, n).value)
    decreases n
  {
    if n == 0 {
      ClosedFormStart(d, rule);
    } else {
      OrbitClosedForm(d, rule, n - 1);
      NextMonth(d.Index(), Months(rule), n);
      if Orbit(d, rule, n - 1).Some? {
        ClosedFormStep(d, rule, n, Orbit(d, rule, n - 1).value);
      }
    }
  }

  lemma ClosedFormStart(d: Date, rule: Rule)
    requires d.Valid()
    ensures MonthAt(d.Index(), Months(rule), 0) / 12 <= MAX_YEAR && InClosedForm(d, rule, 0, d)
  {
    assert d.Index() / 12 == d.year && d.Index() % 12 + 1 == d.month;
  }

  lemma ClosedFormStep(d: Date, rule: Rule, n: nat, e: Date)
    requires d.Valid() && e.Valid() && rule != Weekly && n > 0 && InClosedForm(d, rule, n - 1, e)
    ensures Advance(e, rule).Some? <==> MonthAt(d.Index(), Months(rule), n) / 12 <= MAX_YEAR
    ensures Advance(e, rule).Some? ==> InClosedForm(d, rule, n, Advance(e, rule).value)
  {
    NextMonth(d.Index(), Months(rule), n);
    AdvanceMovesMonths(e, rule);
    if Advance(e, rule).Some? {
      OrbitDay(e, rule);
      DayStep(d.Index(), Months(rule), d.day, n, e.day, Advance(e, rule).value.day);
    }
  }

  /** The day of the next occurrence from the day of this one. */
  lemma DayStep(index: int, months: int, day: int, n: nat, here: int, there: int)
    requires n > 0
    requires here == if Absorbed(index, months, day, n - 1) then LengthAt(MonthAt(index, months, n - 1)) else day
    requires var target := LengthAt(MonthAt(index, months, n));
             there == if here == LengthAt(MonthAt(index, months, n - 1)) || target <= here then target else here
    ensures there == if Absorbed(index, months, day, n) then LengthAt(MonthAt(index, months, n)) else day
  {
  }

  lemma OrbitDay(e: Date, rule: Rule)
    requires e.Valid() && rule != Weekly && Advance(e, rule).Some?
    ensures var target := LengthAt(e.Index() + Months(rule));
            Advance(e, rule).value.day == if e.day == LengthAt(e.Index()) || target <= e.day then target else e.day
  {
    AdvanceMovesMonths(e, rule);
  }

  /** Up to the 27th no month is too short, so the day never moves. */
  lemma EarlyDaysNeverMove(d: Date, rule: Rule, n: nat)
    requires d.Valid() && rule != Weekly && d.day <= 27 && Orbit(d, rule, n).Some?
    ensures Orbit(d, rule, n).value.day == d.day
  {
    OrbitClosedForm(d, rule, n);
    AbsorbedIff(d.Index(), Months(rule), d.day, n);
  }

  /** Once at a month's end, always at a month's end. */
  lemma {:induction false} MonthEndPersists(d: Date, rule: Rule, m: nat, n: nat)
    requires d.Valid() && rule != Weekly && m <= n && Orbit(d, rule, m).Some? && Orbit(d, rule, n).Some?
    requires Orbit(d, rule, m).value.MonthEnd()
    ensures Orbit(d, rule, n).value.MonthEnd()
    decreases n
  {
    if m < n { MonthEndPersists(d, rule, m, n - 1); }
  }

  /** Weekly occurrences are exactly seven days apart. */
  lemma {:induction false} WeeklyOrbit(d: Date, n: nat)
    requires d.Valid() && Orbit(d, Weekly, n).Some?
    ensures Ordinal(Orbit(d, Weekly, n).value) == Ordinal(d) + 7 * n
    decreases n
  {
    if n > 0 {
      WeeklyOrbit(d, n - 1);
      WeekIsSevenDays(Orbit(d, Weekly, n - 1).value);
    }
  }

  lemma {:induction false} OrbitIncreases(d: Date, rule: Rule, m: nat, n: nat)
    requires d.Valid() && m < n && Orbit(d, rule, n).Some?
    ensures Orbit(d, rule, m).Some? && Before(Orbit(d, rule, m).value, Orbit(d, rule, n).value)
    decreases n
  {
    if m < n - 1 { OrbitIncreases(d, rule, m, n - 1); }
  }

  // ---------------------------------------------------------------- twelve months against one year

  const DRIFTING := Date(2023, 1, 28)

  /** The orbit is not the calendar's: 28 January goes by way of 28 February to 31 March, not to 28 January again. */
  lemma MonthsDrift()
    ensures DRIFTING.Valid() && Orbit(DRIFTING, Monthly, 1) == Some(Date(2023, 2, 28))
    ensures Orbit(DRIFTING, Monthly, 2) == Some(Date(2023, 3, 31))
    ensures Orbit(DRIFTING, Monthly, InMonths(1)) != Orbit(DRIFTING, Yearly, 1)
  {
    assert Orbit(DRIFTING, Monthly, 1) == Some(Date(2023, 2, 28));
    assert Orbit(DRIFTING, Monthly, 2) == Some(Date(2023, 3, 31));
    MonthsAreYears(DRIFTING, 1);
  }

  function InMonths(years: nat): nat { 12 * years }

  /** The year of the first February after the start. */
  function NextFebruary(d: Date): int { if d.month == 1 then d.year else d.year + 1 }

  predicate KeepsDay(d: Date, years: nat)
  {
    d.MonthEnd() || d.day <= 27 || (d.day == 28 && (d.month == 2 || (years <= 1 && Leap(NextFebruary(d)))))
  }

  /** `n` advances of a rule span as many months as `years` years. */
  predicate Spans(d: Date, rule: Rule, n: nat, years: nat)
  {
    && rule != Weekly && 1 <= years
    && MonthAt(d.Index(), Months(rule), n) == MonthAt(d.Index(), Months(Yearly), years) == d.Index() + InMonths(years)
  }

  /** The closed form with the month written out. */
  lemma OrbitEnd(d: Date, rule: Rule, n: nat, end: int)
    requires d.Valid() && rule != Weekly && MonthAt(d.Index(), Months(rule), n) == end && end / 12 <= MAX_YEAR
    ensures Orbit(d, rule, n) == Some(EndDate(end, d.day, Absorbed(d.Index(), Months(rule), d.day, n)))
  {
    OrbitClosedForm(d, rule, n);
    SameMonth(Orbit(d, rule, n).value, EndDate(end, d.day, Absorbed(d.Index(), Months(rule), d.day, n)));
  }

  function EndDate(end: int, day: int, absorbed: bool): Date
  {
    Date(end / 12, end % 12 + 1, if absorbed then LengthAt(end) else day)
  }

  /**
   * Two orbits over the same years meet at their end exactly if a day that is absorbed on the way of the one
   * is absorbed on an anniversary.
   */
  lemma SameEndIff(d: Date, rule: Rule, n: nat, years: nat)
    requires d.Valid() && Spans(d, rule, n, years) && d.year + years <= MAX_YEAR
    requires Absorbed(d.Index(), 12, d.day, years) ==> Absorbed(d.Index(), Months(rule), d.day, n)
    ensures Orbit(d, rule, n).Some? && Orbit(d, Yearly, years).Some?
    ensures Orbit(d, rule, n) == Orbit(d, Yearly, years) <==>
              (Absorbed(d.Index(), Months(rule), d.day, n) ==> Absorbed(d.Index(), 12, d.day, years))
  {
    var end := d.Index() + InMonths(years);
    assert end / 12 == d.year + years;
    OrbitEnd(d, rule, n, end);
    OrbitEnd(d, Yearly, years, end);
    if LengthAt(end) == d.day { ShortMonthAbsorbs(d.Index(), 12, d.day, years, years); }
  }

  lemma SameMonth(a: Date, b: Date)
    requires 1 <= a.month <= 12 && 1 <= b.month <= 12 && a.Index() == b.Index()
    ensures a.year == b.year && a.month == b.month
  {
  }

  /**
   * For any number of years, advancing month by month reaches the same date as year by year exactly for these
   * starting days.
   */
  lemma MonthsAreYears(d: Date, years: nat)
    requires d.Valid() && 1 <= years && d.year + years <= MAX_YEAR
    ensures Orbit(d, Monthly, InMonths(years)).Some? && Orbit(d, Yearly, years).Some?
    ensures Orbit(d, Monthly, InMonths(years)) == Orbit(d, Yearly, years) <==> KeepsDay(d, years)
  {
    MonthsAbsorb(d, years);
    SameEndIff(d, Monthly, InMonths(years), years);
  }

  lemma MonthsAbsorb(d: Date, years: nat)
    requires d.Valid() && 1 <= years
    ensures Absorbed(d.Index(), 12, d.day, years) ==> Absorbed(d.Index(), 1, d.day, InMonths(years))
    ensures (Absorbed(d.Index(), 1, d.day, InMonths(years)) ==> Absorbed(d.Index(), 12, d.day, years)) <==>
              KeepsDay(d, years)
  {
    AnniversariesAreOnTheWay(d.Index(), 1, d.day, years, 12);
    if d.MonthEnd() || d.month == 2 {
      AnniversaryAbsorbs(d, 1, InMonths(years), years);
    } else {
      NoAnniversaryAbsorbs(d, years);
      FebruariesAbsorb(d, 1, InMonths(years), years, MonthsToFebruary(d), MonthsToFebruary(d) + 12);
    }
  }

  function InQuarters(years: nat): nat { 4 * years }

  /** Outside the quarters that meet a February only a month of thirty days absorbs a day. */
  predicate KeepsDayByQuarters(d: Date, years: nat)
  {
    KeepsDay(d, years) || (d.month % 3 != 2 && d.day <= 29)
  }

  /** And advancing quarter by quarter reaches the same date as year by year exactly for these. */
  lemma QuartersAreYears(d: Date, years: nat)
    requires d.Valid() && 1 <= years && d.year + years <= MAX_YEAR
    ensures Orbit(d, Quarterly, InQuarters(years)).Some? && Orbit(d, Yearly, years).Some?
    ensures Orbit(d, Quarterly, InQuarters(years)) == Orbit(d, Yearly, years) <==> KeepsDayByQuarters(d, years)
  {
    QuartersAbsorb(d, years);
    SameEndIff(d, Quarterly, InQuarters(years), years);
  }

  lemma QuartersAbsorb(d: Date, years: nat)
    requires d.Valid() && 1 <= years
    ensures Absorbed(d.Index(), 12, d.day, years) ==> Absorbed(d.Index(), 3, d.day, InQuarters(years))
    ensures (Absorbed(d.Index(), 3, d.day, InQuarters(years)) ==> Absorbed(d.Index(), 12, d.day, years)) <==>
              KeepsDayByQuarters(d, years)
  {
    AnniversariesAreOnTheWay(d.Index(), 3, d.day, years, 4);
    if d.MonthEnd() || d.month == 2 {
      AnniversaryAbsorbs(d, 3, InQuarters(years), years);
    } else {
      NoAnniversaryAbsorbs(d, years);
      if d.month % 3 == 2 {
        QuarterlyFebruariesAbsorb(d, years);
      } else {
        ThirtyDaysAbsorb(d, InQuarters(years));
      }
    }
  }

  lemma QuarterlyFebruariesAbsorb(d: Date, years: nat)
    requires d.Valid() && d.month % 3 == 2 && d.month != 2 && 1 <= years
    ensures Absorbed(d.Index(), 3, d.day, InQuarters(years)) <==>
              29 <= d.day || (d.day == 28 && (years > 1 || !Leap(NextFebruary(d))))
  {
    var quarter := MonthsToFebruary(d) / 3;
    assert 3 * quarter == MonthsToFebruary(d);
    FebruariesAbsorb(d, 3, InQuarters(years), years, quarter, quarter + 4);
  }

  lemma AnniversariesAreOnTheWay(index: int, months: int, day: int, years: nat, perYear: nat)
    requires (months == 1 && perYear == 12) || (months == 3 && perYear == 4)
    ensures Absorbed(index, 12, day, years) ==> Absorbed(index, months, day, perYear * years)
  {
    AbsorbedIff(index, 12, day, years);
    if i: nat :| i <= years && Short(MonthAt(index, 12, i), day) {
      assert MonthAt(index, months, perYear * i) == MonthAt(index, 12, i);
      ShortMonthAbsorbs(index, months, day, perYear * years, perYear * i);
    }
  }

  lemma ShortMonthAbsorbs(index: int, months: int, day: int, n: nat, i: nat)
    requires i <= n && Short(MonthAt(index, months, i), day)
    ensures Absorbed(index, months, day, n)
  {
    AbsorbedIff(index, months, day, n);
  }

  lemma {:induction false} EarlyDaysAreNeverAbsorbed(index: int, months: int, day: int, n: nat)
    requires day < 28
    ensures !Absorbed(index, months, day, n)
  {
    if n > 0 { EarlyDaysAreNeverAbsorbed(index, months, day, n - 1); }
  }

  /** A month's end is absorbed at once, and the 28th of a leap February a year later; earlier days never are. */
  lemma AnniversaryAbsorbs(d: Date, months: int, n: nat, years: nat)
    requires d.Valid() && 1 <= years && (d.MonthEnd() || d.month == 2)
    ensures d.day >= 28 ==> Absorbed(d.Index(), 12, d.day, years)
    ensures d.day < 28 ==> !Absorbed(d.Index(), months, d.day, n)
  {
    if d.day < 28 {
      EarlyDaysAreNeverAbsorbed(d.Index(), months, d.day, n);
    } else if d.MonthEnd() {
      LengthOfMonth(d.year, d.month);
      ShortMonthAbsorbs(d.Index(), 12, d.day, years, 0);
    } else {
      LengthOfMonth(d.year + 1, d.month);
      assert MonthAt(d.Index(), 12, 1) == (d.year + 1) * 12 + d.month - 1;
      ShortMonthAbsorbs(d.Index(), 12, d.day, years, 1);
    }
  }

  lemma {:induction false} NoAnniversaryAbsorbs(d: Date, years: nat)
    requires d.Valid() && !d.MonthEnd() && d.month != 2
    ensures !Absorbed(d.Index(), 12, d.day, years)
  {
    assert MonthAt(d.Index(), 12, years) == (d.year + years) * 12 + d.month - 1;
    LengthOfMonth(d.year + years, d.month);
    if years > 0 { NoAnniversaryAbsorbs(d, years - 1); }
  }

  lemma LengthOfMonth(year: int, month: int)
    requires 1 <= month <= 12
    ensures LengthAt(year * 12 + month - 1) == MonthLength(year, month)
  {
    assert (year * 12 + month - 1) / 12 == year && (year * 12 + month - 1) % 12 == month - 1;
  }

  /** How many months after the start the next February is. */
  function MonthsToFebruary(d: Date): int { if d.month == 1 then 1 else 14 - d.month }

  lemma FebruaryAhead(d: Date)
    requires d.Valid()
    ensures LengthAt(d.Index() + MonthsToFebruary(d)) == MonthLength(NextFebruary(d), 2)
    ensures LengthAt(d.Index() + MonthsToFebruary(d) + 12) == MonthLength(NextFebruary(d) + 1, 2)
  {
    LengthOfMonth(NextFebruary(d), 2);
    LengthOfMonth(NextFebruary(d) + 1, 2);
  }

  lemma OtherMonthsAreLong(d: Date, i: int)
    requires d.Valid() && 0 <= i <= 12 && i != MonthsToFebruary(d) && d.month != 2
    ensures 30 <= LengthAt(d.Index() + i)
  {
    var m := d.month - 1 + i;
    assert (d.Index() + i) % 12 == if m < 12 then m else m - 12;
  }

  /** Within a year whose February is a leap one no month on the way is as short as 28 days. */
  lemma {:induction false} LeapYearKeeps(d: Date, months: int, n: nat)
    requires d.Valid() && d.month != 2 && Leap(NextFebruary(d)) && 1 <= months && MonthAt(0, months, n) <= 12
    ensures !Absorbed(d.Index(), months, 28, n)
  {
    var i := MonthAt(0, months, n);
    StepsCount(months, n);
    assert MonthAt(d.Index(), months, n) == d.Index() + i;
    if i == MonthsToFebruary(d) { FebruaryAhead(d); } else { OtherMonthsAreLong(d, i); }
    if n > 0 { LeapYearKeeps(d, months, n - 1); }
  }

  lemma StepsCount(months: int, n: nat)
    requires 1 <= months
    ensures 0 <= MonthAt(0, months, n) && (n > 0 ==> MonthAt(0, months, n - 1) <= MonthAt(0, months, n))
  {
    if n > 0 { assert n * months == (n - 1) * months + months; }
    assert n * months >= 0;
  }

  /**
   * Outside February only a February absorbs a day that its month does not end on, and one of any two does.
   * The way meets them after `q` and `later` advances.
   */
  lemma FebruariesAbsorb(d: Date, months: int, n: nat, years: nat, q: nat, later: nat)
    requires d.Valid() && d.month != 2 && 1 <= years && 1 <= months && MonthAt(0, months, n) == 12 * years
    requires q <= n && MonthAt(d.Index(), months, q) == d.Index() + MonthsToFebruary(d)
    requires MonthAt(d.Index(), months, later) == d.Index() + MonthsToFebruary(d) + 12 && (years > 1 ==> later <= n)
    ensures Absorbed(d.Index(), months, d.day, n) <==>
              29 <= d.day || (d.day == 28 && (years > 1 || !Leap(NextFebruary(d))))
  {
    FebruaryAhead(d);
    if d.day < 28 {
      EarlyDaysAreNeverAbsorbed(d.Index(), months, d.day, n);
    } else if MonthLength(NextFebruary(d), 2) <= d.day {
      ShortMonthAbsorbs(d.Index(), months, d.day, n, q);
    } else if years > 1 {
      assert !Leap(NextFebruary(d) + 1);
      ShortMonthAbsorbs(d.Index(), months, d.day, n, later);
    } else {
      LeapYearKeeps(d, months, n);
    }
  }

  /** A quarterly way that meets no February meets a month of thirty days within the year, and none shorter. */
  lemma ThirtyDaysAbsorb(d: Date, n: nat)
    requires d.Valid() && d.month % 3 != 2 && !d.MonthEnd() && 4 <= n
    ensures Absorbed(d.Index(), 3, d.day, n) <==> d.day == 30
  {
    if d.day <= 29 {
      assert d.Index() == 3 * (4 * d.year) + (d.month - 1);
      ThirtyDaysOrMore(d.Index(), d.day, n);
    } else {
      var i := QuartersToThirtyDays(d);
      ShortMonthAbsorbs(d.Index(), 3, d.day, n, i);
    }
  }

  lemma {:induction false} ThirtyDaysOrMore(index: int, day: int, n: nat)
    requires index % 3 != 1 && day <= 29
    ensures !Absorbed(index, 3, day, n)
  {
    QuarterResidue(index, n);
    NotFebruary(MonthAt(index, 3, n));
    if n > 0 { ThirtyDaysOrMore(index, day, n - 1); }
  }

  lemma QuarterResidue(index: int, n: nat)
    ensures MonthAt(index, 3, n) % 3 == index % 3
  {
    assert MonthAt(index, 3, n) == 3 * (index / 3 + n) + index % 3;
  }

  lemma NotFebruary(index: int)
    requires index % 3 != 1
    ensures 30 <= LengthAt(index)
  {
    assert index % 12 != 1 by { assert index == 12 * (index / 12) + index % 12; }
  }

  /** From a month of 31 days the next one of thirty, three, six or nine months on. */
  lemma QuartersToThirtyDays(d: Date) returns (i: nat)
    requires d.Valid() && d.month % 3 != 2 && MonthLength(d.year, d.month) == 31
    ensures i <= 3 && LengthAt(MonthAt(d.Index(), 3, i)) == 30
  {
    var year, month: int;
    if d.month == 1 {
      i, year, month := 1, d.year, 4;
    } else if d.month == 3 {
      i, year, month := 1, d.year, 6;
    } else if d.month == 12 {
      i, year, month := 2, d.year + 1, 6;
    } else {
      i, year, month := if d.month == 7 then 3 else 2, d.year + 1, 4;
    }
    LengthOfMonth(year, month);
    assert MonthAt(d.Index(), 3, i) == year * 12 + month - 1;
  }

  // ---------------------------------------------------------------- the payment

  datatype Status = Active | Paused | Ended | NeedsReview

  predicate CanMove(from: Status, to: Status)
  {
    match from
    case Active => to == Paused || to == Ended
    case Paused => to == Active || to == Ended
    case Ended => false
    case NeedsReview => false
  }

  /** The status after a series of requests, each granted or refused. */
  function StatusAfter(s: Status, requests: seq<Status>): Status
    decreases |requests|
  {
    if requests == [] then s
    else StatusAfter(if CanMove(s, requests[0]) then requests[0] else s, requests[1..])
  }

  /** What requests can lead where: between active and paused and from both to ended; nothing else ever moves. */
  predicate Reaches(s: Status, s': Status)
  {
    s' == s || ((s == Active || s == Paused) && (s' == Active || s' == Paused || s' == Ended))
  }

  lemma {:induction false} StatusesReached(s: Status, requests: seq<Status>)
    ensures Reaches(s, StatusAfter(s, requests))
    decreases |requests|
  {
    if requests != [] {
      StatusesReached(if CanMove(s, requests[0]) then requests[0] else s, requests[1..]);
    }
  }

  /** A status is reached over some series of requests exactly if it is one of these. */
  lemma ReachableIff(s: Status, s': Status)
    ensures (exists requests :: StatusAfter(s, requests) == s') <==>
              s' == s || ((s == Active || s == Paused) && (s' == Active || s' == Paused || s' == Ended))
  {
    forall requests ensures Reaches(s, StatusAfter(s, requests)) { StatusesReached(s, requests); }
    if s' == s {
      assert StatusAfter(s, []) == s';
    } else if Reaches(s, s') {
      assert [s'][1..] == [];
      assert StatusAfter(s, [s']) == s';
    }
  }

  datatype Error = NotActive | OccurrenceConflict | DateOutOfRange | InvalidTransition

  /** An expense posted for one expected occurrence. */
  datatype Occurrence = Occurrence(expected: Date, paidAt: int)

  class RecurringPayment {
    const first: Date
    const rule: Rule
    var status: Status
    var next: Date
    var recorded: seq<Occurrence>

    /** What has been recorded is the orbit of the first expected date, from its start and without a gap. */
    ghost predicate Valid()
      reads this
    {
      && first.Valid()
      && (forall i :: 0 <= i < |recorded| ==> Orbit(first, rule, i) == Some(recorded[i].expected))
      && Orbit(first, rule, |recorded|) == Some(next)
    }

    constructor (first: Date, rule: Rule)
      requires first.Valid()
      ensures Valid() && this.first == first && this.rule == rule && status == Active && recorded == []
    {
      this.first, this.rule, status, next, recorded := first, rule, Active, first, [];
    }

    method TransitionStatus(to: Status) returns (error: Option<Error>)
      requires Valid()
      modifies this`status
      ensures Valid()
      ensures error.None? <==> || (old(status) == Active && (to == Paused || to == Ended))
                               || (old(status) == Paused && (to == Active || to == Ended))
      ensures error.Some? ==> error == Some(InvalidTransition)
      ensures status == (if error.None? then to else old(status)) == StatusAfter(old(status), [to])
    {
      assert [to][1..] == [];
      if !CanMove(status, to) { return Some(InvalidTransition); }
      status := to;
      return None;
    }

    /** Posts the expense of the expected occurrence and advances it, or changes nothing. */
    method RecordDuePayment(expected: Date, paidAt: int) returns (error: Option<Error>)
      requires Valid()
      modifies this`next, this`recorded
      ensures Valid()
      ensures error == if status != Active then Some(NotActive)
                       else if old(next) != expected then Some(OccurrenceConflict)
                       else if Orbit(first, rule, old(|recorded|) + 1).None? then Some(DateOutOfRange)
                       else None
      ensures recorded == if error.None? then old(recorded) + [Occurrence(expected, paidAt)] else old(recorded)
      ensures error.Some? ==> next == old(next)
    {
      if status != Active { return Some(NotActive); }
      if next != expected { return Some(OccurrenceConflict); }
      var advanced := Advance(next, rule);
      if advanced.None? { return Some(DateOutOfRange); }
      recorded := recorded + [Occurrence(expected, paidAt)];
      next := advanced.value;
      return None;
    }

    /** No occurrence is ever recorded twice, and the next one is later than them all. */
    lemma RecordedOnce(i: nat, j: nat)
      requires Valid() && i < j <= |recorded|
      ensures Before(recorded[i].expected, if j < |recorded| then recorded[j].expected else next)
    {
      OrbitIncreases(first, rule, i, j);
    }
  }
}
